/** The address service: turns a free-text address into coordinates through the geocoder. */
module AddressService {
  import opened Wrappers
  import opened Entities

  const UndefinedGeometry: string := "Cannot read properties of undefined (reading 'geometry')"

  /**
   * `getCoordinatesFromAddress`: asks the geocoder for `address` and takes the location of
   * the first result. The source reads `results[0]` without a check, so an empty result
   * list surfaces as a TypeError; a rejected call is passed on unchanged.
   */
  function CoordinatesFromAddress(geocode: Geocoder, address: string): (r: Result<Coordinates, Error>)
    ensures r.Ok? <==> geocode(address).Ok? && |geocode(address).value| > 0
    ensures r.Ok? ==> r.value == geocode(address).value[0]
    ensures geocode(address).Err? ==> r == Err(geocode(address).error)
    ensures geocode(address) == Ok([]) ==> r == Err(TypeError(UndefinedGeometry))
  {
    var results :- geocode(address);
    if |results| == 0 then Err(TypeError(UndefinedGeometry)) else Ok(results[0])
  }
}
