/**
 * `FarmsService.createFarm`: refuse a name that is already taken, otherwise geocode the
 * address and insert the new farm into the farm table.
 */
module FarmsService {
  import opened Wrappers
  import opened Entities
  import opened AddressService
  import opened Tables

  /** The input of `createFarm`; `coordinates` and `owner` may be present but are not used. */
  datatype CreateFarmInput = CreateFarmInput(
    name: string,
    size: real,
    cropYield: real,
    address: string,
    coordinates: Option<Coordinates>,
    owner: Option<nat>)

  const DuplicateName: string := "A farm with the same name already exists"

  /** The `name` column, unique in the farm table, and the `id` column. */
  const Name: Farm -> string := (f: Farm) => f.name
  const Id: Farm -> nat := (f: Farm) => f.id

  /** The farm `createFarm` builds: only name, size, yield, address and the geocoded position. */
  function NewFarm(id: nat, data: CreateFarmInput, position: Coordinates, now: int): Farm
  {
    Farm(id, data.name, data.cropYield, data.size, now, now, data.address, position, None)
  }

  class FarmsService {
    /** The farm table. */
    var farms: seq<Farm>
    /** The next id the table hands out. */
    var nextId: nat
    /** The addresses sent to the geocoder so far, in call order. */
    ghost var geocoded: seq<string>
    /** The Google Maps geocoder behind the address service. */
    const geocode: Geocoder

    ghost predicate Valid()
      reads this
    {
      UniqueKeys(farms, Name) && forall i :: 0 <= i < |farms| ==> farms[i].id < nextId
    }

    /** A service over an existing table, which the unique constraint keeps free of duplicate names. */
    constructor (table: seq<Farm>, geocoder: Geocoder)
      requires UniqueKeys(table, Name)
      ensures Valid()
      ensures farms == table && geocoded == [] && geocode == geocoder
    {
      farms := table;
      nextId := FreshId(table, Id);
      geocoded := [];
      geocode := geocoder;
    }

    /**
     * `createFarm(data)` at time `now`. A taken name fails before the geocoder is called;
     * a failed geocoding fails before anything is saved; otherwise exactly one farm is
     * appended and the names stay unique.
     */
    method CreateFarm(data: CreateFarmInput, now: int) returns (r: Result<Farm, Error>)
      requires Valid()
      modifies this
      ensures Valid()
      ensures FindBy(old(farms), Name, data.name).Some? ==>
                r == Err(UnprocessableEntity(DuplicateName)) && farms == old(farms) && geocoded == old(geocoded)
      ensures FindBy(old(farms), Name, data.name).None? ==>
                geocoded == old(geocoded) + [data.address]
      ensures FindBy(old(farms), Name, data.name).None? && CoordinatesFromAddress(geocode, data.address).Err? ==>
                r == Err(CoordinatesFromAddress(geocode, data.address).error) && farms == old(farms)
      ensures r.Ok? <==> FindBy(old(farms), Name, data.name).None? && CoordinatesFromAddress(geocode, data.address).Ok?
      ensures r.Ok? ==>
                && r.value == NewFarm(old(nextId), data, CoordinatesFromAddress(geocode, data.address).value, now)
                && farms == old(farms) + [r.value]
                && FindBy(farms, Name, data.name) == Some(r.value)
    {
      var existing := FindBy(farms, Name, data.name);
      if existing.Some? {
        return Err(UnprocessableEntity(DuplicateName));
      }
      geocoded := geocoded + [data.address];
      var position := CoordinatesFromAddress(geocode, data.address);
      if position.Err? {
        return Err(position.error);
      }
      var farm := NewFarm(nextId, data, position.value, now);
      farms := farms + [farm];
      nextId := nextId + 1;
      FindAppended(old(farms), Name, farm);
      r := Ok(farm);
    }
  }
}
