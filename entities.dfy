/**
 * The persisted records of the farm service (the `Farm` and `User` entities),
 * the coordinates the geocoding provider returns, and the errors the services throw.
 */
module Entities {
  import opened Wrappers

  /** A geocoded position: `{ lat, lng }`. */
  datatype Coordinates = Coordinates(lat: real, lng: real)

  /**
   * A row of the `farm` table. `id` stands for the generated uuid, `createdAt` and
   * `updatedAt` for the database timestamps, `owner` for the id of the owning user
   * (the relation is nullable). The column `yield` is called `cropYield` here,
   * since `yield` is a Dafny keyword.
   */
  datatype Farm = Farm(
    id: nat,
    name: string,
    cropYield: real,
    size: real,
    createdAt: int,
    updatedAt: int,
    address: string,
    coordinates: Coordinates,
    owner: Option<nat>)

  /** A row of the `user` table. */
  datatype User = User(
    id: nat,
    email: string,
    hashedPassword: string,
    createdAt: int,
    updatedAt: int,
    address: string,
    coordinates: Coordinates)

  /**
   * What the services throw: `UnprocessableEntityError` for a uniqueness conflict,
   * `BadRequestError` for a failed validation, a JavaScript `TypeError` for a property
   * read on `undefined`, and whatever a foreign call (database, Google Maps) rejects with.
   */
  datatype Error =
    | UnprocessableEntity(message: string)
    | BadRequest(message: string)
    | TypeError(message: string)
    | Upstream(message: string)

  /** A call to the geocoding provider: the `results` list of the response, or the rejection. */
  type Geocoder = string -> Result<seq<Coordinates>, Error>

  /** The password hasher (bcrypt with its salt), taken as an uninterpreted function. */
  type Hasher = string -> string
}
