/**
 * `UsersService`: `createUser` refuses an email that is already registered, otherwise
 * hashes the password, geocodes the module's fixed address and inserts the user;
 * `findOneBy` looks a user up by email.
 */
module UsersService {
  import opened Wrappers
  import opened Entities
  import opened AddressService
  import opened Tables

  /** The input of `createUser`; any `coordinates` it carries are not used. */
  datatype CreateUserInput = CreateUserInput(
    email: string,
    password: string,
    address: string,
    coordinates: Option<Coordinates>)

  const DuplicateEmail: string := "A user for the email already exists"

  /** The address in the module-level `args` that every `createUser` geocodes. */
  const ArgsAddress: string := "Perth 4WD & Commercial Centre"

  /** The `email` column, unique in the user table, and the `id` column. */
  const Email: User -> string := (u: User) => u.email
  const Id: User -> nat := (u: User) => u.id

  class UsersService {
    /** The user table. */
    var users: seq<User>
    /** The next id the table hands out. */
    var nextId: nat
    /** The addresses sent to the geocoder so far, in call order. */
    ghost var geocoded: seq<string>
    /** The Google Maps geocoder. */
    const geocode: Geocoder
    /** bcrypt's `hash(password, genSalt(saltRounds))`. */
    const hash: Hasher

    ghost predicate Valid()
      reads this
    {
      UniqueKeys(users, Email) && forall i :: 0 <= i < |users| ==> users[i].id < nextId
    }

    /** A service over an existing table, which the unique constraint keeps free of duplicate emails. */
    constructor (table: seq<User>, geocoder: Geocoder, hasher: Hasher)
      requires UniqueKeys(table, Email)
      ensures Valid()
      ensures users == table && geocoded == [] && geocode == geocoder && hash == hasher
    {
      users := table;
      nextId := FreshId(table, Id);
      geocoded := [];
      geocode := geocoder;
      hash := hasher;
    }

    /** `findOneBy({ email })`: the registered user with that email, or null. */
    function FindOneBy(email: string): (r: Option<User>)
      reads this
      ensures r.None? <==> forall i :: 0 <= i < |users| ==> users[i].email != email
      ensures r.Some? ==> r.value in users && r.value.email == email
    {
      FindBy(users, Email, email)
    }

    /**
     * `createUser(data)` at time `now`. A registered email fails before anything else
     * happens; otherwise the geocoder is asked for the fixed `args` address (never for
     * `data.address`), a failed or empty answer fails before anything is saved, and on
     * success exactly one user is appended: the given email and address, the hash of the
     * password and the first geocoding result.
     */
    method CreateUser(data: CreateUserInput, now: int) returns (r: Result<User, Error>)
      requires Valid()
      modifies this
      ensures Valid()
      ensures FindBy(old(users), Email, data.email).Some? ==>
                r == Err(UnprocessableEntity(DuplicateEmail)) && users == old(users) && geocoded == old(geocoded)
      ensures FindBy(old(users), Email, data.email).None? ==> geocoded == old(geocoded) + [ArgsAddress]
      ensures FindBy(old(users), Email, data.email).None? && CoordinatesFromAddress(geocode, ArgsAddress).Err? ==>
                r == Err(CoordinatesFromAddress(geocode, ArgsAddress).error) && users == old(users)
      ensures r.Ok? <==>
                FindBy(old(users), Email, data.email).None? && CoordinatesFromAddress(geocode, ArgsAddress).Ok?
      ensures r.Ok? ==>
                && r.value == User(old(nextId), data.email, hash(data.password), now, now, data.address,
                                   CoordinatesFromAddress(geocode, ArgsAddress).value)
                && users == old(users) + [r.value]
                && FindOneBy(data.email) == Some(r.value)
    {
      var existingUser := FindOneBy(data.email);
      if existingUser.Some? {
        return Err(UnprocessableEntity(DuplicateEmail));
      }
      var hashedPassword := hash(data.password);
      geocoded := geocoded + [ArgsAddress];
      var location :- CoordinatesFromAddress(geocode, ArgsAddress);
      var user := User(nextId, data.email, hashedPassword, now, now, data.address, location);
      FindAppended(users, Email, user);
      users := users + [user];
      nextId := nextId + 1;
      r := Ok(user);
    }
  }
}
