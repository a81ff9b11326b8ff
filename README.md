# Farm listing and registration service: a Dafny model

This project models the core of a small farm-registration REST service. Users register
farms at a geocoded address. They list farms sorted by name, creation date or driving
distance, optionally keeping only the farms whose yield is an outlier. The model covers
five pieces:

- **The listing query** (`FarmRepository`, file `farm_repository.dfy`). The optional outlier
  filter keeps the farms whose yield lies more than 30% above or below the average yield of
  the whole `farm` table. The rows that pass are ordered by `name` or `createdAt` ascending,
  or left in table order for `driving_distance`. The query skips `(page - 1) * pageSize`
  rows, takes `pageSize`, and counts the whole filtered population. Everything is pure
  functions over a `seq<Farm>` standing for the table, with lemmas.
- **The sort-label table** (`SortFarmsInput`). `SortableProperties` maps the labels `NAME`,
  `DATE` and `DRIVINGDISTANCE` to a `(property, "ASC")` tuple. The `@Transform` looks the
  label up, and `@IsNotEmpty` rejects a label the table does not know.
- **The listing handler** (`FarmsController.Get`). It passes the validated tuple to
  `getAllFarms` and builds the destination list from the farms' coordinates, in order. It
  asks `getDistanceMatrix` for the distances from the user's coordinates. A loop then
  attaches `response[i]` to farm `i`. A failure at any step goes to `next` and no list is
  sent.
- **Farm creation** (`FarmsService.FarmsService`). The class holds the farm table as a
  sequence. `CreateFarm` refuses a name already in the table, geocodes the address, and
  appends the new farm.
- **User creation and lookup** (`UsersService.UsersService`). `CreateUser` refuses an email
  already in the table, hashes the password, geocodes the module's fixed `args` address
  and appends the user. `FindOneBy` finds a user by email.

The geocoder (`Entities.Geocoder`) and the password hasher (`Entities.Hasher`) are
uninterpreted functions. `getAllFarms` and `getDistanceMatrix` are called by the handler
but defined in none of the modelled files, so `Get` takes them as function parameters.
The database's clock is a `now` parameter. Its uuid generator is a counter, `nextId`.
`AddressService.CoordinatesFromAddress` models `results[0]` being read without a check:
an empty result list gives a `TypeError`.

What the code does not do, and the model therefore does not do either:

- The distance matrix is asked once, for all farms of the page together. There is no
  batching of destinations and no rate limiting.
- `findWithSort` returns one page. Nothing loops over the pages to collect all farms.
- Sorting by `driving_distance` adds no `ORDER BY`, and nothing sorts by distance
  afterwards: the rows come back in table order.
- `createFarm` copies only name, size, yield, address and the new coordinates. The saved
  farm therefore has no owner, even though the integration tests expect one.

Both services look rows up by a unique column and hand out fresh ids through the same
two functions, `Tables.FindBy` and `Tables.FreshId`, given the column as a parameter.

## Model

| member | source | states |
|---|---|---|
| FarmRepository.Offset | src/modules/farms/repo/farm.repository.ts:11-14 | with the default page 1 the offset is 0; for `page >= 1` and a non-negative page size it is never negative |
| FarmRepository.KeepOutliers | src/modules/farms/repo/farm.repository.ts:24-27 | a farm is kept iff it is a row and its yield is above `avg*0.3 + avg` or below `avg - avg*0.3`; never more rows than given |
| FarmRepository.PopulationMembers | src/modules/farms/repo/farm.repository.ts:24-27 | without the filter the population is the whole table; with it a farm is in the population iff it is in the table and an outlier against the average of the whole table |
| FarmRepository.KeepOutliersAppend | src/modules/farms/repo/farm.repository.ts:24-27 | the filter keeps table order: filtering a concatenation is the concatenation of the filtered parts |
| FarmRepository.UniformYieldHasNoOutliers | src/modules/farms/repo/farm.repository.ts:25-26 | if every farm has the same positive yield, the average is that yield and the filtered population is empty, because both comparisons are strict |
| FarmRepository.SingleFarmIsNoOutlier | src/modules/farms/repo/farm.repository.ts:25-26 | a one-farm table with positive yield has no outlier |
| FarmRepository.OutlierExample | src/modules/farms/repo/farm.repository.ts:25-26 | for yields 300, 200, 120 exactly the farms with 300 and 120 pass, in table order |
| FarmRepository.Insert | src/modules/farms/repo/farm.repository.ts:20-22 | inserting adds exactly the one row (multiset) |
| FarmRepository.InsertSorted | src/modules/farms/repo/farm.repository.ts:20-22 | inserting into a sequence ordered by the column keeps it ordered |
| FarmRepository.SortRows | src/modules/farms/repo/farm.repository.ts:20-22 | `ORDER BY farm.<sortBy> ASC`: the result is a permutation of the rows and non-decreasing in the column |
| FarmRepository.OrderedPermutes | src/modules/farms/repo/farm.repository.ts:20-22 | ordering (or, for driving distance, not ordering) neither adds nor drops a row |
| FarmRepository.Ordered | src/modules/farms/repo/farm.repository.ts:20-22 | ordering keeps the number of rows |
| FarmRepository.WindowIsRun | src/modules/farms/repo/farm.repository.ts:29 | `skip(offset).take(size)` is the run starting at `offset`, `min(size, n - offset)` long, empty at or past the end |
| FarmRepository.SortedWindow | src/modules/farms/repo/farm.repository.ts:29 | a window of an ordered result is ordered |
| FarmRepository.PageFacts | src/modules/farms/repo/farm.repository.ts:20-29 | the window taken from the filtered, ordered population has the page length, is ordered, holds only filtered table rows, and for driving distance without filter is a run of the table itself |
| FarmRepository.FindWithSort | src/modules/farms/repo/farm.repository.ts:7-31 | count = size of the whole filtered population, whatever the page; at most `pageSize` farms, none once the offset reaches the count; the page is the run of the ordered population starting at the offset; sorted for name/createdAt; every farm is a table row that passed the filter; driving distance keeps table order |
| FarmRepository.EveryRowOnItsPage | src/modules/farms/repo/farm.repository.ts:14-29 | row `i` of the ordered population is item `i % pageSize` of page `i / pageSize + 1`, so consecutive pages cover the population, provided every query returns the rows in the one order the model fixes (see "Left out") |
| FarmRepository.StringLeTotal | src/modules/farms/repo/farm.repository.ts:21 | any two names are comparable under the ascending name order |
| FarmRepository.StringLeTransitive | src/modules/farms/repo/farm.repository.ts:21 | the name order is transitive |
| SortFarmsInput.Transform | src/modules/farms/dto/sort-farms.input.dto.ts:15-27 | a tuple exists exactly for `NAME`, `DATE`, `DRIVINGDISTANCE`; they give `("NAME","ASC")`, `("DATE","ASC")`, `("DRIVING_DISTANCE","ASC")`; every tuple has order `ASC` |
| SortFarmsInput.ValidatePropertyToSortBy | src/modules/farms/dto/sort-farms.input.dto.ts:26-28 | validation succeeds iff the label is a table key, with the looked-up tuple; any other label fails the `IsNotEmpty` check as a BadRequest |
| SortFarmsInput.SortablePropertiesInjective | src/modules/farms/dto/sort-farms.input.dto.ts:16-18 | distinct labels give distinct property components |
| SortFarmsInput.ValidationInjective | src/modules/farms/dto/sort-farms.input.dto.ts:16-27 | the validated tuple determines the label |
| FarmsController.Destinations | src/modules/farms/farms.controller.ts:47 | one destination per farm, `destinations[i] = farms[i].coordinates` |
| FarmsController.Get | src/modules/farms/farms.controller.ts:39-57 | runs the merge from an empty list, as intended; no tuple: TypeError to `next`; the farm query carries the tuple's first and second components; a failed farm fetch or distance call goes to `next` with its error and nothing is sent; the distance query has the user's coordinates as origin and the farms' coordinates as destinations; on success status 201 and exactly the positional merge of the farms and the distances |
| FarmsController.MergeKeepsFarms | src/modules/farms/farms.controller.ts:50-52 | the merged list has one entry per farm and reading its farms back gives the farm list unchanged and in order |
| FarmsController.MergeAligned | src/modules/farms/farms.controller.ts:50-52 | when the distance list is as long as the farm list, entry `i` carries `response[i]` |
| FarmsController.MergeUndefinedPastResponse | src/modules/farms/farms.controller.ts:51 | entry `i` has an undefined distance exactly when the response has no element `i` |
| FarmsController.TwoFarmExample | src/modules/farms/farms.controller.ts:50-52 | farms `[farm1, farm2]` with distances `[0, 18]` give `farm1` with 0, then `farm2` with 18 |
| FarmsController.MergeInto | src/modules/farms/farms.controller.ts:49-52 | the push loop run on the output object's list: from a list it appends exactly the positional merge; from the `undefined` list that `new GetManyFarmsOutputDto()` leaves, any non-empty farm list throws the TypeError of the first `push`, and an empty one leaves the list undefined |
| AddressService.CoordinatesFromAddress | src/modules/address/address.service.ts:13-19 | coordinates exist iff the geocoder answers with at least one result, and they are the first result; a rejection is passed on; an empty answer is a TypeError |
| Tables.FindBy | src/modules/farms/farms.service.ts:17 | lookup by a column (`name` here, `email` in users.service.ts:40-42): nothing iff no row has the key; a found row is a row with that key |
| FarmsService.FarmsService.constructor | src/modules/farms/farms.service.ts:11-14 | the service starts over the given table, which has unique names, with no geocoder calls |
| FarmsService.FarmsService.CreateFarm | src/modules/farms/farms.service.ts:16-33 | taken name: UnprocessableEntity("A farm with the same name already exists"), nothing saved, geocoder not called; otherwise the geocoder is called once with `data.address`, and a failed geocoding saves nothing; success iff the name is free and geocoding succeeds, and then the farm has the input's name, size, yield and address, the geocoded coordinates and no owner, the table is the old table plus that farm, names stay unique and the name finds it |
| Tables.FindAppended | src/modules/farms/farms.service.ts:17-32 | appending a row with a new key keeps the column unique and the lookup then finds the row (used for farm names and for user emails, users.service.ts:28-37) |
| UsersService.UsersService.constructor | src/modules/users/users.service.ts:20-23 | the service starts over the given table, which has unique emails |
| UsersService.UsersService.FindOneBy | src/modules/users/users.service.ts:40-42 | null exactly when no user has the email; otherwise a registered user with that email |
| UsersService.UsersService.CreateUser | src/modules/users/users.service.ts:25-38 | registered email: UnprocessableEntity("A user for the email already exists"), nothing saved, no geocoding; otherwise the geocoder is asked for the fixed `args` address, never for `data.address`, and a failed or empty answer saves nothing; on success the user has the given email and address, the hasher's output as `hashedPassword` and the first geocoding result as coordinates; the table gains exactly that user, emails stay unique and `FindOneBy(email)` returns it |

## Left out

- FarmRepository.FindWithSort: requires `page >= 1` and `pageSize >= 1`. A negative offset or a zero or negative page size gets whatever the ORM and the database do with it, and that is not part of this model.
- FarmRepository.FindWithSort: the ascending order of `name` is character-code order, not the database collation.
- FarmRepository.FindWithSort: the model fixes one order for every query. Rows with equal keys, and every row under `driving_distance` (which has no `ORDER BY`), come in table order. SQL promises no order for ties or without `ORDER BY`, and none that stays the same between two queries. The clause of FindWithSort that makes the page a run of `Ordered(...)`, its table-order clause for `driving_distance`, and FarmRepository.EveryRowOnItsPage (consecutive pages cover the population) hold only if the database returns that same order on every query.
- Yield and size are `real`. Floating-point rounding of `AVG` and of the 30% threshold is not modelled.
- The Google Maps calls (geocoding, distance matrix) and bcrypt are foreign code. They appear as function parameters or fields: `Geocoder`, `Hasher`, `FarmSource`, `DistanceMatrix`. bcrypt's random salt is folded into the uninterpreted hasher.
- `getAllFarms` and `getDistanceMatrix` are defined in no modelled file. `Get` takes them as parameters, and nothing is assumed about what they return.
- UsersService.UsersService.FindOneBy: models lookup by `email` only. `findOneBy` accepts any `FindOptionsWhere`, but `createUser` and its tests only look up by email.
- The Express plumbing is not modelled: routes, `FarmsController.create`, the users controller, the auth middleware and the sort-input middleware. The middleware builds `{ sortBy, filter }` while the input class reads `propertyToSortBy`. The repository's keys (`name`, `createdAt`, `driving_distance`) differ from the labels' properties (`NAME`, `DATE`, `DRIVING_DISTANCE`), and no code translates between them. Each piece is modelled on its own.
- JavaScript property lookup on the `SortableProperties` class also resolves names such as `prototype`. The model treats every label other than the three members as absent.
- Asynchrony is not modelled. Each `await` is taken in program order, with no concurrent requests. A failure of the database `save` is not modelled either.
- Migrations, entity and DTO decorators, `instanceToPlain` and `plainToInstance` are not modelled.

## Findings

| source | as written | input that shows it | evidently intended | confidence | as-written member | corrected member |
|---|---|---|---|---|---|---|
| src/modules/farms/farms.controller.ts:49-52 | `new GetManyFarmsOutputDto()` is built with no argument, so its `farms` field is `undefined`, and `farmsWithDistanceToUser.farms.push(...)` throws a TypeError | any non-empty farm list, e.g. a single farm | the merged list starts empty and gets one entry per farm (`farms[i]` with `response[i]`), as the controller tests expect | medium (not executed) | FarmsController.MergeInto | FarmsController.Get |
