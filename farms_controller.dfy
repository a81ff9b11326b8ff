/**
 * `FarmsController.get`: fetch the farms for the validated sort tuple, ask the distance
 * matrix for the driving distance from the requesting user to every farm, and attach
 * the distances to the farms by position.
 */
module FarmsController {
  import opened Wrappers
  import opened Entities
  import opened SortFarmsInput

  /** The `{ sortBy: { prop, orderToSort } }` argument of `getAllFarms`. */
  datatype FarmQuery = FarmQuery(prop: string, orderToSort: string)

  /** The `{ origin, destinations }` argument of `getDistanceMatrix`. */
  datatype DistanceQuery = DistanceQuery(origin: Coordinates, destinations: seq<Coordinates>)

  /**
   * `{ ...farm, drivingDistance }`: every field of the farm plus the distance. A position
   * past the end of the distance list reads as `undefined`, written `None`.
   */
  datatype FarmWithDistance = FarmWithDistance(farm: Farm, drivingDistance: Option<real>)

  /** What the handler does: send a status and the farm list, or hand the error to `next`. */
  datatype Reply = Sent(status: nat, farms: seq<FarmWithDistance>) | Next(error: Error)

  /** The farm service's `getAllFarms` and the address service's `getDistanceMatrix`. */
  type FarmSource = FarmQuery -> Result<seq<Farm>, Error>
  type DistanceMatrix = DistanceQuery -> Result<seq<real>, Error>

  const Created: nat := 201

  /** What `sortFarmsInputDto![0]` throws when the middleware attached no tuple. */
  const UndefinedTuple: string := "Cannot read properties of undefined (reading '0')"

  /** `farms.map(l => l.coordinates)`. */
  function Destinations(farms: seq<Farm>): (d: seq<Coordinates>)
    ensures |d| == |farms|
    ensures forall i :: 0 <= i < |farms| ==> d[i] == farms[i].coordinates
  {
    seq(|farms|, i requires 0 <= i < |farms| => farms[i].coordinates)
  }

  /** `response[i]` in JavaScript: the element, or `undefined` past the end. */
  function DistanceAt(response: seq<real>, i: nat): Option<real>
  {
    if i < |response| then Some(response[i]) else None
  }

  /** The specification of the merge: position `i` pairs `farms[i]` with `response[i]`. */
  function MergeByIndex(farms: seq<Farm>, response: seq<real>): seq<FarmWithDistance>
  {
    seq(|farms|, i requires 0 <= i < |farms| => FarmWithDistance(farms[i], DistanceAt(response, i)))
  }

  /** The farms of a merged list, in order. */
  function FarmsOf(merged: seq<FarmWithDistance>): seq<Farm>
  {
    seq(|merged|, i requires 0 <= i < |merged| => merged[i].farm)
  }

  /** The distances of a merged list, in order. */
  function DistancesOf(merged: seq<FarmWithDistance>): seq<Option<real>>
  {
    seq(|merged|, i requires 0 <= i < |merged| => merged[i].drivingDistance)
  }

  /**
   * The handler `get`. `propertyToSortBy` is what validation attached to the request
   * (`None` when nothing was attached), `user` the authenticated user.
   */
  method Get(propertyToSortBy: Option<SortTuple>, user: User, getAllFarms: FarmSource,
             getDistanceMatrix: DistanceMatrix)
    returns (reply: Reply)
    // no tuple: the non-null assertion reads index 0 of undefined
    ensures propertyToSortBy.None? ==> reply == Next(TypeError(UndefinedTuple))
    // the farm query carries the tuple's two components; its failure goes to next
    ensures propertyToSortBy.Some? ==>
              var query := FarmQuery(propertyToSortBy.value.0, propertyToSortBy.value.1);
              getAllFarms(query).Err? ==> reply == Next(getAllFarms(query).error)
    // the distance query runs from the user to every farm, in farm order
    ensures propertyToSortBy.Some? ==>
              var query := FarmQuery(propertyToSortBy.value.0, propertyToSortBy.value.1);
              getAllFarms(query).Ok? ==>
                var farms := getAllFarms(query).value;
                var distances := getDistanceMatrix(DistanceQuery(user.coordinates, Destinations(farms)));
                && (distances.Err? ==> reply == Next(distances.error))
                && (distances.Ok? ==> reply == Sent(Created, MergeByIndex(farms, distances.value)))
    // a reply that is sent carries 201
    ensures reply.Sent? ==> reply.status == Created
  {
    if propertyToSortBy.None? {
      return Next(TypeError(UndefinedTuple));
    }
    var tuple := propertyToSortBy.value;
    var fetched := getAllFarms(FarmQuery(tuple.0, tuple.1));
    if fetched.Err? {
      return Next(fetched.error);
    }
    var farms := fetched.value;
    var allDestinations := Destinations(farms);
    var distances := getDistanceMatrix(DistanceQuery(user.coordinates, allDestinations));
    if distances.Err? {
      return Next(distances.error);
    }
    // the output object is built with its list set to empty, so no push can fail
    var merged := MergeInto(Some([]), farms, distances.value);
    reply := Sent(Created, merged.value.value);
  }

  /** What `undefined.push(...)` throws. */
  const UndefinedPush: string := "Cannot read properties of undefined (reading 'push')"

  /**
   * The loop of lines 50-52: push `{ ...farms[i], drivingDistance: response[i] }` onto the
   * output object's `farms` list for each `i`. `output` is that list before the loop, `None`
   * when it is `undefined`; pushing onto `undefined` throws. Starting from a list, the loop
   * appends the merge of the specification; starting from `undefined`, it throws as soon as
   * there is a farm, and with no farms it leaves the list undefined.
   */
  method MergeInto(output: Option<seq<FarmWithDistance>>, farms: seq<Farm>, response: seq<real>)
    returns (r: Result<Option<seq<FarmWithDistance>>, Error>)
    ensures output.Some? ==> r == Ok(Some(output.value + MergeByIndex(farms, response)))
    ensures output.None? && |farms| == 0 ==> r == Ok(None)
    ensures output.None? && |farms| > 0 ==> r == Err(TypeError(UndefinedPush))
  {
    var list := output;
    var i := 0;
    while i < |farms|
      invariant 0 <= i <= |farms|
      invariant i == 0 ==> list == output
      invariant i > 0 ==> output.Some? && list == Some(output.value + MergeByIndex(farms[..i], response))
    {
      if list.None? {
        return Err(TypeError(UndefinedPush));
      }
      assert MergeByIndex(farms[..0], response) == [];
      assert MergeByIndex(farms[..i + 1], response) ==
             MergeByIndex(farms[..i], response) + [FarmWithDistance(farms[i], DistanceAt(response, i))];
      assert list.value + [FarmWithDistance(farms[i], DistanceAt(response, i))] ==
             output.value + MergeByIndex(farms[..i + 1], response);
      list := Some(list.value + [FarmWithDistance(farms[i], DistanceAt(response, i))]);
      i := i + 1;
    }
    assert farms[..i] == farms;
    assert output.Some? && i == 0 ==> output.value + MergeByIndex(farms, response) == output.value;
    return Ok(list);
  }

  // ---------------------------------------------------------------------------
  // Lemmas about the merge
  // ---------------------------------------------------------------------------

  /** The merge has one entry per farm and keeps every farm, unchanged and in order. */
  lemma MergeKeepsFarms(farms: seq<Farm>, response: seq<real>)
    ensures |MergeByIndex(farms, response)| == |farms|
    ensures FarmsOf(MergeByIndex(farms, response)) == farms
  {
  }

  /**
   * When the distance list is as long as the farm list, reading the distances back gives
   * exactly the distance list: entry `i` carries `response[i]`.
   */
  lemma MergeAligned(farms: seq<Farm>, response: seq<real>)
    requires |response| == |farms|
    ensures DistancesOf(MergeByIndex(farms, response)) ==
            seq(|response|, i requires 0 <= i < |response| => Some(response[i]))
  {
  }

  /** Entry `i` of the merge is undefined exactly when the response has no element `i`. */
  lemma MergeUndefinedPastResponse(farms: seq<Farm>, response: seq<real>, i: nat)
    requires i < |farms|
    ensures MergeByIndex(farms, response)[i].drivingDistance.None? <==> i >= |response|
  {
  }

  /**
   * Two farms and the distances 0 and 18: the reply lists the first farm with 0 and the
   * second with 18, in that order.
   */
  lemma TwoFarmExample(farm1: Farm, farm2: Farm)
    ensures MergeByIndex([farm1, farm2], [0.0, 18.0]) ==
            [FarmWithDistance(farm1, Some(0.0)), FarmWithDistance(farm2, Some(18.0))]
  {
  }
}
