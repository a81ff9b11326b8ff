/**
 * The two table operations both services use: look a row up by a unique column, and
 * hand out an id that no row has yet.
 */
module Tables {
  import opened Wrappers

  /** A unique constraint on the column `key`. */
  predicate UniqueKeys<T>(rows: seq<T>, key: T -> string)
  {
    forall i, j :: 0 <= i < j < |rows| ==> key(rows[i]) != key(rows[j])
  }

  /** `findOne({ where: { key: k } })` / `findOneBy({ key: k })`: the row with that key, or null (`None`). */
  function FindBy<T>(rows: seq<T>, key: T -> string, k: string): (r: Option<T>)
    ensures r.None? <==> forall i :: 0 <= i < |rows| ==> key(rows[i]) != k
    ensures r.Some? ==> r.value in rows && key(r.value) == k
  {
    if rows == [] then None
    else if key(rows[0]) == k then Some(rows[0])
    else FindBy(rows[1..], key, k)
  }

  /** An id larger than every id in the table (stands for the uuid generator). */
  function FreshId<T>(rows: seq<T>, id: T -> nat): (n: nat)
    ensures forall i :: 0 <= i < |rows| ==> id(rows[i]) < n
  {
    if rows == [] then 0
    else
      var rest := FreshId(rows[1..], id);
      assert forall i :: 1 <= i < |rows| ==> rows[i] == rows[1..][i - 1];
      if id(rows[0]) < rest then rest else id(rows[0]) + 1
  }

  /** Appending a row whose key is new keeps the keys unique, and the lookup then finds it. */
  lemma {:induction false} FindAppended<T>(rows: seq<T>, key: T -> string, row: T)
    requires FindBy(rows, key, key(row)).None?
    ensures FindBy(rows + [row], key, key(row)) == Some(row)
    ensures UniqueKeys(rows, key) ==> UniqueKeys(rows + [row], key)
  {
    if rows != [] {
      assert (rows + [row])[1..] == rows[1..] + [row];
      FindAppended(rows[1..], key, row);
    }
  }
}
