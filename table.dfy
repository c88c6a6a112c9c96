/**
 * A SQLite table with an `INTEGER PRIMARY KEY AUTOINCREMENT` key, as a
 * sequence of rows in insertion order, and the statements the handlers run
 * on it: lookup by key, overwrite by key, filtered selection and delete.
 */
module Table {
  import opened Wrappers

  /** A stored row: its key and the remaining columns. */
  datatype Row<R> = Row(id: nat, rec: R)

  /** Keys increase along the table, so no key occurs twice. */
  predicate IdsIncreasing<R>(t: seq<Row<R>>)
  {
    forall i, j :: 0 <= i < j < |t| ==> t[i].id < t[j].id
  }

  /**
   * The AUTOINCREMENT invariant: keys increase, are positive, and are at
   * most `last`, the largest key the table has ever issued.
   */
  predicate Keyed<R>(t: seq<Row<R>>, last: nat)
  {
    IdsIncreasing(t) && forall i :: 0 <= i < |t| ==> 0 < t[i].id <= last
  }

  predicate HasId<R>(t: seq<Row<R>>, id: nat)
  {
    exists i :: 0 <= i < |t| && t[i].id == id
  }

  lemma HasIdTail<R>(t: seq<Row<R>>, id: nat)
    requires t != []
    ensures HasId(t, id) <==> t[0].id == id || HasId(t[1..], id)
  {
    if HasId(t, id) && t[0].id != id {
      var i :| 0 <= i < |t| && t[i].id == id;
      assert t[1..][i - 1].id == id;
    }
    if HasId(t[1..], id) {
      var i :| 0 <= i < |t[1..]| && t[1..][i].id == id;
      assert t[i + 1].id == id;
    }
  }

  /** `SELECT * FROM t WHERE id = ?`: the columns of the row with key `id`, if any. */
  function Find<R(==)>(t: seq<Row<R>>, id: nat): (r: Option<R>)
    ensures r.Some? <==> HasId(t, id)
    ensures r.Some? ==> Row(id, r.value) in t
  {
    if t == [] then None
    else if t[0].id == id then Some(t[0].rec)
    else
      HasIdTail(t, id);
      var r := Find(t[1..], id);
      assert r.Some? ==> Row(id, r.value) in t[1..];
      r
  }

  /** With distinct keys, looking up the key at position `k` finds that row. */
  lemma {:induction false} FindAt<R>(t: seq<Row<R>>, k: nat)
    requires IdsIncreasing(t) && k < |t|
    ensures Find(t, t[k].id) == Some(t[k].rec)
  {
    if k > 0 {
      FindAt(t[1..], k - 1);
    }
  }

  /** `UPDATE t SET <columns> WHERE id = ?`: the row with key `id` gets `rec`. */
  function Overwrite<R>(t: seq<Row<R>>, id: nat, rec: R): (u: seq<Row<R>>)
    ensures |u| == |t|
    ensures forall i :: 0 <= i < |t| ==> u[i] == if t[i].id == id then Row(id, rec) else t[i]
  {
    if t == [] then []
    else [if t[0].id == id then Row(id, rec) else t[0]] + Overwrite(t[1..], id, rec)
  }

  /** Only the row with key `id` changes: every other key reads as before. */
  lemma {:induction false} FindAfterOverwrite<R>(t: seq<Row<R>>, id: nat, rec: R, k: nat)
    ensures Find(Overwrite(t, id, rec), k) == if k == id && HasId(t, id) then Some(rec) else Find(t, k)
  {
    if t != [] {
      HasIdTail(t, id);
      FindAfterOverwrite(t[1..], id, rec, k);
      assert Overwrite(t, id, rec)[1..] == Overwrite(t[1..], id, rec);
    }
  }

  /** Overwriting a missing key is a no-op. */
  lemma OverwriteAbsent<R>(t: seq<Row<R>>, id: nat, rec: R)
    requires !HasId(t, id)
    ensures Overwrite(t, id, rec) == t
  {
  }

  /** With distinct keys, overwriting the key at position `k` replaces exactly that element. */
  lemma OverwriteAt<R>(t: seq<Row<R>>, k: nat, rec: R)
    requires IdsIncreasing(t) && k < |t|
    ensures Overwrite(t, t[k].id, rec) == t[k := Row(t[k].id, rec)]
  {
  }

  lemma OverwriteKeyed<R>(t: seq<Row<R>>, last: nat, id: nat, rec: R)
    requires Keyed(t, last)
    ensures Keyed(Overwrite(t, id, rec), last)
  {
    var u := Overwrite(t, id, rec);

  }

  /** Appending the next key keeps the invariant with the counter advanced. */
  lemma InsertKeyed<R>(t: seq<Row<R>>, last: nat, rec: R)
    requires Keyed(t, last)
    ensures Keyed(t + [Row(last + 1, rec)], last + 1)
    ensures !HasId(t, last + 1)
  {
    var u := t + [Row(last + 1, rec)];
    forall i, j | 0 <= i < j < |u| ensures u[i].id < u[j].id {
      if j == |t| {
        assert u[i] == t[i];
      }
    }
  }

  /** `SELECT * FROM t WHERE keep(row)`: the rows kept, in table order. */
  function Filter<R(==)>(t: seq<Row<R>>, keep: Row<R> -> bool): (u: seq<Row<R>>)
    ensures |u| <= |t|
    ensures forall x :: x in u ==> x in t && keep(x)
    ensures forall x :: x in t && keep(x) ==> x in u
    ensures IdsIncreasing(t) ==> IdsIncreasing(u)
  {
    if t == [] then []
    else
      var rest := Filter(t[1..], keep);
      assert t == [t[0]] + t[1..];
      assert IdsIncreasing(t) ==> forall x :: x in t[1..] ==> t[0].id < x.id;
      if keep(t[0]) then [t[0]] + rest else rest
  }

  /** The number of rows satisfying `p`, as `SELECT COUNT(*) ... WHERE` gives it. */
  function Count<R>(t: seq<Row<R>>, p: Row<R> -> bool): (n: nat)
    ensures n <= |t|
    ensures n == 0 <==> forall i :: 0 <= i < |t| ==> !p(t[i])
  {
    if t == [] then 0
    else
      var n := Count(t[1..], p);
      assert forall i :: 1 <= i < |t| ==> t[i] == t[1..][i - 1];
      (if p(t[0]) then 1 else 0) + n
  }

  /** Counting the rows that satisfy `p` is the length of their selection. */
  lemma {:induction false} CountIsFilterLength<R>(t: seq<Row<R>>, p: Row<R> -> bool)
    ensures Count(t, p) == |Filter(t, p)|
  {
    if t != [] {
      CountIsFilterLength(t[1..], p);
    }
  }

  /** `DELETE FROM t WHERE id = ?`. */
  function Without<R(==)>(t: seq<Row<R>>, id: nat): (u: seq<Row<R>>)
    ensures forall x :: x in u ==> x in t && x.id != id
    ensures forall x :: x in t && x.id != id ==> x in u
    ensures !HasId(u, id)
    ensures |u| <= |t|
  {
    var u := Filter(t, (x: Row<R>) => x.id != id);
    assert forall i :: 0 <= i < |u| ==> u[i] in u;
    u
  }

  /** Deleting a present key removes exactly one row. */
  lemma {:induction false} WithoutPresent<R>(t: seq<Row<R>>, k: nat)
    requires IdsIncreasing(t) && k < |t|
    ensures |Without(t, t[k].id)| == |t| - 1
  {
    var id := t[k].id;
    if k == 0 {
      assert forall i :: 1 <= i < |t| ==> t[i].id != id;
      WithoutAbsent(t[1..], id);
      assert Without(t, id) == Without(t[1..], id);
    } else {
      WithoutPresent(t[1..], k - 1);
      assert Without(t, id) == [t[0]] + Without(t[1..], id);
    }
  }

  /** Deleting a missing key is a no-op. */
  lemma {:induction false} WithoutAbsent<R>(t: seq<Row<R>>, id: nat)
    requires !HasId(t, id)
    ensures Without(t, id) == t
  {
    if t != [] {
      HasIdTail(t, id);
      WithoutAbsent(t[1..], id);
      assert Without(t, id) == [t[0]] + Without(t[1..], id);
    }
  }

  lemma WithoutKeyed<R>(t: seq<Row<R>>, last: nat, id: nat)
    requires Keyed(t, last)
    ensures Keyed(Without(t, id), last)
  {
  }

  /** Appending a row adds one to the count exactly when the row satisfies `p`. */
  lemma {:induction false} CountAppend<R>(t: seq<Row<R>>, x: Row<R>, p: Row<R> -> bool)
    ensures Count(t + [x], p) == Count(t, p) + (if p(x) then 1 else 0)
  {
    if t != [] {
      assert (t + [x])[1..] == t[1..] + [x];
      CountAppend(t[1..], x, p);
    }
  }
}
