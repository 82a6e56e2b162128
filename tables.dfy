/**
 * The row operations behind `findByPk`/`findOne`, `instance.update` and `instance.destroy`
 * on an in-memory table: a sequence of rows in insertion order, keyed by `idOf`.
 */
module Tables {
  import opened Wrappers

  /** No two rows share a key. */
  predicate UniqueIds<T, K(==)>(rows: seq<T>, idOf: T -> K) {
    forall i, j :: 0 <= i < j < |rows| ==> idOf(rows[i]) != idOf(rows[j])
  }

  /** Whether some row has key `id`. */
  predicate HasId<T, K(==)>(rows: seq<T>, id: K, idOf: T -> K) {
    exists k :: 0 <= k < |rows| && idOf(rows[k]) == id
  }

  lemma HasIdCons<T, K>(rows: seq<T>, id: K, idOf: T -> K)
    requires rows != []
    ensures HasId(rows, id, idOf) <==> idOf(rows[0]) == id || HasId(rows[1..], id, idOf)
  {
    if HasId(rows, id, idOf) && idOf(rows[0]) != id {
      var k :| 0 <= k < |rows| && idOf(rows[k]) == id;
      assert rows[1..][k - 1] == rows[k];
    }
    if HasId(rows[1..], id, idOf) {
      var k :| 0 <= k < |rows[1..]| && idOf(rows[1..][k]) == id;
      assert rows[k + 1] == rows[1..][k];
    }
  }

  /** The first row with key `id` (`findByPk`, or `findOne` on a non-key column). */
  function Lookup<T, K(==)>(rows: seq<T>, id: K, idOf: T -> K): (r: Option<T>)
    ensures r.None? <==> !HasId(rows, id, idOf)
    ensures r.Some? ==> r.value in rows && idOf(r.value) == id
  {
    if rows == [] then None
    else
      HasIdCons(rows, id, idOf);
      if idOf(rows[0]) == id then Some(rows[0]) else Lookup(rows[1..], id, idOf)
  }

  /** With unique keys, the row found is the one at any index holding that key. */
  lemma {:induction false} LookupUnique<T, K>(rows: seq<T>, id: K, idOf: T -> K, k: nat)
    requires UniqueIds(rows, idOf) && k < |rows| && idOf(rows[k]) == id
    ensures Lookup(rows, id, idOf) == Some(rows[k])
  {
    if k > 0 {
      var tail := rows[1..];
      assert tail[k - 1] == rows[k];
      assert UniqueIds(tail, idOf) by {
        forall i, j | 0 <= i < j < |tail| ensures idOf(tail[i]) != idOf(tail[j]) {
          assert tail[i] == rows[i + 1] && tail[j] == rows[j + 1];
        }
      }
      LookupUnique(tail, id, idOf, k - 1);
    }
  }

  /** Every row with key `id` becomes `value`; the others and the order stay. */
  function Replace<T, K(==)>(rows: seq<T>, id: K, idOf: T -> K, value: T): (r: seq<T>)
    ensures |r| == |rows|
    ensures forall k :: 0 <= k < |rows| ==> r[k] == if idOf(rows[k]) == id then value else rows[k]
  {
    seq(|rows|, k requires 0 <= k < |rows| => if idOf(rows[k]) == id then value else rows[k])
  }

  /** Replacing a row by one with the same key keeps the keys unique. */
  lemma ReplaceKeepsUnique<T, K>(rows: seq<T>, id: K, idOf: T -> K, value: T)
    requires UniqueIds(rows, idOf) && idOf(value) == id
    ensures UniqueIds(Replace(rows, id, idOf, value), idOf)
  {
    var r := Replace(rows, id, idOf, value);
    forall i, j | 0 <= i < j < |r| ensures idOf(r[i]) != idOf(r[j]) {
      assert idOf(r[i]) == idOf(rows[i]) && idOf(r[j]) == idOf(rows[j]);
    }
  }

  /** The rows without key `id`, in their order (`destroy`, and `destroy({where})` on that column). */
  function Remove<T(!new), K(==)>(rows: seq<T>, id: K, idOf: T -> K): (r: seq<T>)
    ensures |r| <= |rows|
    ensures forall x :: x in r <==> x in rows && idOf(x) != id
    ensures !HasId(r, id, idOf)
    ensures !HasId(rows, id, idOf) ==> r == rows
  {
    if rows == [] then []
    else
      var rest := Remove(rows[1..], id, idOf);
      assert rows == [rows[0]] + rows[1..];
      HasIdCons(rows, id, idOf);
      if idOf(rows[0]) == id then rest
      else
        HasIdCons([rows[0]] + rest, id, idOf);
        assert ([rows[0]] + rest)[1..] == rest;
        [rows[0]] + rest
  }

  lemma TailUnique<T(!new), K>(rows: seq<T>, idOf: T -> K)
    requires UniqueIds(rows, idOf) && rows != []
    ensures UniqueIds(rows[1..], idOf)
    ensures forall x :: x in rows[1..] ==> idOf(x) != idOf(rows[0])
  {
    var tail := rows[1..];
    forall i, j | 0 <= i < j < |tail| ensures idOf(tail[i]) != idOf(tail[j]) {
      assert tail[i] == rows[i + 1] && tail[j] == rows[j + 1];
    }
    forall x | x in tail ensures idOf(x) != idOf(rows[0]) {
      var k :| 0 <= k < |tail| && tail[k] == x;
      assert rows[k + 1] == x;
    }
  }

  /** Removing rows keeps the remaining keys unique. */
  lemma {:induction false} RemoveKeepsUnique<T(!new), K>(rows: seq<T>, id: K, idOf: T -> K)
    requires UniqueIds(rows, idOf)
    ensures UniqueIds(Remove(rows, id, idOf), idOf)
  {
    if rows != [] {
      TailUnique(rows, idOf);
      RemoveKeepsUnique(rows[1..], id, idOf);
      var rest := Remove(rows[1..], id, idOf);
      if idOf(rows[0]) != id {
        var r := [rows[0]] + rest;
        forall i, j | 0 <= i < j < |r| ensures idOf(r[i]) != idOf(r[j]) {
          assert r[j] == rest[j - 1];
          if i > 0 {
            assert r[i] == rest[i - 1];
          }
        }
      }
    }
  }

  /** With unique keys, removing a key that is there removes exactly one row. */
  lemma {:induction false} RemoveOne<T(!new), K>(rows: seq<T>, id: K, idOf: T -> K)
    requires UniqueIds(rows, idOf) && HasId(rows, id, idOf)
    ensures |Remove(rows, id, idOf)| == |rows| - 1
  {
    TailUnique(rows, idOf);
    HasIdCons(rows, id, idOf);
    if idOf(rows[0]) != id {
      RemoveOne(rows[1..], id, idOf);
    }
  }

  /** Appending a row under a key not yet used keeps the keys unique. */
  lemma AppendFreshUnique<T, K>(rows: seq<T>, x: T, idOf: T -> K)
    requires UniqueIds(rows, idOf) && !HasId(rows, idOf(x), idOf)
    ensures UniqueIds(rows + [x], idOf)
  {
    var r := rows + [x];
    forall i, j | 0 <= i < j < |r| ensures idOf(r[i]) != idOf(r[j]) {
      if j == |rows| {
        assert r[i] == rows[i];
      } else {
        assert r[i] == rows[i] && r[j] == rows[j];
      }
    }
  }
}
