/** Tables as sequences of rows, and what filter_by(episode_id=...).delete() does to them. */
module Rows {
  function Without<R, E(==)>(rows: seq<R>, of: R -> E, e: E): seq<R> {
    if rows == [] then [] else (if of(rows[0]) == e then [] else [rows[0]]) + Without(rows[1..], of, e)
  }

  function Of<R, E(==)>(rows: seq<R>, of: R -> E, e: E): seq<R> {
    if rows == [] then [] else (if of(rows[0]) == e then [rows[0]] else []) + Of(rows[1..], of, e)
  }

  lemma {:induction false} OfWithout<R, E>(rows: seq<R>, of: R -> E, e: E, f: E)
    ensures Of(Without(rows, of, e), of, f) == if e == f then [] else Of(rows, of, f)
  {
    if rows != [] {
      OfWithout(rows[1..], of, e, f);
      var rest := Without(rows[1..], of, e);
      assert ([rows[0]] + rest)[1..] == rest;
      assert [] + rest == rest;
    }
  }

  lemma {:induction false} OfConcat<R, E>(a: seq<R>, b: seq<R>, of: R -> E, e: E)
    ensures Of(a + b, of, e) == Of(a, of, e) + Of(b, of, e)
  {
    if a == [] {
      assert a + b == b;
    } else {
      assert (a + b)[1..] == a[1..] + b;
      OfConcat(a[1..], b, of, e);
    }
  }

  lemma {:induction false} OfAll<R, E>(rows: seq<R>, of: R -> E, e: E, f: E)
    requires forall i :: 0 <= i < |rows| ==> of(rows[i]) == e
    ensures Of(rows, of, f) == if e == f then rows else []
  {
    if rows != [] {
      assert forall i :: 0 <= i < |rows[1..]| ==> rows[1..][i] == rows[i + 1];
      OfAll(rows[1..], of, e, f);
      assert rows == [rows[0]] + rows[1..];
    }
  }

  lemma {:induction false} OfMeans<R, E>(rows: seq<R>, of: R -> E, e: E, r: R)
    ensures r in Of(rows, of, e) <==> r in rows && of(r) == e
  {
    if rows != [] {
      OfMeans(rows[1..], of, e, r);
      assert rows == [rows[0]] + rows[1..];
    }
  }

  /** The last of an episode's rows is the last row that is the episode's. */
  lemma {:induction false} LastOf<R, E>(rows: seq<R>, of: R -> E, e: E) returns (i: nat)
    requires Of(rows, of, e) != []
    ensures i < |rows| && of(rows[i]) == e && rows[i] == Of(rows, of, e)[|Of(rows, of, e)| - 1]
    ensures forall j :: i < j < |rows| ==> of(rows[j]) != e
  {
    var rest := rows[1..];
    if Of(rest, of, e) != [] {
      i := LastOf(rest, of, e);
      i := i + 1;
      assert forall j :: i < j < |rows| ==> rows[j] == rest[j - 1];
    } else {
      i := 0;
      forall j | 0 < j < |rows| ensures of(rows[j]) != e {
        OfMeans(rest, of, e, rows[j]);
        assert rest[j - 1] == rows[j];
      }
    }
  }

  /** Deleting an episode's rows and adding new ones of its own replaces them, and touches
      nobody else's. */
  lemma ReplacesOnlyItsOwn<R, E>(rows: seq<R>, added: seq<R>, of: R -> E, e: E, f: E)
    requires forall i :: 0 <= i < |added| ==> of(added[i]) == e
    ensures Of(Without(rows, of, e) + added, of, f) == if e == f then added else Of(rows, of, f)
  {
    OfConcat(Without(rows, of, e), added, of, f);
    OfWithout(rows, of, e, f);
    OfAll(added, of, e, f);
  }

  lemma {:induction false} WithoutMeans<R, E>(rows: seq<R>, of: R -> E, e: E, r: R)
    ensures r in Without(rows, of, e) <==> r in rows && of(r) != e
  {
    if rows != [] {
      WithoutMeans(rows[1..], of, e, r);
      assert rows == [rows[0]] + rows[1..];
    }
  }
}
