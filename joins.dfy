/** JOIN and LEFT JOIN as the reports use them: every left row paired with every
    right row the ON condition accepts, in left-then-right order; LEFT JOIN keeps a
    left row that no right row accepts, paired with NULL. */
module Joins {
  import opened Sql

  /** The pairs (a, b) for the rows b that the condition accepts, in order. */
  function Matches<A, B>(a: A, ys: seq<B>, on: (A, B) -> bool): seq<(A, B)> {
    if ys == [] then []
    else (if on(a, ys[0]) then [(a, ys[0])] else []) + Matches(a, ys[1..], on)
  }

  /** xs JOIN ys ON on. */
  function Join<A, B>(xs: seq<A>, ys: seq<B>, on: (A, B) -> bool): seq<(A, B)> {
    if xs == [] then [] else Matches(xs[0], ys, on) + Join(xs[1..], ys, on)
  }

  /** The pairs (a, Some(b)) for the rows b that the condition accepts. */
  function OptMatches<A, B>(a: A, ys: seq<B>, on: (A, B) -> bool): seq<(A, Option<B>)> {
    if ys == [] then []
    else (if on(a, ys[0]) then [(a, Some(ys[0]))] else []) + OptMatches(a, ys[1..], on)
  }

  /** The rows LEFT JOIN makes of one left row. */
  function LeftMatches<A, B>(a: A, ys: seq<B>, on: (A, B) -> bool): seq<(A, Option<B>)> {
    var m := OptMatches(a, ys, on);
    if m == [] then [(a, None)] else m
  }

  /** xs LEFT JOIN ys ON on. */
  function LeftJoin<A, B>(xs: seq<A>, ys: seq<B>, on: (A, B) -> bool): seq<(A, Option<B>)> {
    if xs == [] then [] else LeftMatches(xs[0], ys, on) + LeftJoin(xs[1..], ys, on)
  }

  function Left<A, B>(p: (A, B)): A { p.0 }

  // ---------------------------------------------------------------------------

  /** Every pair of a join is a pair of rows from its inputs that the condition accepts. */
  lemma {:induction false} MatchesSound<A, B>(a: A, ys: seq<B>, on: (A, B) -> bool)
    ensures forall p :: p in Matches(a, ys, on) ==> p.0 == a && p.1 in ys && on(a, p.1)
  {
    if ys != [] {
      MatchesSound(a, ys[1..], on);
    }
  }

  lemma {:induction false} JoinAppend<A, B>(xs1: seq<A>, xs2: seq<A>, ys: seq<B>, on: (A, B) -> bool)
    ensures Join(xs1 + xs2, ys, on) == Join(xs1, ys, on) + Join(xs2, ys, on)
  {
    if xs1 == [] {
      assert xs1 + xs2 == xs2;
    } else {
      assert (xs1 + xs2)[0] == xs1[0];
      assert (xs1 + xs2)[1..] == xs1[1..] + xs2;
      JoinAppend(xs1[1..], xs2, ys, on);
    }
  }

  lemma {:induction false} LeftJoinAppend<A, B>(xs1: seq<A>, xs2: seq<A>, ys: seq<B>, on: (A, B) -> bool)
    ensures LeftJoin(xs1 + xs2, ys, on) == LeftJoin(xs1, ys, on) + LeftJoin(xs2, ys, on)
  {
    if xs1 == [] {
      assert xs1 + xs2 == xs2;
    } else {
      assert (xs1 + xs2)[0] == xs1[0];
      assert (xs1 + xs2)[1..] == xs1[1..] + xs2;
      LeftJoinAppend(xs1[1..], xs2, ys, on);
    }
  }

  /** A left row no right row accepts contributes nothing to a join. */
  lemma {:induction false} MatchesNone<A, B>(a: A, ys: seq<B>, on: (A, B) -> bool)
    requires forall i :: 0 <= i < |ys| ==> !on(a, ys[i])
    ensures Matches(a, ys, on) == []
    ensures OptMatches(a, ys, on) == []
  {
    if ys != [] {
      assert forall i :: 0 <= i < |ys[1..]| ==> ys[1..][i] == ys[i + 1];
      MatchesNone(a, ys[1..], on);
    }
  }

  /** When the condition accepts exactly the right row at index k, the left row
      contributes exactly that pair. */
  lemma {:induction false} MatchesSingle<A, B>(a: A, ys: seq<B>, on: (A, B) -> bool, k: nat)
    requires k < |ys| && on(a, ys[k])
    requires forall i :: 0 <= i < |ys| && i != k ==> !on(a, ys[i])
    ensures Matches(a, ys, on) == [(a, ys[k])]
  {
    assert forall i :: 0 <= i < |ys[1..]| ==> ys[1..][i] == ys[i + 1];
    if k == 0 {
      MatchesNone(a, ys[1..], on);
    } else {
      MatchesSingle(a, ys[1..], on, k - 1);
    }
  }

  /** A join whose left rows all go unmatched is empty. */
  lemma {:induction false} JoinNone<A, B>(xs: seq<A>, ys: seq<B>, on: (A, B) -> bool)
    requires forall i, j :: 0 <= i < |xs| && 0 <= j < |ys| ==> !on(xs[i], ys[j])
    ensures Join(xs, ys, on) == []
  {
    if xs != [] {
      MatchesNone(xs[0], ys, on);
      assert forall i :: 0 <= i < |xs[1..]| ==> xs[1..][i] == xs[i + 1];
      JoinNone(xs[1..], ys, on);
    }
  }

  /** Every left row appears in the LEFT JOIN, and nothing else does. */
  lemma {:induction false} LeftJoinKeepsLeft<A, B>(xs: seq<A>, ys: seq<B>, on: (A, B) -> bool)
    ensures forall a :: a in xs <==> a in Column(LeftJoin(xs, ys, on), Left)
  {
    if xs != [] {
      var head := LeftMatches(xs[0], ys, on);
      var rest := LeftJoin(xs[1..], ys, on);
      LeftJoinKeepsLeft(xs[1..], ys, on);
      OptMatchesSound(xs[0], ys, on);
      assert head != [] && head[0].0 == xs[0];
      ColumnAppend(head, rest, Left);
      assert Column(head, Left)[0] == Left(head[0]);
      forall x | x in Column(head, Left) ensures x == xs[0] {
        var i :| 0 <= i < |head| && Column(head, Left)[i] == x;
        assert Left(head[i]) == x;
        assert head[i] in head;
      }
      assert xs == [xs[0]] + xs[1..];
    }
  }

  lemma {:induction false} OptMatchesSound<A, B>(a: A, ys: seq<B>, on: (A, B) -> bool)
    ensures forall p :: p in OptMatches(a, ys, on) ==> p.0 == a && p.1.Some? && p.1.value in ys && on(a, p.1.value)
    ensures forall p :: p in LeftMatches(a, ys, on) ==> p.0 == a
  {
    if ys != [] {
      OptMatchesSound(a, ys[1..], on);
    }
  }

  /** A join holds exactly the pairs of rows, one from each side, that the condition
      accepts. */
  lemma {:induction false} JoinPairs<A, B>(xs: seq<A>, ys: seq<B>, on: (A, B) -> bool)
    ensures forall p :: p in Join(xs, ys, on) ==> p.0 in xs && p.1 in ys && on(p.0, p.1)
    ensures forall i, j :: 0 <= i < |xs| && 0 <= j < |ys| && on(xs[i], ys[j]) ==> (xs[i], ys[j]) in Join(xs, ys, on)
  {
    if xs != [] {
      JoinPairs(xs[1..], ys, on);
      MatchesSound(xs[0], ys, on);
      MatchesComplete(xs[0], ys, on);
      assert forall i :: 1 <= i < |xs| ==> xs[i] == xs[1..][i - 1];
    }
  }

  lemma {:induction false} MatchesComplete<A, B>(a: A, ys: seq<B>, on: (A, B) -> bool)
    ensures forall j :: 0 <= j < |ys| && on(a, ys[j]) ==> (a, ys[j]) in Matches(a, ys, on)
  {
    if ys != [] {
      MatchesComplete(a, ys[1..], on);
      assert forall j :: 1 <= j < |ys| ==> ys[j] == ys[1..][j - 1];
    }
  }

  /** The join of a single left row is that row's matches. */
  lemma JoinOne<A, B>(a: A, ys: seq<B>, on: (A, B) -> bool)
    ensures Join([a], ys, on) == Matches(a, ys, on)
  {
    assert [a][1..] == [];
  }

  /** Appending a left row that the condition pairs with exactly the right row at
      index k appends exactly that pair to the join. */
  lemma JoinAppendSingle<A, B>(xs: seq<A>, x: A, ys: seq<B>, on: (A, B) -> bool, k: nat)
    requires k < |ys| && on(x, ys[k])
    requires forall i :: 0 <= i < |ys| && i != k ==> !on(x, ys[i])
    ensures Join(xs + [x], ys, on) == Join(xs, ys, on) + [(x, ys[k])]
  {
    JoinAppend(xs, [x], ys, on);
    JoinOne(x, ys, on);
    MatchesSingle(x, ys, on, k);
  }

  /** Appending a left row that the condition pairs with nothing leaves the join as
      it was. */
  lemma JoinAppendUnmatched<A, B>(xs: seq<A>, x: A, ys: seq<B>, on: (A, B) -> bool)
    requires forall i :: 0 <= i < |ys| ==> !on(x, ys[i])
    ensures Join(xs + [x], ys, on) == Join(xs, ys, on)
  {
    JoinAppend(xs, [x], ys, on);
    JoinOne(x, ys, on);
    MatchesNone(x, ys, on);
    assert Join(xs, ys, on) + [] == Join(xs, ys, on);
  }

  lemma {:induction false} OptMatchesComplete<A, B>(a: A, ys: seq<B>, on: (A, B) -> bool)
    ensures forall j :: 0 <= j < |ys| && on(a, ys[j]) ==> (a, Some(ys[j])) in OptMatches(a, ys, on)
  {
    if ys != [] {
      OptMatchesComplete(a, ys[1..], on);
      assert forall j :: 1 <= j < |ys| ==> ys[j] == ys[1..][j - 1];
    }
  }

  /** A LEFT JOIN row is a left row paired with NULL or with a right row the
      condition accepts, and every accepted pair is there. */
  lemma {:induction false} LeftJoinPairs<A, B>(xs: seq<A>, ys: seq<B>, on: (A, B) -> bool)
    ensures forall x :: x in LeftJoin(xs, ys, on) ==> x.0 in xs && (x.1.Some? ==> x.1.value in ys && on(x.0, x.1.value))
    ensures forall i, j :: 0 <= i < |xs| && 0 <= j < |ys| && on(xs[i], ys[j]) ==> (xs[i], Some(ys[j])) in LeftJoin(xs, ys, on)
  {
    if xs != [] {
      LeftJoinPairs(xs[1..], ys, on);
      OptMatchesSound(xs[0], ys, on);
      OptMatchesComplete(xs[0], ys, on);
      assert forall i :: 1 <= i < |xs| ==> xs[i] == xs[1..][i - 1];
    }
  }
}
