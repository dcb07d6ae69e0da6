/**
 * A batch of adds to an empty recipe: when all of it is accepted, and why the
 * order of the requests does not matter.
 */
module Batch {
  import opened Kernel
  import opened Flash
  import opened Recipe

  function Adds(reqs: seq<Request>): (ops: seq<Op>)
    ensures |ops| == |reqs|
  {
    seq(|reqs|, i requires 0 <= i < |reqs| => AddPart(reqs[i], true))
  }

  function Stored(reqs: seq<Request>): (list: seq<Part>)
    ensures |list| == |reqs|
  {
    seq(|reqs|, i requires 0 <= i < |reqs| => ToPart(reqs[i]))
  }

  ghost predicate AllAccepted(g: Geometry, d: Device, reqs: seq<Request>) {
    forall out :: out in Outcomes(g, d, Adds(reqs)) ==> out == Ret(0)
  }

  predicate Compatible(a: Request, b: Request) {
    DisjointRanges(a.offset, a.length, b.offset, b.length)
  }

  predicate Whole(g: Geometry, req: Request) {
    WholeBlocks(g, req.offset, req.length)
  }

  ghost predicate FitsBeside(g: Geometry, list: seq<Part>, req: Request) {
    Whole(g, req) && forall i :: 0 <= i < |list| ==> Apart(list[i], req.offset, req.length)
  }

  /** Each request is valid on its own and beside the list, and no two overlap. */
  ghost predicate Acceptable(g: Geometry, list: seq<Part>, reqs: seq<Request>) {
    && (forall i :: 0 <= i < |reqs| ==> FitsBeside(g, list, reqs[i]))
    && (forall i, j :: 0 <= i < j < |reqs| ==> Compatible(reqs[i], reqs[j]))
  }

  lemma AcceptableStep(g: Geometry, list: seq<Part>, reqs: seq<Request>)
    requires reqs != []
    ensures Acceptable(g, list, reqs) <==>
            FitsBeside(g, list, reqs[0]) && Acceptable(g, list + [ToPart(reqs[0])], reqs[1..])
  {
    var list', rest := list + [ToPart(reqs[0])], reqs[1..];
    assert forall i :: 0 <= i < |rest| ==> rest[i] == reqs[i + 1];
    if Acceptable(g, list, reqs) {
      forall i | 0 <= i < |rest|
        ensures FitsBeside(g, list', rest[i])
      {
        assert Compatible(reqs[0], reqs[i + 1]);
        assert FitsBeside(g, list, reqs[i + 1]);
      }
    }
    if FitsBeside(g, list, reqs[0]) && Acceptable(g, list', rest) {
      forall i | 0 <= i < |reqs|
        ensures FitsBeside(g, list, reqs[i])
      {
        if i > 0 {
          assert FitsBeside(g, list', rest[i - 1]);
          assert forall k :: 0 <= k < |list| ==> list'[k] == list[k];
        }
      }
      forall i, j | 0 <= i < j < |reqs|
        ensures Compatible(reqs[i], reqs[j])
      {
        if i == 0 {
          assert FitsBeside(g, list', rest[j - 1]);
          assert list'[|list|] == ToPart(reqs[0]);
        } else {
          assert Compatible(rest[i - 1], rest[j - 1]);
        }
      }
    }
  }

  lemma AcceptedStep(g: Geometry, d: Device, reqs: seq<Request>)
    requires reqs != []
    ensures var (d', out) := Step(g, d, AddPart(reqs[0], true));
            && (AllAccepted(g, d, reqs) <==> out == Ret(0) && AllAccepted(g, d', reqs[1..]))
            && Run(g, d, Adds(reqs)) == Run(g, d', Adds(reqs[1..]))
  {
    var ops := Adds(reqs);
    var (d', out) := Step(g, d, ops[0]);
    assert ops[1..] == Adds(reqs[1..]);
    var rest := Outcomes(g, d', ops[1..]);
    var all := Outcomes(g, d, ops);
    assert ops[0] == AddPart(reqs[0], true);
    assert all == [out] + rest;
    assert all[0] == out && all[1..] == rest;
    if AllAccepted(g, d, reqs) {
      assert all[0] in all;
      assert forall i :: 0 <= i < |rest| ==> rest[i] == all[i + 1] && all[i + 1] in all;
    }
  }

  /** A batch is accepted in full exactly when it is acceptable, and then it is stored in order. */
  lemma {:induction false} BatchMeaning(g: Geometry, d: Device, reqs: seq<Request>)
    requires Valid(g, d.recipe)
    ensures AllAccepted(g, d, reqs) <==> Acceptable(g, d.recipe.list, reqs)
    ensures AllAccepted(g, d, reqs) ==> Run(g, d, Adds(reqs)).recipe.list == d.recipe.list + Stored(reqs)
    decreases |reqs|
  {
    if reqs == [] {
      assert d.recipe.list + Stored(reqs) == d.recipe.list;
    } else {
      var (d', out) := Step(g, d, AddPart(reqs[0], true));
      AcceptedStep(g, d, reqs);
      AddMeaning(g, d.recipe, reqs[0], true);
      AcceptableStep(g, d.recipe.list, reqs);
      BatchMeaning(g, d', reqs[1..]);
      StoredCons(d.recipe.list, reqs);
    }
  }

  lemma StoredCons(list: seq<Part>, reqs: seq<Request>)
    requires reqs != []
    ensures (list + [ToPart(reqs[0])]) + Stored(reqs[1..]) == list + Stored(reqs)
  {
    assert Stored(reqs) == [ToPart(reqs[0])] + Stored(reqs[1..]);
  }

  // ----- permutations -----

  lemma {:induction false} Repeated<T>(s: seq<T>, x: T)
    ensures multiset(s)[x] >= 2 <==> exists i, j :: 0 <= i < j < |s| && s[i] == x && s[j] == x
  {
    if s != [] {
      var rest := s[1..];
      assert s == [s[0]] + rest;
      assert forall i :: 0 <= i < |rest| ==> rest[i] == s[i + 1];
      Repeated(rest, x);
      if multiset(s)[x] >= 2 {
        if s[0] == x {
          assert x in multiset(rest);
          var j :| 0 <= j < |rest| && rest[j] == x;
          assert s[0] == x && s[j + 1] == x;
        } else {
          var i, j :| 0 <= i < j < |rest| && rest[i] == x && rest[j] == x;
          assert s[i + 1] == x && s[j + 1] == x;
        }
      }
      if i, j :| 0 <= i < j < |s| && s[i] == x && s[j] == x {
        assert rest[j - 1] == x && x in multiset(rest);
        if i > 0 {
          assert rest[i - 1] == x;
        }
      }
    }
  }

  /** Acceptability said without an order. */
  ghost predicate AcceptableBag(g: Geometry, bag: multiset<Request>) {
    && (forall x :: x in bag ==> Whole(g, x) && bag[x] == 1)
    && (forall x, y :: x in bag && y in bag && x != y ==> Compatible(x, y))
  }

  lemma OverlapsItself(g: Geometry, req: Request)
    requires Whole(g, req)
    ensures !Compatible(req, req)
  {
    GoodEnd(g, req.offset, req.length);
  }

  lemma AcceptableAsBag(g: Geometry, reqs: seq<Request>)
    ensures Acceptable(g, [], reqs) <==> AcceptableBag(g, multiset(reqs))
  {
    if Acceptable(g, [], reqs) {
      forall x | x in multiset(reqs)
        ensures Whole(g, x) && multiset(reqs)[x] == 1
      {
        var i :| 0 <= i < |reqs| && reqs[i] == x;
        assert FitsBeside(g, [], reqs[i]);
        Repeated(reqs, x);
        OverlapsItself(g, x);
      }
      forall x, y | x in multiset(reqs) && y in multiset(reqs) && x != y
        ensures Compatible(x, y)
      {
        var i :| 0 <= i < |reqs| && reqs[i] == x;
        var j :| 0 <= j < |reqs| && reqs[j] == y;
        assert if i < j then Compatible(reqs[i], reqs[j]) else Compatible(reqs[j], reqs[i]);
      }
    }
    if AcceptableBag(g, multiset(reqs)) {
      assert forall i :: 0 <= i < |reqs| ==> reqs[i] in multiset(reqs);
      forall i, j | 0 <= i < j < |reqs|
        ensures Compatible(reqs[i], reqs[j])
      {
        Repeated(reqs, reqs[i]);
      }
    }
  }

  lemma RemoveOne<T>(s: seq<T>, j: nat)
    requires j < |s|
    ensures multiset(s) == multiset(s[..j] + s[j + 1..]) + multiset{s[j]}
    ensures multiset(s[..j] + s[j + 1..]) == multiset(s) - multiset{s[j]}
  {
    assert s == s[..j] + [s[j]] + s[j + 1..];
  }

  lemma StoredRemove(s: seq<Request>, j: nat)
    requires j < |s|
    ensures multiset(Stored(s)) == multiset(Stored(s[..j] + s[j + 1..])) + multiset{ToPart(s[j])}
  {
    assert Stored(s[..j] + s[j + 1..]) == Stored(s)[..j] + Stored(s)[j + 1..];
    RemoveOne(Stored(s), j);
  }

  lemma {:induction false} StoredPermutes(a: seq<Request>, b: seq<Request>)
    requires multiset(a) == multiset(b)
    ensures multiset(Stored(a)) == multiset(Stored(b))
    decreases |a|
  {
    if a == [] {
      assert |multiset(b)| == 0;
    } else {
      assert a[0] in multiset(b);
      var j :| 0 <= j < |b| && b[j] == a[0];
      assert multiset(Stored(a[..0] + a[1..])) == multiset(Stored(b[..j] + b[j + 1..])) by {
        RemoveOne(a, 0);
        RemoveOne(b, j);
        StoredPermutes(a[..0] + a[1..], b[..j] + b[j + 1..]);
      }
      StoredRemove(a, 0);
      StoredRemove(b, j);
    }
  }

  /**
   * Order independence: two orders of one batch are both accepted in full or
   * both not, and when accepted the two lists are permutations of each other.
   */
  lemma OrderIndependence(g: Geometry, a: seq<Request>, b: seq<Request>)
    requires multiset(a) == multiset(b)
    ensures var d := Device(EMPTY, true);
            && (AllAccepted(g, d, a) <==> AllAccepted(g, d, b))
            && (AllAccepted(g, d, a) ==>
                  multiset(Run(g, d, Adds(a)).recipe.list) == multiset(Run(g, d, Adds(b)).recipe.list))
  {
    var d := Device(EMPTY, true);
    BatchMeaning(g, d, a);
    BatchMeaning(g, d, b);
    AcceptableAsBag(g, a);
    AcceptableAsBag(g, b);
    StoredPermutes(a, b);
    assert [] + Stored(a) == Stored(a) && [] + Stored(b) == Stored(b);
  }
}
