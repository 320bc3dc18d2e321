// `itemAncestor`, written the same way in the LanguaL importer and in the
// subset generator: a first-in-first-out walk up the `is_a` parent values of
// the stored terms, with a "tried" list, answering whether some term met on
// the way has a parent among the given ancestors.
module Ancestry {
  import opened Wrappers

  /** For every stored term (keyed by database id), the `value` of each of its
      `is_a` entries, in order: a parent's database id, or null. */
  type ParentGraph = map<string, seq<Option<string>>>

  predicate ParentAt(g: ParentGraph, n: string, j: int, p: string) {
    n in g && 0 <= j < |g[n]| && g[n][j] == Some(p)
  }

  /** Term n is stored and one of its parent values is in `ancestors`. */
  ghost predicate HasParentIn(g: ParentGraph, n: string, ancestors: set<string>) {
    exists j, p :: ParentAt(g, n, j, p) && p in ancestors
  }

  /** The walk may go from a stored term to one of its parents that is stored too. */
  ghost predicate Step(g: ParentGraph, a: string, b: string) {
    b in g && exists j :: ParentAt(g, a, j, b)
  }

  ghost predicate IsWalk(g: ParentGraph, w: seq<string>) {
    |w| >= 1 && forall i :: 0 <= i < |w| - 1 ==> Step(g, w[i], w[i + 1])
  }

  /** `to` is met by the walk that starts at `from` (`from` itself included). */
  ghost predicate Reachable(g: ParentGraph, from: string, to: string) {
    exists w :: IsWalk(g, w) && w[0] == from && w[|w| - 1] == to
  }

  lemma ReachableSelf(g: ParentGraph, n: string)
    ensures Reachable(g, n, n)
  {
    assert IsWalk(g, [n]);
  }

  lemma ReachableStep(g: ParentGraph, from: string, a: string, b: string)
    requires Reachable(g, from, a) && Step(g, a, b)
    ensures Reachable(g, from, b)
  {
    var w :| IsWalk(g, w) && w[0] == from && w[|w| - 1] == a;
    var w' := w + [b];
    assert forall i :: 0 <= i < |w'| - 1 ==> w'[i] == w[i] || i == |w| - 1;
    assert IsWalk(g, w');
  }

  /** A set that holds the start and is closed under steps holds every reachable term. */
  lemma {:induction false} ClosedHoldsReachable(g: ParentGraph, s: set<string>, from: string, to: string)
    requires from in s
    requires forall x, y :: x in s && Step(g, x, y) ==> y in s
    requires Reachable(g, from, to)
    ensures to in s
  {
    var w :| IsWalk(g, w) && w[0] == from && w[|w| - 1] == to;
    WalkInside(g, s, w, |w| - 1);
  }

  lemma {:induction false} WalkInside(g: ParentGraph, s: set<string>, w: seq<string>, i: nat)
    requires IsWalk(g, w) && w[0] in s && i < |w|
    requires forall x, y :: x in s && Step(g, x, y) ==> y in s
    ensures w[i] in s
  {
    if i > 0 {
      WalkInside(g, s, w, i - 1);
      assert Step(g, w[i - 1], w[i]);
    }
  }

  /** How many queued entries will be dropped without being expanded afresh:
      those already tried and those that are not stored terms. */
  function SettledCount(queue: seq<string>, tried: set<string>, g: ParentGraph): nat {
    if queue == [] then 0
    else
      var last := queue[|queue| - 1];
      SettledCount(queue[..|queue| - 1], tried, g) + (if last in tried || last !in g then 1 else 0)
  }

  lemma {:induction false} SettledCountFront(queue: seq<string>, tried: set<string>, g: ParentGraph)
    requires queue != []
    ensures SettledCount(queue, tried, g)
         == (if queue[0] in tried || queue[0] !in g then 1 else 0) + SettledCount(queue[1..], tried, g)
  {
    if |queue| > 1 {
      SettledCountFront(queue[..|queue| - 1], tried, g);
      assert queue[..|queue| - 1][1..] == queue[1..][..|queue| - 2];
    }
  }

  lemma {:induction false} SettledCountSame(queue: seq<string>, t1: set<string>, t2: set<string>, g: ParentGraph)
    requires forall x :: x in queue ==> ((x in t1 || x !in g) <==> (x in t2 || x !in g))
    ensures SettledCount(queue, t1, g) == SettledCount(queue, t2, g)
  {
    if queue != [] {
      SettledCountSame(queue[..|queue| - 1], t1, t2, g);
    }
  }

  /** `itemAncestor(item, ancestors)`. It stops on every parent graph, cyclic ones
      included, and answers whether some term reachable from `item` through stored
      parents has a parent value in `ancestors`. `item` being in `ancestors` does not
      count by itself; parents that are not stored are tested but not expanded. */
  method ItemAncestor(g: ParentGraph, item: string, ancestors: set<string>) returns (found: bool)
    ensures found <==> exists n :: Reachable(g, item, n) && HasParentIn(g, n, ancestors)
  {
    var stack := [item];
    var tried: seq<string> := [];
    ghost var triedSet: set<string> := {};
    ReachableSelf(g, item);
    while |stack| > 0
      invariant forall x :: x in tried <==> x in triedSet
      invariant forall x :: x in stack ==> Reachable(g, item, x)
      invariant forall x :: x in triedSet ==> Reachable(g, item, x)
      invariant item in stack || item in triedSet
      invariant forall x :: x in triedSet ==> !HasParentIn(g, x, ancestors)
      invariant forall x, y :: x in triedSet && Step(g, x, y) ==> y in triedSet || y in stack
      decreases g.Keys - triedSet, SettledCount(stack, triedSet, g)
    {
      ghost var queue0, tried0 := stack, triedSet;
      var id := stack[0];
      assert Reachable(g, item, id);
      stack := stack[1..];
      tried := tried + [id];
      triedSet := triedSet + {id};
      ghost var rest := stack;
      if id in g {
        var parents := g[id];
        for j := 0 to |parents|
          invariant forall x :: x in tried <==> x in triedSet
          invariant forall x :: x in stack ==> Reachable(g, item, x)
          invariant |rest| <= |stack| && stack[..|rest|] == rest
          invariant SettledCount(stack, triedSet, g) == SettledCount(rest, triedSet, g)
          invariant forall k :: 0 <= k < j && parents[k].Some? ==> parents[k].value !in ancestors
          invariant forall k :: 0 <= k < j && parents[k].Some? && parents[k].value in g ==>
                      parents[k].value in triedSet || parents[k].value in stack
        {
          match parents[j] {
            case Some(p) =>
              if p in ancestors {
                assert ParentAt(g, id, j, p);
                assert HasParentIn(g, id, ancestors) && Reachable(g, item, id);
                found := true;
                return;
              } else if p in g && p !in tried {
                assert ParentAt(g, id, j, p);
                ReachableStep(g, item, id, p);
                assert (stack + [p])[..|stack|] == stack;
                stack := stack + [p];
              }
            case None =>
          }
        }
        forall y | Step(g, id, y) ensures y in triedSet || y in stack {
          var k :| ParentAt(g, id, k, y);
        }
        if HasParentIn(g, id, ancestors) {
          var k, p :| ParentAt(g, id, k, p) && p in ancestors;
        }
      }
      forall x, y | x in triedSet && Step(g, x, y) ensures y in triedSet || y in stack {
        if x in tried0 && y !in triedSet {
          assert y in queue0 && y != id;
          assert y in rest;
          assert y in stack[..|rest|];
        }
      }
      if id in tried0 || id !in g {
        SettledCountFront(queue0, tried0, g);
        SettledCountSame(rest, tried0, triedSet, g);
      }
    }
    forall n | Reachable(g, item, n) ensures n in triedSet {
      ClosedHoldsReachable(g, triedSet, item, n);
    }
    found := false;
  }
}
