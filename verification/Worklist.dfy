/** Reachability over a successor function, and the breadth-first worklist that computes it. */
module Worklist {
  type Id = string

  // The packages to visit after a package, in order.
  type Successors = Id -> seq<Id>

  // A walk from a seed, each package depending on the one before.
  ghost predicate IsWalk(succ: Successors, seeds: set<Id>, walk: seq<Id>) {
    && walk != [] && walk[0] in seeds
    && forall i :: 0 < i < |walk| ==> walk[i] in succ(walk[i - 1])
  }

  ghost predicate Reachable(succ: Successors, seeds: set<Id>, id: Id) {
    exists walk :: IsWalk(succ, seeds, walk) && walk[|walk| - 1] == id
  }

  ghost predicate ClosedUnder(succ: Successors, s: set<Id>) {
    forall id, dep :: id in s && dep in succ(id) ==> dep in s
  }

  lemma {:induction false} SeedsReachable(succ: Successors, seeds: set<Id>, id: Id)
    requires id in seeds
    ensures Reachable(succ, seeds, id)
  {
    assert IsWalk(succ, seeds, [id]) && [id][|[id]| - 1] == id;
  }

  lemma {:induction false} StepReachable(succ: Successors, seeds: set<Id>, id: Id, dep: Id)
    requires Reachable(succ, seeds, id) && dep in succ(id)
    ensures Reachable(succ, seeds, dep)
  {
    var walk :| IsWalk(succ, seeds, walk) && walk[|walk| - 1] == id;
    var longer := walk + [dep];
    assert IsWalk(succ, seeds, longer) && longer[|longer| - 1] == dep;
  }

  // Any closed set around the seeds holds everything reachable.
  lemma {:induction false} WalkStaysInside(succ: Successors, seeds: set<Id>, s: set<Id>, walk: seq<Id>)
    requires seeds <= s && ClosedUnder(succ, s) && IsWalk(succ, seeds, walk)
    ensures walk[|walk| - 1] in s
  {
    if |walk| > 1 {
      WalkStaysInside(succ, seeds, s, walk[..|walk| - 1]);
    }
  }

  lemma {:induction false} ReachableIsLeast(succ: Successors, seeds: set<Id>, s: set<Id>, id: Id)
    requires seeds <= s && ClosedUnder(succ, s) && Reachable(succ, seeds, id)
    ensures id in s
  {
    var walk :| IsWalk(succ, seeds, walk) && walk[|walk| - 1] == id;
    WalkStaysInside(succ, seeds, s, walk);
  }

  // ---- The worklist ----

  ghost predicate NoDuplicates(s: seq<Id>) {
    forall i, j :: 0 <= i < j < |s| ==> s[i] != s[j]
  }

  // Ids only ever lead to ids of a finite universe.
  ghost predicate Bounded(succ: Successors, universe: set<Id>) {
    forall id, dep :: dep in succ(id) ==> dep in universe
  }

  ghost predicate AllReachable(succ: Successors, seeds: set<Id>, ids: set<Id>) {
    forall id :: id in ids ==> Reachable(succ, seeds, id)
  }

  function Members(s: seq<Id>): set<Id> {
    set id | id in s
  }

  // The first `done` ids have had their successors enqueued too.
  ghost predicate Expanded(succ: Successors, enqueued: seq<Id>, done: nat) {
    && done <= |enqueued|
    && forall i, dep :: 0 <= i < done && dep in succ(enqueued[i]) ==> dep in enqueued
  }

  // Everything enqueued so far was worth it, none of it twice, and what has left the queue
  // has been expanded.
  ghost predicate WorklistInv(succ: Successors, seeds: set<Id>, enqueued: seq<Id>, done: nat) {
    && NoDuplicates(enqueued)
    && seeds <= Members(enqueued)
    && AllReachable(succ, seeds, Members(enqueued))
    && Expanded(succ, enqueued, done)
  }

  // What the inner loop appends to the queue: the successors not affected yet, each once.
  function Added(deps: seq<Id>, affected: set<Id>): seq<Id> {
    if deps == [] then []
    else
      var before := Added(deps[..|deps| - 1], affected);
      var dep := deps[|deps| - 1];
      if dep in affected || dep in before then before else before + [dep]
  }

  lemma {:induction false} AddedIsNew(deps: seq<Id>, affected: set<Id>)
    ensures NoDuplicates(Added(deps, affected))
    ensures Members(Added(deps, affected)) == Members(deps) - affected
  {
    if deps == [] {
    } else {
      var n := |deps| - 1;
      var before := Added(deps[..n], affected);
      AddedIsNew(deps[..n], affected);
      MembersPlus(deps[..n], deps[n]);
      MembersPlus(before, deps[n]);
      assert deps == deps[..n] + [deps[n]];
      assert deps[n] in before <==> deps[n] in Members(before);
    }
  }

  lemma {:induction false} MembersPlus(s: seq<Id>, x: Id)
    ensures Members(s + [x]) == Members(s) + {x}
  {}

  lemma {:induction false} NoDuplicatesConcat(s: seq<Id>, t: seq<Id>)
    requires NoDuplicates(s) && NoDuplicates(t) && Members(s) !! Members(t)
    ensures NoDuplicates(s + t) && Members(s + t) == Members(s) + Members(t)
  {
    forall i, j | 0 <= i < j < |s + t| ensures (s + t)[i] != (s + t)[j] {
      if i < |s| <= j {
        assert s[i] in Members(s) && t[j - |s|] in Members(t);
      }
    }
  }

  // Expanding the next id in the queue keeps the invariant.
  lemma {:induction false} ExpandKeepsInv(succ: Successors, seeds: set<Id>, enqueued: seq<Id>, done: nat)
    requires WorklistInv(succ, seeds, enqueued, done) && done < |enqueued|
    ensures var added := Added(succ(enqueued[done]), Members(enqueued));
      && WorklistInv(succ, seeds, enqueued + added, done + 1)
      && Members(enqueued + added) == Members(enqueued) + Members(added)
      && Members(added) <= Members(succ(enqueued[done]))
  {
    var cur := enqueued[done];
    var added := Added(succ(cur), Members(enqueued));
    AddedIsNew(succ(cur), Members(enqueued));
    NoDuplicatesConcat(enqueued, added);
    assert cur in Members(enqueued);
    forall id | id in Members(enqueued + added) ensures Reachable(succ, seeds, id) {
      if id in Members(added) {
        StepReachable(succ, seeds, cur, id);
      }
    }
    ExpandedGrows(succ, enqueued, added, done);
  }

  lemma {:induction false} ExpandedGrows(succ: Successors, enqueued: seq<Id>, added: seq<Id>, done: nat)
    requires Expanded(succ, enqueued, done) && done < |enqueued|
    requires Members(succ(enqueued[done])) <= Members(enqueued) + Members(added)
    ensures Expanded(succ, enqueued + added, done + 1)
  {
    var more := enqueued + added;
    forall i, dep | 0 <= i < done + 1 && dep in succ(more[i]) ensures dep in more {
      if i < done {
        assert dep in succ(enqueued[i]);
      } else {
        assert dep in Members(succ(enqueued[done]));
      }
    }
  }

  // The breadth-first walk. `enqueued` records everything that was ever in the queue.
  method Spread(succ: Successors, ghost universe: set<Id>, ghost seeds: set<Id>, start: set<Id>, startQueue: seq<Id>)
    returns (affected: set<Id>, ghost enqueued: seq<Id>)
    requires Bounded(succ, universe)
    requires start == Members(startQueue) == seeds && NoDuplicates(startQueue)
    ensures forall id :: id in affected <==> Reachable(succ, seeds, id)
    ensures ClosedUnder(succ, affected)
    ensures NoDuplicates(enqueued) && Members(enqueued) == affected
  {
    affected := start;
    enqueued := startQueue;
    var queue := startQueue;
    ghost var done := 0;
    StartInv(succ, seeds, startQueue);
    while queue != []
      invariant done <= |enqueued| && queue == enqueued[done..]
      invariant affected == Members(enqueued) && WorklistInv(succ, seeds, enqueued, done)
      decreases universe - affected, |queue|
    {
      var cur := queue[0];
      queue := queue[1..];
      affected, queue, enqueued := Visit(succ, universe, seeds, cur, affected, queue, enqueued, done);
      done := done + 1;
    }
    WorklistDone(succ, seeds, enqueued);
  }

  // One round: the dependents of `cur`, which has just left the queue.
  method Visit(succ: Successors, ghost universe: set<Id>, ghost seeds: set<Id>, cur: Id,
               affected0: set<Id>, queue0: seq<Id>, ghost enqueued0: seq<Id>, ghost done: nat)
    returns (affected: set<Id>, queue: seq<Id>, ghost enqueued: seq<Id>)
    requires Bounded(succ, universe) && affected0 == Members(enqueued0)
    requires WorklistInv(succ, seeds, enqueued0, done) && done < |enqueued0|
    requires cur == enqueued0[done] && queue0 == enqueued0[done + 1..]
    ensures done + 1 <= |enqueued| && queue == enqueued[done + 1..]
    ensures affected == Members(enqueued) && WorklistInv(succ, seeds, enqueued, done + 1)
    ensures queue == queue0 || universe - affected < universe - affected0
    ensures affected0 <= affected
  {
    enqueued := VisitStep(succ, universe, seeds, enqueued0, done);
    affected, queue := EnqueueNew(succ(cur), affected0, queue0);
  }

  lemma {:induction false} VisitStep(succ: Successors, universe: set<Id>, seeds: set<Id>, enqueued: seq<Id>, done: nat)
    returns (more: seq<Id>)
    requires Bounded(succ, universe) && WorklistInv(succ, seeds, enqueued, done) && done < |enqueued|
    ensures WorklistInv(succ, seeds, more, done + 1) && done + 1 <= |more|
    ensures var added := Added(succ(enqueued[done]), Members(enqueued));
      && more[done + 1..] == enqueued[done + 1..] + added
      && Members(more) == Members(enqueued) + Members(added)
      && (added == [] || universe - Members(more) < universe - Members(enqueued))
  {
    var added := Added(succ(enqueued[done]), Members(enqueued));
    more := enqueued + added;
    ExpandKeepsInv(succ, seeds, enqueued, done);
    Progress(succ, universe, enqueued[done], Members(enqueued), added);
  }

  lemma {:induction false} StartInv(succ: Successors, seeds: set<Id>, queue: seq<Id>)
    requires Members(queue) == seeds && NoDuplicates(queue)
    ensures WorklistInv(succ, seeds, queue, 0)
  {
    forall id | id in seeds ensures Reachable(succ, seeds, id) {
      SeedsReachable(succ, seeds, id);
    }
  }

  // Either something new is affected, or the queue got shorter.
  lemma {:induction false} Progress(succ: Successors, universe: set<Id>, cur: Id, affected: set<Id>, added: seq<Id>)
    requires Bounded(succ, universe) && added == Added(succ(cur), affected)
    ensures added == [] || universe - (affected + Members(added)) < universe - affected
  {
    AddedIsNew(succ(cur), affected);
    if added != [] {
      assert added[0] in Members(added) && added[0] in Members(succ(cur));
      assert added[0] in universe - affected;
    }
  }

  // With the queue empty, the ids enqueued are the reachable ones: the least closed set.
  lemma {:induction false} WorklistDone(succ: Successors, seeds: set<Id>, enqueued: seq<Id>)
    requires WorklistInv(succ, seeds, enqueued, |enqueued|)
    ensures ClosedUnder(succ, Members(enqueued))
    ensures forall id :: id in Members(enqueued) <==> Reachable(succ, seeds, id)
  {
    forall id, dep | id in Members(enqueued) && dep in succ(id) ensures dep in Members(enqueued) {
      var i :| 0 <= i < |enqueued| && enqueued[i] == id;
      assert dep in enqueued;
    }
    forall id | Reachable(succ, seeds, id) ensures id in Members(enqueued) {
      ReachableIsLeast(succ, seeds, Members(enqueued), id);
    }
  }

  // The inner loop over the dependents of one package.
  method EnqueueNew(deps: seq<Id>, affected0: set<Id>, queue0: seq<Id>)
    returns (affected: set<Id>, queue: seq<Id>)
    ensures affected == affected0 + Members(Added(deps, affected0))
    ensures queue == queue0 + Added(deps, affected0)
  {
    affected, queue := affected0, queue0;
    for i := 0 to |deps|
      invariant affected == affected0 + Members(Added(deps[..i], affected0))
      invariant queue == queue0 + Added(deps[..i], affected0)
    {
      var dep := deps[i];
      assert deps[..i + 1][..i] == deps[..i];
      if dep !in affected {
        affected := affected + {dep};
        queue := queue + [dep];
      }
    }
    assert deps[..|deps|] == deps;
  }
}
