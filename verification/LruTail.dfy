/** lru_pull_tail in place, and what it is for the other threads: a run of the LRU
machine on items whose locks it has. */
module LruTail {
  import opened Basics
  import opened LruList
  import opened LruState
  import opened LruWorld
  import opened LruMachine
  import opened LruRuns
  import opened Lru
  import opened LruPull
  import opened LruWalk

  /** The part under the list lock: up from the tail, at most five tries. */
  method PullWalk(c: Cache, p: Pull) returns (removed: nat, stop: Option<Act>, ghost trail: seq<Spot>, ghost r: Outcome)
    requires p.Valid() && 0 < p.origId && c.Valid() && LocksTaken(p, c.m)
    modifies c
    ensures c.Valid() && Walk(p, old(c.m), trail, r) && r.m == c.m
    ensures removed == Report(r) && stop == r.stop && (stop.Some? ==> LeftAt(p, c.m, stop.value) && Stops(stop.value))
  {
    hide Inv, Took, Sofar, Walk, Advance, Ends, Choose, LeftAt, Removed;
    ghost var m0 := c.m;
    FirstSofar(p, m0);
    ListDistinct(m0, p.Id());
    ghost var x := First(p, m0);
    trail := [x];
    TailIs(m0, p.Id());
    removed := 0;
    NothingRemoved();
    var tries := 5;
    var search := c.s.tails[p.Id()];
    while tries > 0 && search != NULL
      invariant c.Valid() && Sofar(p, m0, x) && x == Spot(c.m, search, tries, x.n, x.acts)
      invariant Trail(p, m0, trail) && trail[|trail| - 1] == x && removed == Removed(x.acts)
      decreases x.n
    {
      AtPlace(p, m0, x);
      TailIs(c.m, p.Id());
      var next := c.s.prev[search];
      if IsCrawler(search) {
        if p.crawlBlocks {
          r := Outcome(c.m, x.acts, None, true);
          EndsBlocked(p, x, r);
          TrailEnds(p, m0, trail, r);
          return 0, None, trail, r;
        }
        ghost var y := x.(at := next, n := if x.n > 0 then x.n - 1 else 0);
        PassCrawler(p, x, y);
        AdvanceSofar(p, m0, x, y);
        TrailSnoc(p, m0, trail, y);
        trail, x := trail + [y], y;
        search := next;
        continue;
      }
      if !p.canLock(search) {
        ghost var y := x.(at := next, tries := x.tries - 1, n := if x.n > 0 then x.n - 1 else 0);
        PassLocked(p, x, y);
        AdvanceSofar(p, m0, x, y);
        TrailSnoc(p, m0, trail, y);
        trail, x := trail + [y], y;
      } else {
        var act := DoAct(c, p, search);
        RemovedSnoc(x.acts, act);
        if Stops(act) {
          r := Outcome(c.m, x.acts + [act], Some(act), false);
          EndsStopped(p, x, r, act);
          TrailEnds(p, m0, trail, r);
          if !act.Stay? {
            removed := removed + 1;
          }
          return removed, Some(act), trail, r;
        }
        removed := removed + 1;
        ghost var y := Spot(c.m, next, x.tries - 1, if x.n > 0 then x.n - 1 else 0, x.acts + [act]);
        PassActed(p, x, y, act);
        AdvanceSofar(p, m0, x, y);
        TrailSnoc(p, m0, trail, y);
        trail, x := trail + [y], y;
      }
      search := next;
      tries := tries - 1;
    }
    r := Outcome(c.m, x.acts, None, false);
    EndsOut(p, x, r);
    TrailEnds(p, m0, trail, r);
    stop := None;
  }

  lemma NothingRemoved()
    ensures Removed([]) == 0
  {}

  /** The turns of the loop so far. */
  ghost predicate Trail(p: Pull, m: Sys, trail: seq<Spot>) {
    && trail != [] && p.Id() < |m.w.lists| && trail[0] == First(p, m)
    && forall k {:trigger trail[k]} :: 0 < k < |trail| ==> Advance(p, trail[k - 1], trail[k])
  }

  lemma TrailSnoc(p: Pull, m: Sys, trail: seq<Spot>, y: Spot)
    requires Trail(p, m, trail) && Advance(p, trail[|trail| - 1], y)
    ensures Trail(p, m, trail + [y])
  {
    hide Advance, First;
    var t := trail + [y];
    forall k {:trigger t[k]} | 0 < k < |t| ensures Advance(p, t[k - 1], t[k]) {
      if k < |trail| { assert trail[k] == t[k] && trail[k - 1] == t[k - 1]; }
    }
  }

  lemma TrailEnds(p: Pull, m: Sys, trail: seq<Spot>, r: Outcome)
    requires Trail(p, m, trail) && Ends(p, trail[|trail| - 1], r)
    ensures Walk(p, m, trail, r)
  {
    hide Advance, First, Ends;
  }

  lemma TailIs(m: Sys, id: nat)
    requires Inv(m) && id < CLASSES
    ensures m.w.s.Shaped() && |m.w.lists| == CLASSES && m.w.s.tails[id] == Last(m.w.lists[id])
    ensures forall a :: a in m.w.lists[id] ==> a in m.w.s.prev && m.w.s.prev[a] == Before(m.w.lists[id], a)
  {
    TailAndBefore(m.w, id, Odd(m.busy));
  }

  lemma EndsBlocked(p: Pull, x: Spot, r: Outcome)
    requires x.tries > 0 && x.at != NULL && IsCrawler(x.at) && p.crawlBlocks && r == Outcome(x.m, x.acts, None, true)
    ensures Ends(p, x, r)
  {}

  lemma EndsOut(p: Pull, x: Spot, r: Outcome)
    requires (x.tries == 0 || x.at == NULL) && r == Outcome(x.m, x.acts, None, false)
    ensures Ends(p, x, r)
  {}

  lemma EndsStopped(p: Pull, x: Spot, r: Outcome, act: Act)
    requires x.tries > 0 && x.at != NULL && !IsCrawler(x.at) && Locks(p, x) && act == Choose(x.m.w, p, x.at)
    requires Stops(act)
    requires Took(x.m, ActSteps(x.m.w, p, act), r.m) && r == Outcome(r.m, x.acts + [act], Some(act), false)
    ensures Ends(p, x, r)
  {
    hide Took, Choose;
  }

  lemma PassCrawler(p: Pull, x: Spot, y: Spot)
    requires Going(p, x) && IsCrawler(x.at) && !p.crawlBlocks
    requires y == x.(at := Before(x.m.w.lists[p.Id()], x.at), n := if x.n > 0 then x.n - 1 else 0)
    ensures Advance(p, x, y)
  {}

  lemma PassLocked(p: Pull, x: Spot, y: Spot)
    requires Going(p, x) && !IsCrawler(x.at) && !p.canLock(x.at)
    requires y == x.(at := Before(x.m.w.lists[p.Id()], x.at), tries := x.tries - 1, n := if x.n > 0 then x.n - 1 else 0)
    ensures Advance(p, x, y)
  {}

  lemma PassActed(p: Pull, x: Spot, y: Spot, act: Act)
    requires Locks(p, x) && act == Choose(x.m.w, p, x.at) && !Stops(act) && Took(x.m, ActSteps(x.m.w, p, act), y.m)
    requires y == Spot(y.m, Before(x.m.w.lists[p.Id()], x.at), x.tries - 1, if x.n > 0 then x.n - 1 else 0,
        x.acts + [act])
    ensures Advance(p, x, y)
  {
    hide Took, Choose, Before;
  }

  /** What is left to do after the list lock, with the item lock still held:
  whatever other threads have done to other items meanwhile. */
  method PullFinish(c: Cache, p: Pull, act: Act)
    requires p.Valid() && c.Valid() && Stops(act) && LeftAt(p, c.m, act)
    requires act.Send? ==> act.id < CLASSES && SlabClass(act.id) == SlabClass(p.Id())
    modifies c
    ensures c.Valid() && Took(old(c.m), FinishSteps(p, act), c.m)
  {
    hide Inv, Took, Enabled, Apply, HasHolder;
    ghost var m0 := c.m;
    TookNil(m0);
    ghost var steps: seq<Step> := [];
    if act.Send? {
      On(c, act.a, act.id, m0, []);
      steps := [] + [LruMachine.MoveOn(act.a, act.id, false)];
    }
    assert steps == if act.Send? then [LruMachine.MoveOn(act.a, act.id, false)] else [];
    if !p.returnItem {
      Release(c, act.a, m0, steps);
    } else {
      assert steps + [] == steps;
    }
  }

  lemma TookNil(m: Sys)
    ensures Took(m, [], m)
  {}

  /** lru_pull_tail. */
  method PullTail(c: Cache, p: Pull) returns (removed: nat, ret: Addr, ghost trail: seq<Spot>, ghost r: Outcome)
    requires p.Valid() && c.Valid() && LocksTaken(p, c.m)
    modifies c
    ensures c.Valid()
    ensures p.origId == 0 ==> c.m == old(c.m) && removed == 0 && ret == NULL
    ensures p.origId > 0 ==> Pulling(p, old(c.m), trail, r, c.m) && removed == Report(r) && ret == Returned(p, r)
  {
    hide Inv, Took, Walk, LeftAt;
    r := Outcome(c.m, [], None, false);
    trail := [];
    if p.origId == 0 {
      return 0, NULL, trail, r;
    }
    ghost var m0 := c.m;
    var stop;
    removed, stop, trail, r := PullWalk(c, p);
    ret := NULL;
    if stop.Some? {
      if p.segment == COLD && !p.evict && p.returnItem {
        ret := stop.value.a;
      }
      if stop.value.Send? { SendTarget(p, m0, trail, r); }
      PullFinish(c, p, stop.value);
    }
  }

  lemma SendTarget(p: Pull, m: Sys, trail: seq<Spot>, r: Outcome)
    requires p.Valid() && Walk(p, m, trail, r) && r.stop.Some? && r.stop.value.Send?
    ensures r.stop.value.id < CLASSES && SlabClass(r.stop.value.id) == SlabClass(p.Id())
  {
    hide Took, Advance, Choose, ActSteps;
    var x := trail[|trail| - 1];
    ChooseTarget(x.m.w, p, r.stop.value);
  }

  /** Between the two parts other threads go on, with other items: what the second
  part relies on stays. */
  lemma OthersLeave(p: Pull, m: Sys, step: Step, act: Act)
    requires Inv(m) && Enabled(m, step) && Stops(act) && LeftAt(p, m, act) && Subject(m, step) != Some(act.a)
    ensures LeftAt(p, Apply(m, step), act)
  {
    hide Inv, Apply, Enabled;
    OthersKeepStage(m, step, act.a);
    OthersKeepItem(m, step, act.a);
  }

  /** A step on the items whose locks the call has. */
  predicate OnLocked(p: Pull, step: Step) {
    && (step.Incref? || step.Decref? || step.Mark? || step.UnlinkFlag? || step.UnlinkList? || step.UnlinkDrop? ||
        step.MoveOff? || step.MoveOn?)
    && p.canLock(step.a)
  }

  predicate AllLocked(p: Pull, steps: seq<Step>) {
    forall i :: 0 <= i < |steps| ==> OnLocked(p, steps[i])
  }

  lemma {:induction false} TrailIsRun(p: Pull, m: Sys, trail: seq<Spot>, r: Outcome, k: nat) returns (steps: seq<Step>)
    requires Walk(p, m, trail, r) && k < |trail|
    ensures Took(m, steps, trail[k].m) && AllLocked(p, steps)
  {
    hide Took, Advance, Ends;
    if k == 0 {
      TookNil(m);
      return [];
    }
    var before := TrailIsRun(p, m, trail, r, k - 1);
    var x, y := trail[k - 1], trail[k];
    assert trail[k] == y && Advance(p, x, y);
    AdvanceRun(p, x, y);
    if y.m == x.m { return before; }
    var act := Choose(x.m.w, p, x.at);
    ActLocked(x.m.w, p, act);
    TookConcat(m, before, x.m, ActSteps(x.m.w, p, act), y.m);
    LockedConcat(p, before, ActSteps(x.m.w, p, act));
    steps := before + ActSteps(x.m.w, p, act);
  }

  lemma AdvanceRun(p: Pull, x: Spot, y: Spot)
    requires Advance(p, x, y)
    ensures y.m == x.m || (Locks(p, x) && Took(x.m, ActSteps(x.m.w, p, Choose(x.m.w, p, x.at)), y.m))
  {
    hide Took;
  }

  lemma ActLocked(w: World, p: Pull, act: Act)
    requires act.a in w.s.meta && p.canLock(act.a)
    ensures AllLocked(p, ActSteps(w, p, act)) && AllLocked(p, FinishSteps(p, act))
  {
    hide FinishSteps;
    UnlinkLocked(p, act.a);
    FinishLocked(p, act);
  }

  lemma UnlinkLocked(p: Pull, a: Addr)
    requires p.canLock(a)
    ensures AllLocked(p, Unlink3(a))
  {}

  lemma FinishLocked(p: Pull, act: Act)
    requires p.canLock(act.a)
    ensures AllLocked(p, FinishSteps(p, act))
  {}

  lemma LockedConcat(p: Pull, s: seq<Step>, t: seq<Step>)
    requires AllLocked(p, s) && AllLocked(p, t)
    ensures AllLocked(p, s + t)
  {}

  /** For the other threads a call is a run of steps on items whose locks they do
  not have; crawlers and bump buffers are left alone. */
  lemma PullIsRun(p: Pull, m: Sys, trail: seq<Spot>, r: Outcome, m': Sys) returns (steps: seq<Step>)
    requires Pulling(p, m, trail, r, m')
    ensures Took(m, steps, m') && AllLocked(p, steps)
  {
    hide Took, Advance, Choose;
    steps := TrailIsRun(p, m, trail, r, |trail| - 1);
    var x := trail[|trail| - 1];
    if r.stop.Some? {
      var act := r.stop.value;
      ActLocked(x.m.w, p, act);
      TookConcat(m, steps, x.m, ActSteps(x.m.w, p, act), r.m);
      TookConcat(m, steps + ActSteps(x.m.w, p, act), r.m, FinishSteps(p, act), m');
      LockedConcat(p, steps, ActSteps(x.m.w, p, act));
      LockedConcat(p, steps + ActSteps(x.m.w, p, act), FinishSteps(p, act));
      steps := steps + ActSteps(x.m.w, p, act) + FinishSteps(p, act);
    }
  }
}
