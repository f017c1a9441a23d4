/** The threads of psort.c one array access at a time, in any interleaving: each
works on its own stretch, so how they take turns makes no difference. */
module PsortThreads {
  import opened StableSort
  import opened ParallelSort

  /** What mergeSort still has to do on the stretch of a thread, from `lo` up to but
  not including `hi`. */
  datatype Task = SortTask(lo: nat, hi: nat) | MergeTask(lo: nat, mid: nat, hi: nat)

  /** A merge under way: the copies as far as they are made, and how much of each is
  written back. */
  datatype Work = Idle | Merging(lo: nat, mid: nat, hi: nat, l: seq<Record>, r: seq<Record>, i: nat, j: nat)

  /** A thread between two accesses: its calls that have not returned, and its merge. */
  datatype Local = Local(tasks: seq<Task>, work: Work)

  const DONE := Local([], Idle)

  predicate TaskOk(t: Task, n: nat) {
    match t
    case SortTask(lo, hi) => lo <= hi <= n
    case MergeTask(lo, mid, hi) => lo <= mid <= hi <= n
  }

  predicate WorkOk(w: Work, n: nat) {
    match w
    case Idle => true
    case Merging(lo, mid, hi, l, r, i, j) =>
      && lo <= mid <= hi <= n && |l| <= mid - lo && |r| <= hi - mid && i <= |l| && j <= |r|
      && (|l| + |r| < hi - lo ==> i == 0 && j == 0)
  }

  predicate LocalOk(c: Local, n: nat) {
    WorkOk(c.work, n) && forall t :: t in c.tasks ==> TaskOk(t, n)
  }

  /** A call of mergeSort or merge begins. */
  function Begin(tasks: seq<Task>): Local
    requires tasks != []
  {
    var rest := tasks[1..];
    match tasks[0]
    case SortTask(lo, hi) =>
      if hi <= lo + 1 then Local(rest, Idle)
      else
        var mid := lo + (hi - 1 - lo) / 2 + 1;
        Local([SortTask(lo, mid)] + ([SortTask(mid, hi)] + ([MergeTask(lo, mid, hi)] + rest)), Idle)
    case MergeTask(lo, mid, hi) => Local(rest, Merging(lo, mid, hi, [], [], 0, 0))
  }

  lemma BeginOk(tasks: seq<Task>, n: nat)
    requires tasks != [] && forall t :: t in tasks ==> TaskOk(t, n)
    ensures LocalOk(Begin(tasks), n)
  {
    assert tasks[0] in tasks;
    forall t | t in tasks[1..] ensures TaskOk(t, n) { assert t in tasks; }
  }

  /** What a thread does next to its stretch: one read, or one write, or neither. */
  function Next(c: Local, s: seq<Record>): (r: (Local, seq<Record>))
    requires LocalOk(c, |s|)
    ensures |r.1| == |s| && LocalOk(r.0, |s|)
  {
    match c.work
    case Idle => if c.tasks == [] then (c, s) else BeginOk(c.tasks, |s|); (Begin(c.tasks), s)
    case Merging(lo, mid, hi, l, r, i, j) =>
      if |l| < mid - lo then (c.(work := c.work.(l := l + [s[lo + |l|]])), s)
      else if |r| < hi - mid then (c.(work := c.work.(r := r + [s[mid + |r|]])), s)
      else if i < |l| && (j == |r| || l[i].key <= r[j].key) then
        (c.(work := c.work.(i := i + 1)), s[lo + i + j := l[i]])
      else if j < |r| then (c.(work := c.work.(j := j + 1)), s[lo + i + j := r[j]])
      else (c.(work := Idle), s)
  }

  /** A thread by itself for k turns. */
  function Alone(c: Local, s: seq<Record>, k: nat): (r: (Local, seq<Record>))
    requires LocalOk(c, |s|)
    ensures |r.1| == |s| && LocalOk(r.0, |s|)
    decreases k
  {
    if k == 0 then (c, s) else Alone(Next(c, s).0, Next(c, s).1, k - 1)
  }

  lemma {:induction false} AloneMore(c: Local, s: seq<Record>, a: nat, b: nat)
    requires LocalOk(c, |s|)
    ensures Alone(c, s, a + b) == Alone(Alone(c, s, a).0, Alone(c, s, a).1, b)
    decreases a
  {
    hide Next;
    if a > 0 { AloneMore(Next(c, s).0, Next(c, s).1, a - 1, b); }
  }

  /** One write, and what comes after it. */
  lemma OneWrite(s: seq<Record>, s': seq<Record>, at: nat, hi: nat, x: Record, rest: seq<Record>)
    requires at < hi <= |s| && SameOutside(s', s[at := x], at + 1, hi) && s'[at + 1..hi] == rest
    ensures SameOutside(s', s, at, hi) && s'[at..hi] == [x] + rest
  {
    assert s'[at] == x;
    assert s'[at..hi] == [s'[at]] + s'[at + 1..hi];
  }

  lemma WriteLeft(tasks: seq<Task>, w: Work, s: seq<Record>)
    requires LocalOk(Local(tasks, w), |s|) && w.Merging? && |w.l| == w.mid - w.lo && |w.r| == w.hi - w.mid
    requires w.i < |w.l| && (w.j == |w.r| || w.l[w.i].key <= w.r[w.j].key)
    ensures Next(Local(tasks, w), s) == (Local(tasks, w.(i := w.i + 1)), s[w.lo + w.i + w.j := w.l[w.i]])
  {}

  lemma WriteRight(tasks: seq<Task>, w: Work, s: seq<Record>)
    requires LocalOk(Local(tasks, w), |s|) && w.Merging? && |w.l| == w.mid - w.lo && |w.r| == w.hi - w.mid
    requires w.j < |w.r| && !(w.i < |w.l| && w.l[w.i].key <= w.r[w.j].key)
    ensures Next(Local(tasks, w), s) == (Local(tasks, w.(j := w.j + 1)), s[w.lo + w.i + w.j := w.r[w.j]])
  {}

  lemma WriteOver(tasks: seq<Task>, w: Work, s: seq<Record>)
    requires LocalOk(Local(tasks, w), |s|) && w.Merging? && |w.l| == w.mid - w.lo && |w.r| == w.hi - w.mid
    requires w.i == |w.l| && w.j == |w.r|
    ensures Alone(Local(tasks, w), s, 1) == (Local(tasks, Idle), s)
  {
    assert Alone(Local(tasks, Idle), s, 0) == (Local(tasks, Idle), s);
  }

  lemma AloneFirst(c: Local, s: seq<Record>, k: nat)
    requires LocalOk(c, |s|)
    ensures Alone(c, s, k + 1) == Alone(Next(c, s).0, Next(c, s).1, k)
  {
    hide Next;
  }

  /** What is left of a merge when the copies are complete. */
  lemma {:induction false} WriteBack(tasks: seq<Task>, w: Work, s: seq<Record>) returns (k: nat, s': seq<Record>)
    requires LocalOk(Local(tasks, w), |s|) && w.Merging? && |w.l| == w.mid - w.lo && |w.r| == w.hi - w.mid
    ensures Alone(Local(tasks, w), s, k) == (Local(tasks, Idle), s')
    ensures SameOutside(s', s, w.lo + w.i + w.j, w.hi)
    ensures s'[w.lo + w.i + w.j..w.hi] == Merge(w.l[w.i..], w.r[w.j..])
    decreases |w.l| - w.i + |w.r| - w.j
  {
    hide Next, Alone, Merge, SameOutside;
    var c := Local(tasks, w);
    var at := w.lo + w.i + w.j;
    if w.i < |w.l| && (w.j == |w.r| || w.l[w.i].key <= w.r[w.j].key) {
      WriteLeft(tasks, w, s);
      k, s' := WriteBack(tasks, w.(i := w.i + 1), s[at := w.l[w.i]]);
      TakeLeft(w.l, w.r, w.i, w.j);
      OneWrite(s, s', at, w.hi, w.l[w.i], Merge(w.l[w.i + 1..], w.r[w.j..]));
      AloneFirst(c, s, k);
      k := k + 1;
    } else if w.j < |w.r| {
      WriteRight(tasks, w, s);
      k, s' := WriteBack(tasks, w.(j := w.j + 1), s[at := w.r[w.j]]);
      TakeRight(w.l, w.r, w.i, w.j);
      OneWrite(s, s', at, w.hi, w.r[w.j], Merge(w.l[w.i..], w.r[w.j + 1..]));
      AloneFirst(c, s, k);
      k := k + 1;
    } else {
      k, s' := 1, s;
      WriteOver(tasks, w, s);
      MergeEmpty(w.r[w.j..]);
      SameAll(s, at, w.hi);
      assert w.l[w.i..] == [] && w.r[w.j..] == [] && s[at..w.hi] == [];
    }
  }

  lemma SameAll(s: seq<Record>, lo: nat, hi: nat)
    requires lo <= hi <= |s|
    ensures SameOutside(s, s, lo, hi)
  {}

  /** The copy loops of merge: they only read. */
  lemma {:induction false} CopyRuns(tasks: seq<Task>, w: Work, s: seq<Record>) returns (k: nat)
    requires LocalOk(Local(tasks, w), |s|) && w.Merging? && w.i == 0 && w.j == 0
    requires (w.r != [] ==> |w.l| == w.mid - w.lo)
    requires w.l == s[w.lo..w.lo + |w.l|] && w.r == s[w.mid..w.mid + |w.r|]
    ensures Alone(Local(tasks, w), s, k) == (Local(tasks, w.(l := s[w.lo..w.mid], r := s[w.mid..w.hi])), s)
    decreases w.mid - w.lo - |w.l| + w.hi - w.mid - |w.r|
  {
    var c := Local(tasks, w);
    if |w.l| < w.mid - w.lo {
      var w1 := w.(l := w.l + [s[w.lo + |w.l|]]);
      assert s[w.lo..w.lo + |w1.l|] == s[w.lo..w.lo + |w.l|] + [s[w.lo + |w.l|]];
      assert Next(c, s) == (Local(tasks, w1), s);
      hide Next;
      k := CopyRuns(tasks, w1, s);
      AloneFirst(c, s, k);
      k := k + 1;
    } else if |w.r| < w.hi - w.mid {
      var w1 := w.(r := w.r + [s[w.mid + |w.r|]]);
      assert s[w.mid..w.mid + |w1.r|] == s[w.mid..w.mid + |w.r|] + [s[w.mid + |w.r|]];
      assert Next(c, s) == (Local(tasks, w1), s);
      hide Next;
      k := CopyRuns(tasks, w1, s);
      AloneFirst(c, s, k);
      k := k + 1;
    } else {
      k := 0;
      hide Next;
    }
  }

  lemma MergeBegins(tasks: seq<Task>, lo: nat, mid: nat, hi: nat, s: seq<Record>)
    requires LocalOk(Local([MergeTask(lo, mid, hi)] + tasks, Idle), |s|) && lo <= mid <= hi <= |s|
    ensures Next(Local([MergeTask(lo, mid, hi)] + tasks, Idle), s) ==
      (Local(tasks, Merging(lo, mid, hi, [], [], 0, 0)), s)
  {
    assert ([MergeTask(lo, mid, hi)] + tasks)[1..] == tasks;
  }

  /** A merge by itself joins its two runs. */
  lemma MergeRuns(tasks: seq<Task>, lo: nat, mid: nat, hi: nat, s: seq<Record>) returns (k: nat, s': seq<Record>)
    requires LocalOk(Local([MergeTask(lo, mid, hi)] + tasks, Idle), |s|) && lo <= mid <= hi <= |s|
    requires LocalOk(Local(tasks, Idle), |s|)
    ensures Alone(Local([MergeTask(lo, mid, hi)] + tasks, Idle), s, k) == (Local(tasks, Idle), s')
    ensures SameOutside(s', s, lo, hi) && s'[lo..hi] == Merge(s[lo..mid], s[mid..hi])
  {
    hide Next, Merge, SameOutside, Alone;
    var c := Local([MergeTask(lo, mid, hi)] + tasks, Idle);
    var w := Merging(lo, mid, hi, [], [], 0, 0);
    MergeBegins(tasks, lo, mid, hi, s);
    var a := CopyRuns(tasks, w, s);
    var w1 := w.(l := s[lo..mid], r := s[mid..hi]);
    var b;
    b, s' := WriteBack(tasks, w1, s);
    assert w1.l[0..] == w1.l && w1.r[0..] == w1.r;
    AloneMore(Local(tasks, w), s, a, b);
    AloneFirst(c, s, a + b);
    k := a + b + 1;
  }

  /** A turn, and three stretches of turns after it. */
  lemma AloneThree(c: Local, c1: Local, s: seq<Record>, a: nat, b: nat, d: nat)
    requires LocalOk(c, |s|) && Next(c, s) == (c1, s)
    ensures var x := Alone(c1, s, a); var y := Alone(x.0, x.1, b);
      Alone(c, s, a + b + d + 1) == Alone(y.0, y.1, d)
  {
    hide Next;
    AloneMore(c1, s, a, b);
    AloneMore(c1, s, a + b, d);
    AloneFirst(c, s, a + b + d);
  }

  lemma TasksOk(first: seq<Task>, rest: seq<Task>, n: nat)
    requires (forall t :: t in first ==> TaskOk(t, n)) && LocalOk(Local(rest, Idle), n)
    ensures LocalOk(Local(first + rest, Idle), n)
  {}

  lemma SortNothing(tasks: seq<Task>, lo: nat, hi: nat, s: seq<Record>)
    requires LocalOk(Local([SortTask(lo, hi)] + tasks, Idle), |s|) && lo <= hi <= |s| && hi <= lo + 1
    ensures Alone(Local([SortTask(lo, hi)] + tasks, Idle), s, 1) == (Local(tasks, Idle), s)
  {
    var c := Local([SortTask(lo, hi)] + tasks, Idle);
    assert c.tasks[1..] == tasks;
    assert Next(c, s) == (Local(tasks, Idle), s);
    AloneFirst(c, s, 0);
    assert Alone(Local(tasks, Idle), s, 0) == (Local(tasks, Idle), s);
    hide Next;
  }

  lemma SortBegins(tasks: seq<Task>, lo: nat, hi: nat, s: seq<Record>)
    requires LocalOk(Local([SortTask(lo, hi)] + tasks, Idle), |s|) && lo <= hi <= |s| && hi > lo + 1
    ensures var mid := lo + (hi - 1 - lo) / 2 + 1;
      Next(Local([SortTask(lo, hi)] + tasks, Idle), s) ==
        (Local([SortTask(lo, mid)] + ([SortTask(mid, hi)] + ([MergeTask(lo, mid, hi)] + tasks)), Idle), s)
  {
    assert ([SortTask(lo, hi)] + tasks)[1..] == tasks;
  }

  /** mergeSort by itself sorts its range, stably. */
  lemma {:induction false} SortRuns(tasks: seq<Task>, lo: nat, hi: nat, s: seq<Record>)
    returns (k: nat, s': seq<Record>)
    requires LocalOk(Local([SortTask(lo, hi)] + tasks, Idle), |s|) && lo <= hi <= |s|
    requires LocalOk(Local(tasks, Idle), |s|)
    ensures Alone(Local([SortTask(lo, hi)] + tasks, Idle), s, k) == (Local(tasks, Idle), s')
    ensures SameOutside(s', s, lo, hi) && StableSortOf(s'[lo..hi], s[lo..hi])
    decreases hi - lo
  {
    hide Next, Alone, SameOutside, StableSortOf, Merge, LocalOk;
    var c := Local([SortTask(lo, hi)] + tasks, Idle);
    if hi <= lo + 1 {
      SortNothing(tasks, lo, hi, s);
      NothingToSort(s, lo, hi);
      k, s' := 1, s;
    } else {
      var mid := lo + (hi - 1 - lo) / 2 + 1;
      var t1 := [MergeTask(lo, mid, hi)] + tasks;
      var t2 := [SortTask(mid, hi)] + t1;
      SortBegins(tasks, lo, hi, s);
      TasksOk([MergeTask(lo, mid, hi)], tasks, |s|);
      TasksOk([SortTask(mid, hi)], t1, |s|);
      TasksOk([SortTask(lo, mid)], t2, |s|);
      var a, s1 := SortRuns(t2, lo, mid, s);
      SameSize(s1, s, lo, mid);
      var b, s2 := SortRuns(t1, mid, hi, s1);
      SameSize(s2, s1, mid, hi);
      var d, s3 := MergeRuns(tasks, lo, mid, hi, s2);
      AloneThree(c, Local([SortTask(lo, mid)] + t2, Idle), s, a, b, d);
      MergeSortStep(s, s1, s2, s3, lo, mid, hi);
      k, s' := a + b + d + 1, s3;
    }
  }

  lemma SameSize(r: seq<Record>, s: seq<Record>, lo: nat, hi: nat)
    requires SameOutside(r, s, lo, hi)
    ensures |r| == |s|
  {}

  /** A finished thread stays so, and there is one way to finish. */
  lemma {:induction false} DoneStays(s: seq<Record>, k: nat)
    ensures Alone(DONE, s, k) == (DONE, s)
    decreases k
  {
    assert Next(DONE, s) == (DONE, s);
    hide Next;
    if k > 0 { DoneStays(s, k - 1); }
  }

  lemma OneEnd(c: Local, s: seq<Record>, a: nat, b: nat)
    requires LocalOk(c, |s|) && Alone(c, s, a).0 == DONE && Alone(c, s, b).0 == DONE
    ensures Alone(c, s, a) == Alone(c, s, b)
  {
    hide Alone;
    if a <= b {
      AloneMore(c, s, a, b - a);
      DoneStays(Alone(c, s, a).1, b - a);
    } else {
      AloneMore(c, s, b, a - b);
      DoneStays(Alone(c, s, b).1, a - b);
    }
  }

  /** The stretch of a thread. */
  datatype Place = Place(lo: nat, hi: nat)

  /** The array, and where the threads have got to. */
  datatype Sys = Sys(s: seq<Record>, locals: seq<Local>)

  ghost predicate Apart(places: seq<Place>) {
    forall t, u :: 0 <= t < u < |places| ==> places[t].hi <= places[u].lo
  }

  ghost predicate Ok(places: seq<Place>, y: Sys) {
    && |places| == |y.locals| && Apart(places)
    && forall t :: 0 <= t < |places| ==> PlaceOk(places[t], y.locals[t], |y.s|)
  }

  predicate PlaceOk(p: Place, c: Local, n: nat) {
    p.lo <= p.hi <= n && LocalOk(c, p.hi - p.lo)
  }

  /** Thread t takes its turn on its stretch. */
  function Turn(places: seq<Place>, y: Sys, t: nat): Sys
    requires t < |places| == |y.locals| && PlaceOk(places[t], y.locals[t], |y.s|)
  {
    var p := places[t];
    var (c, part) := Next(y.locals[t], y.s[p.lo..p.hi]);
    Sys(y.s[..p.lo] + part + y.s[p.hi..], y.locals[t := c])
  }

  /** A turn changes one record at most. */
  lemma TurnWritesOne(places: seq<Place>, y: Sys, t: nat)
    requires t < |places| == |y.locals| && PlaceOk(places[t], y.locals[t], |y.s|)
    ensures Turn(places, y, t).s == y.s ||
      exists i :: places[t].lo <= i < places[t].hi && i < |Turn(places, y, t).s| &&
        Turn(places, y, t).s == y.s[i := Turn(places, y, t).s[i]]
  {
    var p, c := places[t], y.locals[t];
    var part := Next(c, y.s[p.lo..p.hi]).1;
    if part == y.s[p.lo..p.hi] {
      assert y.s[..p.lo] + y.s[p.lo..p.hi] + y.s[p.hi..] == y.s;
    } else {
      var i := c.work.lo + c.work.i + c.work.j;
      assert y.s[..p.lo] + y.s[p.lo..p.hi][i := part[i]] + y.s[p.hi..] == y.s[p.lo + i := part[i]];
      assert Turn(places, y, t).s[p.lo + i] == part[i];
    }
  }

  lemma TurnFacts(places: seq<Place>, y: Sys, t: nat, u: nat)
    requires Ok(places, y) && t < |places| && u < |places|
    ensures var y' := Turn(places, y, t);
      && |y'.s| == |y.s| && |y'.locals| == |y.locals| && PlaceOk(places[u], y'.locals[u], |y'.s|)
      && SameOutside(y'.s, y.s, places[t].lo, places[t].hi)
      && (y'.locals[u], y'.s[places[u].lo..places[u].hi]) ==
           if t == u then Next(y.locals[u], y.s[places[u].lo..places[u].hi])
           else (y.locals[u], y.s[places[u].lo..places[u].hi])
  {
    hide Next;
    assert PlaceOk(places[t], y.locals[t], |y.s|) && PlaceOk(places[u], y.locals[u], |y.s|);
    if t < u { assert places[t].hi <= places[u].lo; }
    if u < t { assert places[u].hi <= places[t].lo; }
    var p, q := places[t], places[u];
    var part := Next(y.locals[t], y.s[p.lo..p.hi]).1;
    var s' := y.s[..p.lo] + part + y.s[p.hi..];
    assert s'[p.lo..p.hi] == part;
    if t != u { assert s'[q.lo..q.hi] == y.s[q.lo..q.hi]; }
  }

  lemma TurnOk(places: seq<Place>, y: Sys, t: nat)
    requires Ok(places, y) && t < |places|
    ensures Ok(places, Turn(places, y, t))
  {
    hide Turn;
    TurnFacts(places, y, t, t);
    forall u | 0 <= u < |places| ensures PlaceOk(places[u], Turn(places, y, t).locals[u], |Turn(places, y, t).s|) {
      TurnFacts(places, y, t, u);
    }
  }

  /** An order in which n threads take turns, each as often as it pleases. */
  predicate Picks(order: seq<nat>, n: nat) { forall i :: 0 <= i < |order| ==> order[i] < n }

  /** The threads take turns in this order. */
  ghost function Run(places: seq<Place>, y: Sys, order: seq<nat>): Sys
    requires Ok(places, y) && Picks(order, |places|)
    decreases |order|
  {
    if order == [] then y else TurnOk(places, y, order[0]); Run(places, Turn(places, y, order[0]), order[1..])
  }

  /** How often thread t has had its turn. */
  function Turns(order: seq<nat>, t: nat): nat {
    if order == [] then 0 else (if order[0] == t then 1 else 0) + Turns(order[1..], t)
  }

  /** Whatever the order, each thread has done to its stretch what it does alone. */
  lemma {:induction false} RunIsAlone(places: seq<Place>, y: Sys, order: seq<nat>, t: nat)
    requires Ok(places, y) && t < |places| && Picks(order, |places|)
    ensures PlaceOk(places[t], y.locals[t], |y.s|)
    ensures var y' := Run(places, y, order); var p := places[t];
      && |y'.s| == |y.s| && |y'.locals| == |places|
      && (y'.locals[t], y'.s[p.lo..p.hi]) == Alone(y.locals[t], y.s[p.lo..p.hi], Turns(order, t))
    decreases |order|
  {
    assert PlaceOk(places[t], y.locals[t], |y.s|);
    hide Turn, Next;
    if order != [] {
      TurnOk(places, y, order[0]);
      TurnFacts(places, y, order[0], t);
      RunIsAlone(places, Turn(places, y, order[0]), order[1..], t);
    }
  }

  /** No thread has written to the record. */
  ghost predicate Untouched(places: seq<Place>, i: nat) {
    forall t :: 0 <= t < |places| ==> !(places[t].lo <= i < places[t].hi)
  }

  lemma {:induction false} RunOutside(places: seq<Place>, y: Sys, order: seq<nat>, i: nat)
    requires Ok(places, y) && i < |y.s| && Untouched(places, i) && Picks(order, |places|)
    ensures var y' := Run(places, y, order); |y'.s| == |y.s| && y'.s[i] == y.s[i]
    decreases |order|
  {
    hide Turn;
    if order != [] {
      TurnOk(places, y, order[0]);
      TurnFacts(places, y, order[0], order[0]);
      RunOutside(places, Turn(places, y, order[0]), order[1..], i);
    }
  }

  /** All threads at the start of their calls. */
  function Begun(calls: seq<Task>, s: seq<Record>): Sys {
    Sys(s, seq(|calls|, t requires 0 <= t < |calls| => Local([calls[t]], Idle)))
  }

  ghost predicate AllDone(y: Sys) { forall t :: 0 <= t < |y.locals| ==> y.locals[t] == DONE }

  /** The calls fit their places, and lie apart. */
  ghost predicate Fitting(places: seq<Place>, calls: seq<Task>, n: nat) {
    && |calls| == |places| && Apart(places)
    && forall t :: 0 <= t < |places| ==>
         places[t].lo <= places[t].hi <= n && TaskOk(calls[t], places[t].hi - places[t].lo)
  }

  lemma BegunOk(places: seq<Place>, calls: seq<Task>, s: seq<Record>)
    requires Fitting(places, calls, |s|)
    ensures Ok(places, Begun(calls, s))
  {}

  /** The threads are created with these calls, take turns in some order, and are
  joined when all have returned. */
  ghost predicate Phase(places: seq<Place>, calls: seq<Task>, s: seq<Record>, s': seq<Record>)
    requires Fitting(places, calls, |s|)
  {
    BegunOk(places, calls, s);
    exists order :: Picks(order, |places|) && AllDone(Run(places, Begun(calls, s), order)) &&
      Run(places, Begun(calls, s), order).s == s'
  }

  /** What a thread leaves in its stretch is what its call by itself would. */
  lemma PhaseStretch(places: seq<Place>, calls: seq<Task>, s: seq<Record>, s': seq<Record>, t: nat)
    requires Fitting(places, calls, |s|) && Phase(places, calls, s, s') && t < |places|
    ensures |s'| == |s| && places[t].lo <= places[t].hi <= |s|
    ensures LocalOk(Local([calls[t]], Idle), places[t].hi - places[t].lo)
    ensures exists k: nat ::
      Alone(Local([calls[t]], Idle), s[places[t].lo..places[t].hi], k) == (DONE, s'[places[t].lo..places[t].hi])
  {
    BegunOk(places, calls, s);
    hide Run, Ok, Alone;
    var order :| Picks(order, |places|) && AllDone(Run(places, Begun(calls, s), order)) &&
      Run(places, Begun(calls, s), order).s == s';
    RunIsAlone(places, Begun(calls, s), order, t);
    var k := Turns(order, t);
    assert Alone(Local([calls[t]], Idle), s[places[t].lo..places[t].hi], k) == (DONE, s'[places[t].lo..places[t].hi]);
  }

  lemma PhaseOutside(places: seq<Place>, calls: seq<Task>, s: seq<Record>, s': seq<Record>, i: nat)
    requires Fitting(places, calls, |s|) && Phase(places, calls, s, s') && i < |s| && Untouched(places, i)
    ensures |s'| == |s| && s'[i] == s[i]
  {
    BegunOk(places, calls, s);
    hide Run, Ok;
    var order :| Picks(order, |places|) && AllDone(Run(places, Begun(calls, s), order)) &&
      Run(places, Begun(calls, s), order).s == s';
    RunOutside(places, Begun(calls, s), order, i);
  }

  lemma SortedAlone(part: seq<Record>, part': seq<Record>, k: nat)
    requires LocalOk(Local([SortTask(0, |part|)], Idle), |part|)
    requires Alone(Local([SortTask(0, |part|)], Idle), part, k) == (DONE, part')
    ensures StableSortOf(part', part)
  {
    assert [SortTask(0, |part|)] + [] == [SortTask(0, |part|)];
    hide Alone, StableSortOf, SameOutside;
    var m, s' := SortRuns([], 0, |part|, part);
    SameSize(s', part, 0, |part|);
    OneEnd(Local([SortTask(0, |part|)], Idle), part, k, m);
    assert s'[0..|part|] == s' && part[0..|part|] == part;
  }

  lemma MergedAlone(part: seq<Record>, mid: nat, part': seq<Record>, k: nat)
    requires mid <= |part| && LocalOk(Local([MergeTask(0, mid, |part|)], Idle), |part|)
    requires Alone(Local([MergeTask(0, mid, |part|)], Idle), part, k) == (DONE, part')
    ensures part' == Merge(part[..mid], part[mid..])
  {
    assert [MergeTask(0, mid, |part|)] + [] == [MergeTask(0, mid, |part|)];
    hide Alone, Merge, SameOutside;
    var m, s' := MergeRuns([], 0, mid, |part|, part);
    SameSize(s', part, 0, |part|);
    OneEnd(Local([MergeTask(0, mid, |part|)], Idle), part, k, m);
    assert s'[0..|part|] == s' && part[0..mid] == part[..mid] && part[mid..|part|] == part[mid..];
  }

  /** Rearranging stretches that lie apart rearranges the whole. */
  lemma {:induction false} StretchesRearranged(places: seq<Place>, r: seq<Record>, s: seq<Record>)
    requires |r| == |s| && Apart(places) && forall t :: 0 <= t < |places| ==> places[t].lo <= places[t].hi <= |s|
    requires forall t :: 0 <= t < |places| ==> SameByKey(r[places[t].lo..places[t].hi], s[places[t].lo..places[t].hi])
    requires forall i :: 0 <= i < |s| && Untouched(places, i) ==> r[i] == s[i]
    ensures SameByKey(r, s)
    decreases |places|
  {
    hide SameByKey;
    if places == [] {
      assert forall i :: 0 <= i < |s| ==> Untouched(places, i);
      assert r == s;
      SameByKeyRefl(s);
    } else {
      var n := |places| - 1;
      var p, front := places[n], places[..n];
      var m := r[..p.lo] + s[p.lo..];
      forall t | 0 <= t < n ensures SameByKey(m[front[t].lo..front[t].hi], s[front[t].lo..front[t].hi]) {
        assert places[t].hi <= p.lo;
        assert m[front[t].lo..front[t].hi] == r[places[t].lo..places[t].hi];
      }
      forall i | 0 <= i < |s| && Untouched(front, i) ensures m[i] == s[i] {
        if i < p.lo { assert Untouched(places, i); }
      }
      StretchesRearranged(front, m, s);
      forall i | p.hi <= i < |s| ensures r[i] == s[i] {
        BehindLast(places, i);
      }
      assert m[..p.lo] == r[..p.lo] && m[p.hi..] == r[p.hi..] && m[p.lo..p.hi] == s[p.lo..p.hi];
      SliceRearranged(r, m, p.lo, p.hi);
      SameByKeyTrans(r, m, s);
    }
  }

  lemma BehindLast(places: seq<Place>, i: nat)
    requires places != [] && Apart(places) && places[|places| - 1].hi <= i
    requires places[|places| - 1].lo <= places[|places| - 1].hi
    ensures Untouched(places, i)
  {
    forall t | 0 <= t < |places| ensures !(places[t].lo <= i < places[t].hi) {
      if t < |places| - 1 { assert places[t].hi <= places[|places| - 1].lo; }
    }
  }

  function Len(p: Place): nat { if p.hi < p.lo then 0 else p.hi - p.lo }

  /** The first phase: thread t sorts share t. */
  function Shares(n: nat, procs: nat): seq<Place>
    requires procs > 0
  {
    seq(procs, t requires 0 <= t < procs => Place(RunStart(t, n / procs), RunEnd(t, n / procs, procs, n)))
  }

  function Sorts(places: seq<Place>): seq<Task> {
    seq(|places|, t requires 0 <= t < |places| => SortTask(0, Len(places[t])))
  }

  lemma SharesFitting(n: nat, procs: nat)
    requires procs > 0
    ensures RunStart(procs - 1, n / procs) <= n && Fitting(Shares(n, procs), Sorts(Shares(n, procs)), n)
  {
    SharesFit(n, procs);
    var places := Shares(n, procs);
    hide RunStart, RunEnd;
    forall t, u | 0 <= t < u < |places| ensures places[t].hi <= places[u].lo {
      RunBounds(t, u, n / procs, procs, n);
    }
    forall t | 0 <= t < |places| ensures places[t].lo <= places[t].hi <= n {
      RunBounds(t, t, n / procs, procs, n);
    }
  }

  lemma FittingApart(places: seq<Place>, calls: seq<Task>, n: nat)
    requires Fitting(places, calls, n)
    ensures Apart(places) && |calls| == |places| && forall t :: 0 <= t < |places| ==> places[t].lo <= places[t].hi <= n
  {}

  /** A thread that sorts leaves its stretch stably sorted. */
  lemma ShareSorted(places: seq<Place>, calls: seq<Task>, s: seq<Record>, s': seq<Record>, t: nat)
    requires Fitting(places, calls, |s|) && Phase(places, calls, s, s') && t < |places| == |calls|
    requires calls[t] == SortTask(0, Len(places[t]))
    ensures |s'| == |s| && places[t].lo <= places[t].hi <= |s|
    ensures StableSortOf(s'[places[t].lo..places[t].hi], s[places[t].lo..places[t].hi])
  {
    hide Phase, Fitting, Alone, StableSortOf;
    PhaseStretch(places, calls, s, s', t);
    var part, part' := s[places[t].lo..places[t].hi], s'[places[t].lo..places[t].hi];
    var k: nat :| Alone(Local([calls[t]], Idle), part, k) == (DONE, part');
    SortedAlone(part, part', k);
  }

  /** And one that merges leaves the merge of its two runs. */
  lemma PairJoined(places: seq<Place>, calls: seq<Task>, size: nat, s: seq<Record>, s': seq<Record>, t: nat)
    requires Fitting(places, calls, |s|) && Phase(places, calls, s, s') && t < |places| == |calls|
    requires calls[t] == MergeTask(0, size, Len(places[t]))
    ensures var lo, hi := places[t].lo, places[t].hi;
      && |s'| == |s| && lo + size <= hi <= |s|
      && s'[lo..hi] == Merge(s[lo..lo + size], s[lo + size..hi])
  {
    hide Phase, Fitting, Alone, Merge;
    PhaseStretch(places, calls, s, s', t);
    var lo, hi := places[t].lo, places[t].hi;
    assert calls[t] in Local([calls[t]], Idle).tasks;
    assert TaskOk(calls[t], hi - lo);
    var part, part' := s[lo..hi], s'[lo..hi];
    var k: nat :| Alone(Local([calls[t]], Idle), part, k) == (DONE, part');
    MergedAlone(part, size, part', k);
    assert part[..size] == s[lo..lo + size] && part[size..] == s[lo + size..hi];
  }

  /** When every thread has sorted its stretch stably, so is the whole rearranged. */
  lemma PhaseKeeps(places: seq<Place>, calls: seq<Task>, s: seq<Record>, s': seq<Record>)
    requires Fitting(places, calls, |s|) && Phase(places, calls, s, s') && |s'| == |s|
    requires forall t :: 0 <= t < |places| ==> (
      places[t].lo <= places[t].hi <= |s| && SameByKey(s'[places[t].lo..places[t].hi], s[places[t].lo..places[t].hi]))
    ensures SameByKey(s', s)
  {
    hide Phase, Fitting, SameByKey;
    FittingApart(places, calls, |s|);
    forall i | 0 <= i < |s| && Untouched(places, i) ensures s'[i] == s[i] {
      PhaseOutside(places, calls, s, s', i);
    }
    StretchesRearranged(places, s', s);
  }

  /** However the accesses of the threads interleave, the first phase leaves sorted
  runs, stably. */
  lemma SharesSorted(s: seq<Record>, s': seq<Record>, procs: nat)
    requires procs > 0 && Fitting(Shares(|s|, procs), Sorts(Shares(|s|, procs)), |s|)
    requires Phase(Shares(|s|, procs), Sorts(Shares(|s|, procs)), s, s')
    ensures |s'| == |s| && RunsSorted(s', |s| / procs, procs) && SameByKey(s', s)
  {
    var places, size := Shares(|s|, procs), |s| / procs;
    hide Phase, Fitting, SameByKey, Sorted, RunStart, RunEnd;
    ShareSorted(places, Sorts(places), s, s', 0);
    forall t | 0 <= t < procs
      ensures RunSorted(s', t, size, procs) && places[t].lo <= places[t].hi <= |s|
      ensures SameByKey(s'[places[t].lo..places[t].hi], s[places[t].lo..places[t].hi])
    {
      ShareSorted(places, Sorts(places), s, s', t);
    }
    hide Shares, Sorts, RunSorted;
    SharesCount(|s|, procs);
    PhaseKeeps(places, Sorts(places), s, s');
  }

  lemma SharesCount(n: nat, procs: nat)
    requires procs > 0
    ensures |Shares(n, procs)| == procs
  {}

  /** A merge round: thread t merges runs 2t and 2t + 1. */
  function Pairs(n: nat, size: nat, count: nat): seq<Place> {
    seq(Merges(count), t requires 0 <= t < Merges(count) => Place(RunStart(2 * t, size), PairEnd(t, size, count, n)))
  }

  function Joins(places: seq<Place>, size: nat): seq<Task> {
    seq(|places|, t requires 0 <= t < |places| => MergeTask(0, size, Len(places[t])))
  }

  lemma PairsFitting(n: nat, size: nat, count: nat)
    requires count >= 1 && RunStart(count - 1, size) <= n
    ensures Fitting(Pairs(n, size, count), Joins(Pairs(n, size, count), size), n)
  {
    var places := Pairs(n, size, count);
    hide RunStart, PairEnd, RunEnd;
    forall t, u | 0 <= t < u < |places| ensures places[t].hi <= places[u].lo {
      PairBounds(t, u, size, count, n);
    }
    forall t | 0 <= t < |places| ensures places[t].lo + size <= places[t].hi <= n {
      PairBounds(t, t, size, count, n);
      RunStartOrder(2 * t, 2 * t, size);
    }
  }

  /** The two runs of a pair, sorted, and their merge. */
  lemma PairMerge(s: seq<Record>, r: seq<Record>, size: nat, count: nat, t: nat)
    requires count >= 1 && RunStart(count - 1, size) <= |s| && RunsSorted(s, size, count) && t < Merges(count)
    requires var lo, hi := RunStart(2 * t, size), PairEnd(t, size, count, |s|);
      lo + size <= hi <= |s| && r == Merge(s[lo..lo + size], s[lo + size..hi])
    ensures var lo, hi := RunStart(2 * t, size), PairEnd(t, size, count, |s|); StableSortOf(r, s[lo..hi])
  {
    hide StableSortOf, Merge, RunStart, PairEnd, RunEnd, Sorted;
    PairBounds(t, t, size, count, |s|);
    RunStartOrder(2 * t, 2 * t, size);
    var lo, mid, hi := RunStart(2 * t, size), RunStart(2 * t + 1, size), PairEnd(t, size, count, |s|);
    assert RunSorted(s, 2 * t, size, count) && RunSorted(s, 2 * t + 1, size, count);
    RunEnds(2 * t, size, count, |s|);
    MergeStable(s[lo..mid], s[mid..hi]);
    assert s[lo..hi] == s[lo..mid] + s[mid..hi];
  }

  lemma RunEnds(i: nat, size: nat, count: nat, total: nat)
    requires i + 1 < count
    ensures RunEnd(i, size, count, total) == RunStart(i + 1, size)
  {}

  lemma PairDone(s: seq<Record>, s': seq<Record>, size: nat, count: nat, t: nat)
    requires count >= 1 && RunStart(count - 1, size) <= |s| && RunsSorted(s, size, count) && t < Merges(count)
    requires Fitting(Pairs(|s|, size, count), Joins(Pairs(|s|, size, count), size), |s|)
    requires Phase(Pairs(|s|, size, count), Joins(Pairs(|s|, size, count), size), s, s')
    ensures |s'| == |s| && PairSorted(s', t, size, count)
    ensures var p := Pairs(|s|, size, count)[t]; p.lo <= p.hi <= |s| && SameByKey(s'[p.lo..p.hi], s[p.lo..p.hi])
  {
    hide Phase, Fitting, SameByKey, Sorted, RunStart, PairEnd, RunsSorted, Merge;
    var places := Pairs(|s|, size, count);
    PairJoined(places, Joins(places, size), size, s, s', t);
    var lo, hi := RunStart(2 * t, size), PairEnd(t, size, count, |s|);
    PairMerge(s, s'[lo..hi], size, count, t);
  }

  /** The run that has no partner is not touched. */
  lemma LastRunKept(s: seq<Record>, s': seq<Record>, size: nat, count: nat)
    requires count >= 1 && count % 2 == 1 && RunStart(count - 1, size) <= |s| && RunSorted(s, count - 1, size, count)
    requires Fitting(Pairs(|s|, size, count), Joins(Pairs(|s|, size, count), size), |s|)
    requires Phase(Pairs(|s|, size, count), Joins(Pairs(|s|, size, count), size), s, s') && |s'| == |s|
    ensures RunSorted(s', count - 1, size, count)
  {
    hide Phase, Fitting, Sorted, RunStart, PairEnd;
    var places := Pairs(|s|, size, count);
    var lo := RunStart(count - 1, size);
    forall i | lo <= i < |s| ensures s'[i] == s[i] {
      forall t | 0 <= t < |places| ensures !(places[t].lo <= i < places[t].hi) {
        PairBounds(t, t, size, count, |s|);
        RunBounds(2 * t + 1, count - 1, size, count, |s|);
      }
      PhaseOutside(places, Joins(places, size), s, s', i);
    }
    assert s'[lo..|s|] == s[lo..|s|];
  }

  /** However the accesses of the threads interleave, a round leaves runs twice as
  long, sorted and stably so. */
  lemma RoundSorted(s: seq<Record>, s': seq<Record>, size: nat, count: nat)
    requires count >= 2 && RunStart(count - 1, size) <= |s| && RunsSorted(s, size, count)
    requires Fitting(Pairs(|s|, size, count), Joins(Pairs(|s|, size, count), size), |s|)
    requires Phase(Pairs(|s|, size, count), Joins(Pairs(|s|, size, count), size), s, s')
    ensures |s'| == |s| && RunsSorted(s', 2 * size, count - Merges(count)) && SameByKey(s', s)
    ensures RunStart(count - Merges(count) - 1, 2 * size) <= |s'|
  {
    hide Phase, Fitting, SameByKey, PairSorted, RunStart, PairEnd;
    var places := Pairs(|s|, size, count);
    PairDone(s, s', size, count, 0);
    forall t | 0 <= t < Merges(count)
      ensures PairSorted(s', t, size, count) && places[t].lo <= places[t].hi <= |s|
      ensures SameByKey(s'[places[t].lo..places[t].hi], s[places[t].lo..places[t].hi])
    {
      PairDone(s, s', size, count, t);
    }
    PhaseKeeps(places, Joins(places, size), s, s');
    if count % 2 == 1 {
      assert RunSorted(s, count - 1, size, count);
      LastRunKept(s, s', size, count);
    }
    hide RunSorted, Pairs, Joins;
    NextRound(s', size, count);
  }

  /** The rounds that are left: one phase each, until one run remains. */
  ghost predicate Rounds(s: seq<Record>, s': seq<Record>, size: nat, count: nat)
    requires count >= 1 && RunStart(count - 1, size) <= |s|
    decreases count
  {
    if count == 1 then s' == s
    else
      PairsFitting(|s|, size, count);
      exists s1 :: Phase(Pairs(|s|, size, count), Joins(Pairs(|s|, size, count), size), s, s1) &&
        RunStart(count - Merges(count) - 1, 2 * size) <= |s1| && Rounds(s1, s', 2 * size, count - Merges(count))
  }

  lemma {:induction false} RoundsSort(s: seq<Record>, s': seq<Record>, size: nat, count: nat)
    requires count >= 1 && RunStart(count - 1, size) <= |s| && RunsSorted(s, size, count) && Rounds(s, s', size, count)
    ensures Sorted(s') && SameByKey(s', s)
    decreases count
  {
    hide RunStart, RunsSorted, SameByKey, Sorted, Phase, Fitting, Pairs, Joins;
    if count == 1 {
      OneRun(s, size);
      SameByKeyRefl(s);
    } else {
      PairsFitting(|s|, size, count);
      var s1 :| Phase(Pairs(|s|, size, count), Joins(Pairs(|s|, size, count), size), s, s1) &&
        RunStart(count - Merges(count) - 1, 2 * size) <= |s1| && Rounds(s1, s', 2 * size, count - Merges(count));
      RoundSorted(s, s1, size, count);
      RoundsSort(s1, s', 2 * size, count - Merges(count));
      SameByKeyTrans(s', s1, s);
    }
  }

  /** The theorem: with any number of threads, and however their reads and writes of
  the array interleave within a phase, psort leaves the stable sort of its input. */
  lemma AnyInterleavingSorts(s: seq<Record>, s1: seq<Record>, s': seq<Record>, procs: nat)
    requires procs > 0 && Fitting(Shares(|s|, procs), Sorts(Shares(|s|, procs)), |s|)
    requires Phase(Shares(|s|, procs), Sorts(Shares(|s|, procs)), s, s1)
    requires RunStart(procs - 1, |s| / procs) <= |s1| && Rounds(s1, s', |s| / procs, procs)
    ensures StableSortOf(s', s)
  {
    hide RunStart, RunsSorted, SameByKey, Sorted, Phase, Fitting, Shares, Sorts, Rounds;
    SharesSorted(s, s1, procs);
    RoundsSort(s1, s', |s| / procs, procs);
    SameByKeyTrans(s', s1, s);
  }

  /** The call of thread t has returned after m turns by itself. */
  ghost predicate Returned(places: seq<Place>, calls: seq<Task>, s: seq<Record>, t: nat, m: nat)
    requires Fitting(places, calls, |s|) && t < |places|
  {
    FittingCall(places, calls, |s|, t);
    Alone(Local([calls[t]], Idle), s[places[t].lo..places[t].hi], m).0 == DONE
  }

  lemma FittingCall(places: seq<Place>, calls: seq<Task>, n: nat, t: nat)
    requires Fitting(places, calls, n) && t < |places|
    ensures |calls| == |places| && places[t].lo <= places[t].hi <= n
    ensures TaskOk(calls[t], places[t].hi - places[t].lo)
    ensures LocalOk(Local([calls[t]], Idle), places[t].hi - places[t].lo)
  {}

  ghost predicate Settled(places: seq<Place>, calls: seq<Task>, s: seq<Record>, t: nat, k: nat)
    requires Fitting(places, calls, |s|) && t < |places|
  {
    forall m :: m >= k ==> Returned(places, calls, s, t, m)
  }

  /** Every call returns. */
  lemma Returns(places: seq<Place>, calls: seq<Task>, s: seq<Record>, t: nat) returns (k: nat)
    requires Fitting(places, calls, |s|) && t < |places|
    ensures Settled(places, calls, s, t, k)
  {
    FittingCall(places, calls, |s|, t);
    var c, part := Local([calls[t]], Idle), s[places[t].lo..places[t].hi];
    assert [calls[t]] + [] == [calls[t]];
    hide Alone, Fitting, SameOutside, StableSortOf, Merge;
    var part';
    match calls[t] {
      case SortTask(lo, hi) => k, part' := SortRuns([], lo, hi, part);
      case MergeTask(lo, mid, hi) => k, part' := MergeRuns([], lo, mid, hi, part);
    }
    forall m | m >= k ensures Returned(places, calls, s, t, m) {
      AloneMore(c, part, k, m - k);
      DoneStays(part', m - k);
    }
  }

  function Again(t: nat, k: nat): seq<nat> { seq(k, _ => t) }

  lemma {:induction false} TurnsConcat(a: seq<nat>, b: seq<nat>, t: nat)
    ensures Turns(a + b, t) == Turns(a, t) + Turns(b, t)
  {
    if a == [] {
      assert a + b == b;
    } else {
      assert (a + b)[1..] == a[1..] + b;
      TurnsConcat(a[1..], b, t);
    }
  }

  lemma {:induction false} TurnsAgain(t: nat, k: nat)
    ensures Turns(Again(t, k), t) == k
  {
    if k > 0 {
      assert Again(t, k)[1..] == Again(t, k - 1);
      TurnsAgain(t, k - 1);
    }
  }

  lemma {:induction false} EnoughTurns(places: seq<Place>, calls: seq<Task>, s: seq<Record>, n: nat)
    returns (order: seq<nat>)
    requires Fitting(places, calls, |s|) && n <= |places|
    ensures Picks(order, |places|) && forall t :: 0 <= t < n ==> Settled(places, calls, s, t, Turns(order, t))
  {
    hide Fitting, Returned, Turns, Settled;
    if n == 0 {
      order := [];
    } else {
      var front := EnoughTurns(places, calls, s, n - 1);
      var k := Returns(places, calls, s, n - 1);
      order := front + Again(n - 1, k);
      forall t | 0 <= t < n ensures Settled(places, calls, s, t, Turns(order, t)) {
        TurnsConcat(front, Again(n - 1, k), t);
        TurnsAgain(n - 1, k);
        if t < n - 1 {
          StaysSettled(places, calls, s, t, Turns(front, t), Turns(order, t));
        } else {
          StaysSettled(places, calls, s, t, k, Turns(order, t));
        }
      }
    }
  }

  lemma StaysSettled(places: seq<Place>, calls: seq<Task>, s: seq<Record>, t: nat, k: nat, k': nat)
    requires Fitting(places, calls, |s|) && t < |places| && k <= k' && Settled(places, calls, s, t, k)
    ensures Settled(places, calls, s, t, k')
  {
    hide Returned;
  }

  /** Every phase comes to its end in some order. */
  lemma PhaseEnds(places: seq<Place>, calls: seq<Task>, s: seq<Record>) returns (s': seq<Record>)
    requires Fitting(places, calls, |s|)
    ensures Phase(places, calls, s, s')
  {
    BegunOk(places, calls, s);
    var order := EnoughTurns(places, calls, s, |places|);
    hide Ok, Run, Alone, Fitting, Turns;
    var y := Run(places, Begun(calls, s), order);
    FittingApart(places, calls, |s|);
    forall t | 0 <= t < |places| ensures |y.locals| == |places| && y.locals[t] == DONE {
      RunIsAlone(places, Begun(calls, s), order, t);
      assert Returned(places, calls, s, t, Turns(order, t));
    }
    s' := y.s;
    LocalsCount(places, calls, s, order);
    assert AllDone(y);
  }

  lemma {:induction false} LocalsSame(places: seq<Place>, y: Sys, order: seq<nat>)
    requires Ok(places, y) && Picks(order, |places|)
    ensures |Run(places, y, order).locals| == |places|
    decreases |order|
  {
    hide Turn;
    if order != [] {
      TurnOk(places, y, order[0]);
      LocalsSame(places, Turn(places, y, order[0]), order[1..]);
    }
  }

  lemma LocalsCount(places: seq<Place>, calls: seq<Task>, s: seq<Record>, order: seq<nat>)
    requires Fitting(places, calls, |s|) && Ok(places, Begun(calls, s)) && Picks(order, |places|)
    ensures |Run(places, Begun(calls, s), order).locals| == |places|
  {
    LocalsSame(places, Begun(calls, s), order);
  }
}
