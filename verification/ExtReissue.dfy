/** The 32-bit version counter of extstore.c over whole runs: which version each
allocation gets, when a (page, version) pair comes back, and a run in which a
handle from an earlier generation reads the bytes of a later one. */
module ExtReissue {
  import opened Basics
  import opened ExtState
  import opened ExtPages
  import opened ExtBuffers
  import opened ExtData
  import opened ExtRuns
  import opened ExtTheorems
  import opened ExtInit

  /** The pairs that the allocations of a run give out, in order, as they stand
  in the pages. */
  ghost function Issues(s: State, steps: seq<Step>): seq<(nat, nat)>
    requires Inv(s) && IsRun(s, steps)
    decreases |steps|
  {
    if steps == [] then []
    else
      StepInv(s, steps[0]);
      StepEffect(s, steps[0]);
      var s1 := Apply(s, steps[0]);
      (if s1.log == s.log then [] else [(Newest(s1), s1.pages[Newest(s1)].version)]) + Issues(s1, steps[1..])
  }

  /** Pairs k, k + 1, ... are the pages that the log names from n on, each with the
  version of the counter, which starts at 1 and wraps. */
  predicate Numbered(issues: seq<(nat, nat)>, log: seq<nat>, n: nat) {
    && |issues| == |log| - n
    && forall k :: 0 <= k < |issues| ==> issues[k] == (log[n + k], VersionOf(n + k))
  }

  lemma NumberedCons(rest: seq<(nat, nat)>, log: seq<nat>, n: nat, p: nat)
    requires Numbered(rest, log, n + 1) && n < |log| && log[n] == p
    ensures Numbered([(p, VersionOf(n))] + rest, log, n)
  {
    hide VersionOf;
  }

  /** An allocation gives the page the version of its number. */
  lemma StepIssues(s: State, step: Step)
    requires Inv(s) && Enabled(s, step)
    ensures var s' := Apply(s, step);
      s'.log == s.log || (s'.log != [] && Took(s, s', Newest(s')) && s'.pages[Newest(s')].version == VersionOf(|s.log|))
  {
    StepEffect(s, step);
    VersionKnown(s);
    hide Inv, Apply, VersionOf, Turn;
  }

  lemma {:induction false} IssuesAre(s: State, steps: seq<Step>)
    requires Inv(s) && IsRun(s, steps)
    ensures |s.log| <= |Final(s, steps).log| && Final(s, steps).log[..|s.log|] == s.log
    ensures Numbered(Issues(s, steps), Final(s, steps).log, |s.log|)
    decreases |steps|
  {
    hide Inv, Apply, Numbered, IsRun, Final, Issues, Enabled, VersionOf, Took;
    RunGrows(s, steps);
    if steps == [] {
      IssuesNone(s);
    } else {
      IssuesStep(s, steps);
      var s1 := Apply(s, steps[0]);
      IssuesAre(s1, steps[1..]);
      IssuesMore(s, steps[0], Issues(s1, steps[1..]), Final(s, steps).log);
    }
  }

  lemma IssuesNone(s: State)
    requires Inv(s)
    ensures Numbered(Issues(s, []), Final(s, []).log, |s.log|)
  {
    hide Inv;
  }

  /** The pair of one step in front of those of the rest. */
  lemma IssuesMore(s: State, step: Step, rest: seq<(nat, nat)>, log: seq<nat>)
    requires Inv(s) && Enabled(s, step)
    requires var s1 := Apply(s, step);
      |s1.log| <= |log| && log[..|s1.log|] == s1.log && Numbered(rest, log, |s1.log|)
    ensures var s1 := Apply(s, step);
      && (s1.log == s.log ==> Numbered(rest, log, |s.log|))
      && (s1.log != s.log ==> (
            && s1.log != [] && Newest(s1) < |s1.pages|
            && Numbered([(Newest(s1), s1.pages[Newest(s1)].version)] + rest, log, |s.log|)))
  {
    hide Inv, Apply, Numbered, Enabled, VersionOf;
    StepIssues(s, step);
    var s1 := Apply(s, step);
    if s1.log != s.log {
      assert log[..|s1.log|][|s.log|] == Newest(s1);
      NumberedCons(rest, log, |s.log|, Newest(s1));
    }
  }

  lemma IssuesStep(s: State, steps: seq<Step>)
    requires Inv(s) && IsRun(s, steps) && steps != []
    ensures Enabled(s, steps[0]) && Inv(Apply(s, steps[0])) && IsRun(Apply(s, steps[0]), steps[1..])
    ensures var s1 := Apply(s, steps[0]);
      && Final(s, steps) == Final(s1, steps[1..])
      && (s1.log == s.log ==> Issues(s, steps) == Issues(s1, steps[1..]))
      && (s1.log != s.log && s1.log != [] && Newest(s1) < |s1.pages| ==>
            Issues(s, steps) == [(Newest(s1), s1.pages[Newest(s1)].version)] + Issues(s1, steps[1..]))
  {
    hide Inv, Apply, Enabled;
    StepInv(s, steps[0]);
  }

  /** Two allocations of a run get the same pair. */
  ghost predicate IssuedTwice(issues: seq<(nat, nat)>) {
    exists i, j :: 0 <= i < j < |issues| && issues[i] == issues[j]
  }

  /** Two allocations from number n on are of the same page, and a multiple of
  2^32 allocations apart. */
  ghost predicate SamePageApart(log: seq<nat>, n: nat) {
    exists i, j :: n <= i < j < |log| && log[i] == log[j] && (j - i) % VERSIONS == 0
  }

  lemma TwiceIff(issues: seq<(nat, nat)>, log: seq<nat>, n: nat)
    requires Numbered(issues, log, n) && n <= |log|
    ensures IssuedTwice(issues) <==> SamePageApart(log, n)
  {
    hide VersionOf;
    if IssuedTwice(issues) {
      var i, j :| 0 <= i < j < |issues| && issues[i] == issues[j];
      VersionsRepeat(n + j, n + i);
      assert log[n + i] == log[n + j] && (n + j - (n + i)) % VERSIONS == 0;
    }
    if SamePageApart(log, n) {
      var i, j :| n <= i < j < |log| && log[i] == log[j] && (j - i) % VERSIONS == 0;
      VersionsRepeat(j, i);
      assert issues[i - n] == issues[j - n];
    }
  }

  /** Of all runs: a pair comes back exactly when some page is allocated twice
  with a multiple of 2^32 allocations in between. */
  lemma ReissuedIff(s: State, steps: seq<Step>)
    requires Inv(s) && IsRun(s, steps)
    ensures IssuedTwice(Issues(s, steps)) <==> SamePageApart(Final(s, steps).log, |s.log|)
  {
    IssuesAre(s, steps);
    TwiceIff(Issues(s, steps), Final(s, steps).log, |s.log|);
  }

  /** The number of the last allocation of p. */
  function Latest(log: seq<nat>, p: nat): (i: nat)
    requires p in log
    ensures i < |log| && log[i] == p && forall j :: i < j < |log| ==> log[j] != p
  {
    var n := |log| - 1;
    if log[n] == p then n else assert log == log[..n] + [log[n]]; Latest(log[..n], p)
  }

  /** Each page in use has the version of its last allocation. */
  ghost predicate Dated(s: State) {
    forall p :: 0 <= p < |s.pages| && !s.pages[p].free ==>
      p in s.log && s.pages[p].version == VersionOf(Latest(s.log, p))
  }

  lemma LatestIs(log: seq<nat>, p: nat, i: nat)
    requires i < |log| && log[i] == p && forall j :: i < j < |log| ==> log[j] != p
    ensures p in log && Latest(log, p) == i
  {}

  lemma StepDated(s: State, step: Step)
    requires Inv(s) && Enabled(s, step) && Dated(s)
    ensures Dated(Apply(s, step))
  {
    StepEffect(s, step);
    VersionKnown(s);
    var s' := Apply(s, step);
    hide Inv, Apply, VersionOf;
    forall p | 0 <= p < |s'.pages| && !s'.pages[p].free
      ensures p in s'.log && s'.pages[p].version == VersionOf(Latest(s'.log, p))
    {
      assert Turn(s, s', p);
      if s'.log == s.log + [p] {
        LatestIs(s'.log, p, |s.log|);
      } else {
        LatestIs(s'.log, p, Latest(s.log, p));
      }
    }
  }

  lemma {:induction false} RunDated(s: State, steps: seq<Step>)
    requires Inv(s) && Dated(s) && IsRun(s, steps)
    ensures Dated(Final(s, steps))
    decreases |steps|
  {
    if steps != [] {
      StepInv(s, steps[0]);
      StepDated(s, steps[0]);
      RunDated(Apply(s, steps[0]), steps[1..]);
    }
  }

  /** A handle of the k-th allocation is accepted later exactly when its page is
  in use, not closed, and last allocated a multiple of 2^32 allocations after
  the k-th, so by a stale handle as soon as that multiple is not 0. */
  lemma AcceptedIff(s: State, steps: seq<Step>, k: nat, h: Handle)
    requires Inv(s) && s.log == [] && IsRun(s, steps)
    requires var log := Final(s, steps).log; k < |log| && h.page == log[k] && h.version == VersionOf(k)
    requires h.page < |Final(s, steps).pages|
    ensures var s' := Final(s, steps); var g := s'.pages[h.page];
      Accepts(g, h) <==> !g.free && !g.closed && h.page in s'.log && (Latest(s'.log, h.page) - k) % VERSIONS == 0
  {
    hide Inv, IsRun, Final, VersionOf, Dated;
    NoneUsed(s);
    RunDated(s, steps);
    DatedAccepts(Final(s, steps), k, h);
  }

  lemma DatedAccepts(s: State, k: nat, h: Handle)
    requires Dated(s) && h.page < |s.pages| && h.version == VersionOf(k)
    ensures var g := s.pages[h.page];
      Accepts(g, h) <==> !g.free && !g.closed && h.page in s.log && (Latest(s.log, h.page) - k) % VERSIONS == 0
  {
    if !s.pages[h.page].free {
      VersionsRepeat(Latest(s.log, h.page), k);
    }
    hide VersionOf;
  }

  /** Before the first allocation no page is in use. */
  lemma NoneUsed(s: State)
    requires Inv(s) && s.log == []
    ensures Dated(s)
  {
    forall p | 0 <= p < |s.pages| ensures s.pages[p].free {
      assert VersionOk(s.pages[p], |s.log|);
    }
  }
}
