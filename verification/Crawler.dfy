/** The LRU crawler of crawler.c over one class list: a pseudo-item that walks
from the tail to the head by changing places with its neighbour while other
items are linked, unlinked and moved. */
module Crawler {
  import opened Basics
  import opened LruList

  /** `returned` is what do_item_crawl_q has handed out in the current crawl, and
  `examined` the part of it that the crawler thread went on to look at. */
  datatype Sys = Sys(list: seq<Addr>, running: bool, remaining: nat, returned: seq<Addr>, examined: seq<Addr>)

  /** Quit: the client of the crawl is gone, and the class is done without a turn. */
  datatype Step = LinkItem(a: Addr) | UnlinkItem(a: Addr) | CrawlStep | Quit

  function Remove(s: seq<Addr>, a: Addr): seq<Addr> {
    var i := IndexOf(s, a);
    if i < |s| then Without(s, i) else s
  }

  ghost predicate Inv(c: Addr, s: Sys) {
    Distinct(s.list) && (s.running <==> c in s.list)
  }

  predicate Enabled(c: Addr, s: Sys, step: Step) {
    match step
    case LinkItem(a) => a != c && a !in s.list
    case UnlinkItem(a) => a != c && a in s.list
    case CrawlStep => s.running
    case Quit => s.running
  }

  /** do_lru_crawler_start on an idle class: `request` is the remaining argument,
  None for LRU_CRAWLER_CAP_REMAINING. */
  datatype Request = Cap | Upto(n: nat)

  function Limit(list: seq<Addr>, request: Request): nat {
    match request case Cap => |list| case Upto(n) => n
  }

  function Start(c: Addr, list: seq<Addr>, request: Request): Sys {
    var remaining := Limit(list, request);
    Sys(list + [c], true, if remaining > 0 then remaining + 1 else 0, [], [])
  }

  /** lru_crawler_class_done. */
  function ClassDone(c: Addr, s: Sys): Sys {
    s.(list := Remove(s.list, c), running := false)
  }

  /** The body of the crawler thread's loop for this class. */
  function CrawlOnce(c: Addr, s: Sys): Sys
    requires c in s.list
  {
    var i := IndexOf(s.list, c);
    if i == 0 then ClassDone(c, s)
    else
      var search := s.list[i - 1];
      var s1 := s.(list := Swapped(s.list, i), returned := s.returned + [search]);
      if s.remaining > 0 && s.remaining - 1 < 1 then ClassDone(c, s1.(remaining := 0))
      else s1.(remaining := if s.remaining > 0 then s.remaining - 1 else 0, examined := s.examined + [search])
  }

  function Apply(c: Addr, s: Sys, step: Step): Sys
    requires step.CrawlStep? ==> c in s.list
  {
    match step
    case LinkItem(a) => s.(list := [a] + s.list)
    case UnlinkItem(a) => s.(list := Remove(s.list, a))
    case CrawlStep => CrawlOnce(c, s)
    case Quit => ClassDone(c, s)
  }

  /** The real items of a list, in order. */
  function Items(c: Addr, s: seq<Addr>): seq<Addr> {
    if s == [] then [] else (if s[0] == c then [] else [s[0]]) + Items(c, s[1..])
  }

  lemma {:induction false} ItemsConcat(c: Addr, s: seq<Addr>, t: seq<Addr>)
    ensures Items(c, s + t) == Items(c, s) + Items(c, t)
  {
    if s == [] {
      assert s + t == t;
    } else {
      assert (s + t)[1..] == s[1..] + t;
      ItemsConcat(c, s[1..], t);
    }
  }

  lemma ItemsOfPair(c: Addr, a: Addr)
    ensures Items(c, [a, c]) == Items(c, [c, a]) && Items(c, [c]) == []
  {
    assert [a, c][1..] == [c] && [c, a][1..] == [a] && [c][1..] == [] && [a][1..] == [];
  }

  /** Crawling never reorders or loses an item: not by swapping, and not when
  the crawler leaves the list. */
  lemma CrawlKeepsItems(c: Addr, s: Sys)
    requires c in s.list
    ensures Items(c, CrawlOnce(c, s).list) == Items(c, s.list)
  {
    var i := IndexOf(s.list, c);
    if i == 0 {
      RemoveKeepsItems(c, s.list);
    } else {
      var l := s.list;
      var pre, post := l[..i - 1], l[i + 1..];
      assert l == pre + [l[i - 1], c] + post;
      assert Swapped(l, i) == pre + [c, l[i - 1]] + post;
      ItemsConcat(c, pre + [l[i - 1], c], post);
      ItemsConcat(c, pre, [l[i - 1], c]);
      ItemsConcat(c, pre + [c, l[i - 1]], post);
      ItemsConcat(c, pre, [c, l[i - 1]]);
      ItemsOfPair(c, l[i - 1]);
      assert Items(c, Swapped(l, i)) == Items(c, l);
      assert Swapped(l, i)[i - 1] == c;
      RemoveKeepsItems(c, Swapped(l, i));
    }
  }

  lemma RemoveKeepsItems(c: Addr, s: seq<Addr>)
    ensures Items(c, Remove(s, c)) == Items(c, s)
  {
    hide Items;
    var i := IndexOf(s, c);
    if i < |s| {
      var pre, post := s[..i], s[i + 1..];
      assert s == pre + [c] + post && Remove(s, c) == pre + post;
      ItemsConcat(c, pre + [c], post);
      ItemsConcat(c, pre, [c]);
      ItemsConcat(c, pre, post);
      ItemsOfPair(c, c);
    }
  }

  lemma RemoveFacts(s: seq<Addr>, a: Addr)
    requires Distinct(s)
    ensures Distinct(Remove(s, a)) && a !in Remove(s, a)
    ensures forall b :: b != a ==> (b in Remove(s, a) <==> b in s)
    ensures forall b, d :: b != a && d != a && b in s && d in s ==>
      (IndexOf(Remove(s, a), b) < IndexOf(Remove(s, a), d) <==> IndexOf(s, b) < IndexOf(s, d))
  {
    var i := IndexOf(s, a);
    if i < |s| {
      var r := Without(s, i);
      forall b | b != a && b in s
        ensures b in r && IndexOf(r, b) == if IndexOf(s, b) < i then IndexOf(s, b) else IndexOf(s, b) - 1
      {
        var k := IndexOf(s, b);
        var k' := if k < i then k else k - 1;
        assert r[k'] == b;
        IndexUnique(r, k');
      }
    }
  }

  /** The crawl was started without a limit, or ended before its limit. */
  predicate ReachedHead(s: Sys, limit: nat) { limit == 0 || s.remaining > 0 }

  /** Where an untouched item stands: still ahead of the crawler and not returned
  yet, or behind it and returned once; at the end, returned once. */
  ghost predicate Tracked(c: Addr, s: Sys, limit: nat, x: Addr) {
    && x != c && x in s.list
    && (s.running ==> Times(s.returned, x) == if IndexOf(s.list, x) < IndexOf(s.list, c) then 0 else 1)
    && (!s.running && ReachedHead(s, limit) ==> Times(s.returned, x) == 1)
  }

  /** `remaining` is 0 for a crawl without a limit, and otherwise one more than
  the number of items still to be examined. */
  ghost predicate Counted(s: Sys, limit: nat) {
    if limit == 0 then s.remaining == 0 && s.examined == s.returned
    else |s.examined| <= limit && (s.running ==> s.remaining >= 1 && |s.examined| + s.remaining == limit + 1)
  }

  lemma StepInv(c: Addr, s: Sys, step: Step, limit: nat)
    requires Inv(c, s) && Enabled(c, s, step) && Counted(s, limit)
    ensures Inv(c, Apply(c, s, step)) && Counted(Apply(c, s, step), limit)
  {
    match step
    case LinkItem(a) =>
    case UnlinkItem(a) =>
      RemoveFacts(s.list, a);
    case CrawlStep =>
      CrawlInv(c, s);
    case Quit =>
      RemoveFacts(s.list, c);
  }

  lemma CrawlInv(c: Addr, s: Sys)
    requires Inv(c, s) && s.running
    ensures Inv(c, CrawlOnce(c, s))
  {
    var i := IndexOf(s.list, c);
    if i == 0 {
      RemoveFacts(s.list, c);
    } else {
      SwapFacts(s.list, i);
      RemoveFacts(Swapped(s.list, i), c);
    }
  }

  lemma SwapFacts(s: seq<Addr>, i: nat)
    requires Distinct(s) && 0 < i < |s|
    ensures Distinct(Swapped(s, i))
    ensures forall b :: b in Swapped(s, i) <==> b in s
    ensures IndexOf(Swapped(s, i), s[i]) == i - 1 && IndexOf(Swapped(s, i), s[i - 1]) == i
    ensures forall b :: b in s && b != s[i] && b != s[i - 1] ==> IndexOf(Swapped(s, i), b) == IndexOf(s, b)
  {
    var t := Swapped(s, i);
    SwapDistinct(s, i);
    hide Distinct;
    assert t[i] == s[i - 1] && t[i - 1] == s[i];
    IndexUnique(t, i);
    IndexUnique(t, i - 1);
    hide Swapped;
    forall b ensures b in t <==> b in s { SwapMember(s, i, b); }
    forall b | b in s && b != s[i] && b != s[i - 1] ensures IndexOf(t, b) == IndexOf(s, b) { SwapElsewhere(s, i, b); }
  }

  lemma SwapDistinct(s: seq<Addr>, i: nat)
    requires Distinct(s) && 0 < i < |s|
    ensures Distinct(Swapped(s, i))
  {}

  lemma SwapMember(s: seq<Addr>, i: nat, b: Addr)
    requires 0 < i < |s|
    ensures b in Swapped(s, i) <==> b in s
  {
    var t := Swapped(s, i);
    assert t[i] == s[i - 1] && t[i - 1] == s[i];
    if b in s {
      var k := IndexOf(s, b);
      if k != i && k != i - 1 { assert t[k] == b; }
    }
    if b in t {
      var k := IndexOf(t, b);
      if k != i && k != i - 1 { assert s[k] == b; }
    }
  }

  lemma SwapElsewhere(s: seq<Addr>, i: nat, b: Addr)
    requires 0 < i < |s| && Distinct(Swapped(s, i)) && b in s && b != s[i] && b != s[i - 1]
    ensures IndexOf(Swapped(s, i), b) == IndexOf(s, b)
  {
    assert Swapped(s, i)[IndexOf(s, b)] == b;
    IndexUnique(Swapped(s, i), IndexOf(s, b));
  }

  lemma StepTracks(c: Addr, s: Sys, step: Step, limit: nat, x: Addr)
    requires Inv(c, s) && Enabled(c, s, step) && Counted(s, limit) && Tracked(c, s, limit, x)
    requires step != UnlinkItem(x) && !step.Quit?
    ensures Tracked(c, Apply(c, s, step), limit, x)
  {
    match step
    case LinkItem(a) =>
      assert IndexOf([a] + s.list, x) == 1 + IndexOf(s.list, x);
      assert IndexOf([a] + s.list, c) == 1 + IndexOf(s.list, c);
    case UnlinkItem(a) =>
      RemoveFacts(s.list, a);
    case CrawlStep =>
      CrawlTracks(c, s, limit, x);
  }

  lemma CrawlTracks(c: Addr, s: Sys, limit: nat, x: Addr)
    requires Inv(c, s) && s.running && Counted(s, limit) && Tracked(c, s, limit, x)
    ensures Tracked(c, CrawlOnce(c, s), limit, x)
  {
    hide Times, Remove, Swapped, IndexOf, Distinct;
    var i := IndexOf(s.list, c);
    RemoveFacts(s.list, c);
    if i > 0 {
      var search := s.list[i - 1];
      SwapFacts(s.list, i);
      RemoveFacts(Swapped(s.list, i), c);
      TimesSnoc(s.returned, search, x);
      IndexUnique(s.list, i - 1);
      if x != search { SamePosition(s.list, x, i); }
    }
  }

  lemma SamePosition(s: seq<Addr>, x: Addr, i: nat)
    requires Distinct(s) && 0 < i < |s| && x in s && x != s[i - 1]
    ensures IndexOf(s, x) < i <==> IndexOf(s, x) < i - 1
  {}

  ghost predicate IsRun(c: Addr, s: Sys, steps: seq<Step>)
    decreases |steps|
  {
    steps == [] || (
      && Enabled(c, s, steps[0]) && (steps[0].CrawlStep? ==> c in s.list)
      && IsRun(c, Apply(c, s, steps[0]), steps[1..]))
  }

  ghost function Final(c: Addr, s: Sys, steps: seq<Step>): Sys
    requires IsRun(c, s, steps)
    decreases |steps|
  {
    if steps == [] then s else Final(c, Apply(c, s, steps[0]), steps[1..])
  }

  lemma {:induction false} RunInv(c: Addr, s: Sys, steps: seq<Step>, limit: nat)
    requires Inv(c, s) && Counted(s, limit) && IsRun(c, s, steps)
    ensures Inv(c, Final(c, s, steps)) && Counted(Final(c, s, steps), limit)
    decreases |steps|
  {
    if steps != [] {
      hide Inv, Counted, Apply, Enabled;
      StepInv(c, s, steps[0], limit);
      RunInv(c, Apply(c, s, steps[0]), steps[1..], limit);
    }
  }

  lemma {:induction false} RunTracks(c: Addr, s: Sys, steps: seq<Step>, limit: nat, x: Addr)
    requires Inv(c, s) && Counted(s, limit) && IsRun(c, s, steps) && Tracked(c, s, limit, x)
    requires UnlinkItem(x) !in steps && Quit !in steps
    ensures Tracked(c, Final(c, s, steps), limit, x)
    decreases |steps|
  {
    if steps != [] {
      hide Inv, Counted, Apply, Enabled, Tracked;
      StepInv(c, s, steps[0], limit);
      StepTracks(c, s, steps[0], limit, x);
      RunTracks(c, Apply(c, s, steps[0]), steps[1..], limit, x);
    }
  }

  lemma StartFacts(c: Addr, list: seq<Addr>, request: Request)
    requires Distinct(list) && c !in list
    ensures Inv(c, Start(c, list, request)) && Counted(Start(c, list, request), Limit(list, request))
    ensures forall x :: x in list ==> Tracked(c, Start(c, list, request), Limit(list, request), x)
  {
    var s := Start(c, list, request);
    IndexUnique(s.list, |list|);
    forall x | x in list ensures Tracked(c, s, Limit(list, request), x) {
      IndexUnique(s.list, IndexOf(list, x));
    }
  }

  /** Every item linked before the crawl and not unlinked during it is returned
  exactly once by the time the crawler reaches the head, whatever other items
  are linked and unlinked meanwhile; unless its client goes away. */
  lemma CrawlVisitsOnce(c: Addr, list: seq<Addr>, request: Request, steps: seq<Step>, x: Addr)
    requires Distinct(list) && c !in list && x in list
    requires IsRun(c, Start(c, list, request), steps) && UnlinkItem(x) !in steps && Quit !in steps
    requires var s := Final(c, Start(c, list, request), steps);
      !s.running && ReachedHead(s, Limit(list, request))
    ensures Times(Final(c, Start(c, list, request), steps).returned, x) == 1
  {
    StartFacts(c, list, request);
    RunTracks(c, Start(c, list, request), steps, Limit(list, request), x);
  }

  /** A crawl with a limit of n examines at most n items; one without a limit
  examines everything it is handed. */
  lemma CrawlExamines(c: Addr, list: seq<Addr>, request: Request, steps: seq<Step>)
    requires Distinct(list) && c !in list && IsRun(c, Start(c, list, request), steps)
    ensures var s := Final(c, Start(c, list, request), steps);
      if Limit(list, request) == 0 then s.examined == s.returned else |s.examined| <= Limit(list, request)
  {
    StartFacts(c, list, request);
    RunInv(c, Start(c, list, request), steps, Limit(list, request));
  }
}
