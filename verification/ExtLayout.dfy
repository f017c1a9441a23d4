/** How extstore_init spreads the pages over the files: round robin, each page
with its own stretch of its file. */
module ExtLayout {

  datatype File = File(pageCount: nat, freeBucket: nat)

  datatype Place = Place(file: nat, offset: nat, freeBucket: nat)

  function Total(files: seq<File>): nat {
    if files == [] then 0 else files[0].pageCount + Total(files[1..])
  }

  lemma {:induction false} TotalUpdate(files: seq<File>, f: nat, n: nat)
    requires f < |files|
    ensures Total(files[f := files[f].(pageCount := n)]) == Total(files) - files[f].pageCount + n
    ensures Total(files) >= files[f].pageCount
  {
    var files' := files[f := files[f].(pageCount := n)];
    if f == 0 {
      assert files'[1..] == files[1..];
    } else {
      assert files'[1..] == files[1..][f - 1 := files[f].(pageCount := n)];
      TotalUpdate(files[1..], f - 1, n);
    }
  }

  lemma {:induction false} SomeLeft(files: seq<File>) returns (f: nat)
    requires Total(files) > 0
    ensures f < |files| && files[f].pageCount > 0
  {
    if files[0].pageCount > 0 {
      f := 0;
    } else {
      f := SomeLeft(files[1..]);
      f := f + 1;
    }
  }

  /** Two places do not overlap. */
  predicate Apart(a: Place, b: Place, pageSize: nat) {
    a.file != b.file || a.offset + pageSize <= b.offset || b.offset + pageSize <= a.offset
  }

  /** The next file with pages left, going round after file f, or from the first
  file when f is -1. */
  method NextFile(files: seq<File>, f: int) returns (next: int)
    requires Total(files) > 0 && -1 <= f < |files|
    ensures 0 <= next < |files| && files[next].pageCount > 0
    ensures forall g :: 0 <= g < |files| && files[g].pageCount > 0 ==>
      (if g > f then g else |files| + g) >= (if next > f then next else |files| + next)
  {
    ghost var left := SomeLeft(files);
    next := f;
    var found := false;
    ghost var turns := 0;
    while !found
      invariant -1 <= next < |files| && (found ==> next >= 0 && files[next].pageCount > 0)
      invariant turns == 0 ==> next == f && !found
      invariant turns > 0 ==> next >= 0 && f + turns == (if next > f then next else |files| + next)
      invariant forall g :: 0 <= g < |files| && files[g].pageCount > 0 ==>
        (if g > f then g else |files| + g) >= (if found then f + turns else f + turns + 1)
      decreases if found then 0 else 1 + (if left > f then left else |files| + left) - (f + turns)
    {
      if next == -1 || next == |files| - 1 {
        next := 0;
      } else {
        next := next + 1;
      }
      turns := turns + 1;
      found := files[next].pageCount > 0;
    }
  }

  /** Every file gives exactly its number of pages, no two pages share a byte, and
  no page lies outside its file. */
  method Interleave(files0: seq<File>, pageSize: nat) returns (places: seq<Place>)
    ensures |places| == Total(files0)
    ensures forall i :: 0 <= i < |places| ==> (
      places[i].file < |files0| && places[i].freeBucket == files0[places[i].file].freeBucket &&
      places[i].offset + pageSize <= files0[places[i].file].pageCount * pageSize)
    ensures forall i, j :: 0 <= i < j < |places| ==> Apart(places[i], places[j], pageSize)
  {
    var files := files0;
    var offsets := seq(|files|, i => 0);
    var f := -1;
    var count := Total(files0);
    places := [];
    while |places| < count
      invariant |files| == |offsets| == |files0| && -1 <= f < |files| && |places| + Total(files) == count
      invariant forall g :: 0 <= g < |files| ==> (
        files[g].freeBucket == files0[g].freeBucket && offsets[g] >= 0 &&
        offsets[g] + files[g].pageCount * pageSize == files0[g].pageCount * pageSize)
      invariant forall i :: 0 <= i < |places| ==> (
        places[i].file < |files0| && places[i].freeBucket == files0[places[i].file].freeBucket &&
        places[i].offset + pageSize <= offsets[places[i].file])
      invariant forall i, j :: 0 <= i < j < |places| ==> Apart(places[i], places[j], pageSize)
    {
      f := NextFile(files, f);
      TotalUpdate(files, f, files[f].pageCount - 1);
      Less(files[f].pageCount, pageSize);
      files := files[f := files[f].(pageCount := files[f].pageCount - 1)];
      places := places + [Place(f, offsets[f], files[f].freeBucket)];
      offsets := offsets[f := offsets[f] + pageSize];
    }
    forall i | 0 <= i < |places|
      ensures places[i].offset + pageSize <= files0[places[i].file].pageCount * pageSize
    {
      assert files[places[i].file].pageCount * pageSize >= 0;
    }
  }

  lemma Less(n: nat, pageSize: nat)
    requires n > 0
    ensures n * pageSize == (n - 1) * pageSize + pageSize
  {}
}
