/** `SharedArena`, `SharedRegion` and `WorkerScratch` (thread_pool.mbt). */
module Arena {
  import opened Arithmetic
  import opened Int32
  import opened Kernels
  import opened Wrappers

  datatype Region = Region(offset: int, length: int)
  datatype Scratch = Scratch(region: Region, workers: int, wordsPerWorker: int)

  /** Pure reservation logic. */
  function ReserveRegion(cursor: int, length: int, capacity: int): (r: Result<(int, int)>)
    ensures 0 <= cursor <= capacity <= MAX ==>
      (r.Ok? <==> 0 <= length && cursor + length <= capacity)
      && (r.Ok? ==> r.value.0 == cursor && InRange(r.value.1) && cursor <= r.value.1 <= capacity)
  {
    if cursor < 0 || length < 0 || cursor > capacity || length > capacity - cursor then Refused
    else Ok((cursor, cursor + length))
  }

  predicate Inside(r: Region, capacity: int) {
    0 <= r.offset && 0 <= r.length && r.offset + r.length <= capacity
  }

  predicate Disjoint(a: Region, b: Region) {
    a.offset + a.length <= b.offset || b.offset + b.length <= a.offset
  }

  /** The regions handed out since the last reset fill [0, cursor) in order. */
  predicate Packed(regions: seq<Region>, cursor: int)
    decreases |regions|
  {
    if regions == [] then cursor == 0
    else
      var last := regions[|regions| - 1];
      0 <= last.length && last.offset + last.length == cursor && Packed(regions[..|regions| - 1], last.offset)
  }

  lemma {:induction false} PackedInside(regions: seq<Region>, cursor: int, k: nat)
    requires Packed(regions, cursor) && k < |regions|
    ensures Inside(regions[k], cursor)
    decreases |regions|
  {
    var last := regions[|regions| - 1];
    if k < |regions| - 1 {
      PackedInside(regions[..|regions| - 1], last.offset, k);
    } else {
      PackedPositive(regions[..|regions| - 1], last.offset);
    }
  }

  lemma {:induction false} PackedPositive(regions: seq<Region>, cursor: int)
    requires Packed(regions, cursor)
    ensures 0 <= cursor
    decreases |regions|
  {
    if regions != [] {
      PackedPositive(regions[..|regions| - 1], regions[|regions| - 1].offset);
    }
  }

  /** Two regions of one arena generation never overlap. */
  lemma {:induction false} PackedDisjoint(regions: seq<Region>, cursor: int, j: nat, k: nat)
    requires Packed(regions, cursor) && j < k < |regions|
    ensures Disjoint(regions[j], regions[k])
    decreases |regions|
  {
    var last := regions[|regions| - 1];
    if k < |regions| - 1 {
      PackedDisjoint(regions[..|regions| - 1], last.offset, j, k);
    } else {
      PackedInside(regions[..|regions| - 1], last.offset, j);
    }
  }

  /** `regions` is the specification's record of what was allocated since the last reset. */
  class SharedArena {
    const capacity: int
    var cursor: int
    ghost var regions: seq<Region>

    ghost predicate Valid()
      reads this
    {
      0 <= cursor <= capacity <= MAX && Packed(regions, cursor)
    }

    constructor (capacity: int)
      requires 0 <= capacity <= MAX
      ensures Valid() && this.capacity == capacity && cursor == 0 && regions == []
    {
      this.capacity := capacity;
      cursor := 0;
      regions := [];
    }

    method Reset()
      requires Valid()
      modifies this
      ensures Valid() && cursor == 0 && regions == []
    {
      cursor := 0;
      regions := [];
    }

    /** Succeeds exactly when the words are there; a refused request changes nothing. */
    method Allocate(length: int) returns (r: Result<Region>)
      requires Valid()
      modifies this
      ensures Valid()
      ensures r.Ok? <==> 0 <= length <= capacity - old(cursor)
      ensures r.Ok? ==> r.value == Region(old(cursor), length) && regions == old(regions) + [r.value]
      ensures r.Refused? ==> cursor == old(cursor) && regions == old(regions)
    {
      match ReserveRegion(cursor, length, capacity)
      case Ok(pair) =>
        r := Ok(Region(pair.0, length));
        cursor := pair.1;
        regions := regions + [r.value];
        assert regions[..|regions| - 1] == old(regions);
      case Refused =>
        r := Refused;
    }

    method AllocateWorkerScratch(workers: int, wordsPerWorker: int) returns (r: Result<Scratch>)
      requires Valid() && workers <= MAX && wordsPerWorker <= MAX
      modifies this
      ensures Valid()
      ensures r.Ok? <==> 0 < workers && 0 <= wordsPerWorker && workers * wordsPerWorker <= capacity - old(cursor)
      ensures r.Ok? ==> ProperScratch(r.value) && r.value.workers == workers
                        && r.value.wordsPerWorker == wordsPerWorker && regions == old(regions) + [r.value.region]
      ensures r.Refused? ==> cursor == old(cursor) && regions == old(regions)
    {
      r := Refused;
      ScratchGuard(workers, wordsPerWorker);
      if !(workers <= 0 || wordsPerWorker < 0 || (wordsPerWorker > 0 && workers > MAX / wordsPerWorker)) {
        var region := Allocate(workers * wordsPerWorker);
        if region.Ok? {
          r := Ok(Scratch(region.value, workers, wordsPerWorker));
        }
      }
    }
  }

  /** The division guard accepts exactly the products that fit Int32. */
  lemma {:induction false} ScratchGuard(workers: int, words: int)
    requires workers <= MAX && words <= MAX
    ensures !(workers <= 0 || words < 0 || (words > 0 && workers > MAX / words)) <==>
      0 < workers && 0 <= words && workers * words <= MAX
    ensures 0 < workers && 0 <= words ==> 0 <= workers * words
  {
    if 0 < workers && 0 < words { QuotientAtLeast(MAX, workers, words); }
  }

  /** A scratch area made of equal parts inside Int32. */
  predicate ProperScratch(s: Scratch) {
    && 0 < s.workers && 0 <= s.wordsPerWorker && s.region.length == s.workers * s.wordsPerWorker
    && 0 <= s.region.offset && s.region.offset + s.region.length <= MAX
  }

  /** None stands for the abort. */
  function WorkerRegion(s: Scratch, worker: int): Result<Region> {
    if worker < 0 || worker >= s.workers then Refused
    else Ok(Region(s.region.offset + worker * s.wordsPerWorker, s.wordsPerWorker))
  }

  /** The workers' parts lie inside the scratch area, in the order of the workers, and do not overlap. */
  lemma {:induction false} WorkerRegionsDisjoint(s: Scratch, v: int, w: int)
    requires ProperScratch(s) && 0 <= v < w < s.workers
    ensures forall u :: WorkerRegion(s, u).Ok? <==> 0 <= u < s.workers
    ensures Disjoint(WorkerRegion(s, v).value, WorkerRegion(s, w).value)
    ensures
      var first, second := WorkerRegion(s, v).value, WorkerRegion(s, w).value;
      && first.length == second.length == s.wordsPerWorker && s.region.offset <= first.offset
      && first.offset + first.length <= second.offset
      && second.offset + second.length <= s.region.offset + s.region.length
  {
    MulOrder(0, v, s.wordsPerWorker);
    MulOrder(v + 1, w, s.wordsPerWorker);
    MulOrder(w + 1, s.workers, s.wordsPerWorker);
    assert (v + 1) * s.wordsPerWorker == v * s.wordsPerWorker + s.wordsPerWorker;
    assert (w + 1) * s.wordsPerWorker == w * s.wordsPerWorker + s.wordsPerWorker;
  }

  // ---- words of a region

  /** Out-of-range indices abort. */
  function AbsoluteIndex(r: Region, index: int): Result<int> {
    if index < 0 || index >= r.length then Refused else Ok(r.offset + index)
  }

  /** The indices of a region are, in order and exactly, the words it covers. */
  lemma {:induction false} IndicesCoverRegion(r: Region, x: int)
    ensures r.offset <= x < r.offset + r.length <==> exists i :: AbsoluteIndex(r, i) == Ok(x)
    ensures forall i, j :: i < j && AbsoluteIndex(r, i).Ok? && AbsoluteIndex(r, j).Ok? ==>
      AbsoluteIndex(r, i).value < AbsoluteIndex(r, j).value
  {
    if r.offset <= x < r.offset + r.length { assert AbsoluteIndex(r, x - r.offset) == Ok(x); }
  }

  method Fill(values: array<int>, r: Region, value: int)
    requires Inside(r, values.Length)
    modifies values
    ensures forall x :: 0 <= x < values.Length ==>
      values[x] == if r.offset <= x < r.offset + r.length then value else old(values[x])
  {
    for index := 0 to r.length
      invariant forall x :: 0 <= x < values.Length ==>
        values[x] == if r.offset <= x < r.offset + index then value else old(values[x])
    {
      values[r.offset + index] := value;
    }
  }

  /** A store through one region is invisible through every region disjoint from it. */
  lemma {:induction false} StoreFrame(data: seq<int>, a: Region, i: int, b: Region, j: int, value: int)
    requires Disjoint(a, b) && AbsoluteIndex(a, i).Ok? && AbsoluteIndex(b, j).Ok?
    ensures Load(Store(data, AbsoluteIndex(a, i).value, value), AbsoluteIndex(b, j).value) ==
      Load(data, AbsoluteIndex(b, j).value)
  {}
}
