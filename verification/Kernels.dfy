/**
 Range kernels over the shared `Int32` data region, one index at a time.

 A kernel loads `header` words when it is entered. For an index i it then loads the words
 `sources(i)` one by one, folds them into its result and, if it `writes`, stores `value(i)` at
 i + `shift`. Every kernel the repository ships except `write_worker_id` has this shape.
 */
module Kernels {
  import opened Int32

  datatype Kernel = Kernel(
    header: nat,
    writes: bool,
    shift: (int, seq<int>) -> int,
    sources: (int, seq<int>, int) -> seq<int>,
    value: (int, seq<int>, int, seq<int>) -> int,
    fold: (int, seq<int>) -> int)

  /** `SharedSlice::load`: an index outside the typed array reads `undefined | 0`. */
  function Load(data: seq<int>, index: int): int {
    if 0 <= index < |data| then data[index] else 0
  }

  /** `SharedSlice::store`: a store outside the typed array has no effect. */
  function Store(data: seq<int>, index: int, value: int): (r: seq<int>)
    ensures |r| == |data|
    ensures forall x :: 0 <= x < |data| ==> r[x] == if x == index then value else data[x]
  {
    if 0 <= index < |data| then data[index := value] else data
  }

  function Loaded(data: seq<int>, addresses: seq<int>): (buffer: seq<int>)
    ensures |buffer| == |addresses|
    ensures forall j :: 0 <= j < |addresses| ==> buffer[j] == Load(data, addresses[j])
  {
    seq(|addresses|, j requires 0 <= j < |addresses| => Load(data, addresses[j]))
  }

  /** The header words a kernel finds when it is entered. */
  function Header(k: Kernel, data: seq<int>): (words: seq<int>)
    ensures |words| == k.header
    ensures forall j :: 0 <= j < k.header ==> words[j] == Load(data, j)
  {
    seq(k.header, j => Load(data, j))
  }

  /** The word a kernel computes for one index of some memory. */
  function Output(k: Kernel, argument: int, header: seq<int>, data: seq<int>, index: int): int {
    k.value(argument, header, index, Loaded(data, k.sources(argument, header, index)))
  }

  function Touch(k: Kernel, argument: int, header: seq<int>, data: seq<int>, index: int): (r: seq<int>)
    ensures |r| == |data|
  {
    if k.writes then
      Store(data, index + k.shift(argument, header), Output(k, argument, header, data, index))
    else data
  }

  /** The memory one sequential call over [lo, hi) leaves. */
  function Run(k: Kernel, argument: int, header: seq<int>, data: seq<int>, lo: int, hi: int): (r: seq<int>)
    ensures |r| == |data|
    decreases hi - lo
  {
    if lo >= hi then data
    else Touch(k, argument, header, Run(k, argument, header, data, lo, hi - 1), hi - 1)
  }

  /** The result one sequential call over [lo, hi) of an unchanged memory returns. */
  function Result(k: Kernel, argument: int, header: seq<int>, data: seq<int>, lo: int, hi: int): int
    decreases hi - lo
  {
    if lo >= hi then 0
    else k.fold(Result(k, argument, header, data, lo, hi - 1), Loaded(data, k.sources(argument, header, hi - 1)))
  }

  /**
   No index of [lo, hi) reads a word that another index of the range writes, and no index writes
   a header word: the condition under which the pieces of a range may run in any order.
   */
  ghost predicate RaceFree(k: Kernel, argument: int, header: seq<int>, lo: int, hi: int) {
    k.writes && lo < hi ==>
      var shift := k.shift(argument, header);
      && (k.header == 0 || k.header <= lo + shift)
      && forall i, a :: lo <= i < hi && a in k.sources(argument, header, i) ==>
           a == i + shift || a < lo + shift || hi + shift <= a
  }

  /** Two memories that agree on the words an index reads give it the same output. */
  lemma SameLoads(k: Kernel, argument: int, header: seq<int>, d: seq<int>, e: seq<int>, index: int)
    requires forall a :: a in k.sources(argument, header, index) ==> Load(d, a) == Load(e, a)
    ensures Loaded(d, k.sources(argument, header, index)) == Loaded(e, k.sources(argument, header, index))
  {
    var addresses := k.sources(argument, header, index);
    forall j | 0 <= j < |addresses| ensures Loaded(d, addresses)[j] == Loaded(e, addresses)[j] {
      assert addresses[j] in addresses;
    }
  }

  /** A race-free sequential call maps every word independently of the others. */
  lemma {:induction false} RunPointwise(k: Kernel, argument: int, header: seq<int>, data: seq<int>, lo: int, hi: int)
    requires RaceFree(k, argument, header, lo, hi)
    ensures forall x :: 0 <= x < |data| ==>
      Run(k, argument, header, data, lo, hi)[x] ==
      if k.writes && lo <= x - k.shift(argument, header) < hi
      then Output(k, argument, header, data, x - k.shift(argument, header))
      else data[x]
    decreases hi - lo
  {
    if lo < hi {
      RunPointwise(k, argument, header, data, lo, hi - 1);
      var before := Run(k, argument, header, data, lo, hi - 1);
      if k.writes {
        SameLoads(k, argument, header, before, data, hi - 1);
      }
    }
  }

  /** The same for one word. */
  lemma {:induction false} RunAt(k: Kernel, argument: int, header: seq<int>, data: seq<int>, lo: int, hi: int, x: nat)
    requires RaceFree(k, argument, header, lo, hi) && x < |data|
    ensures Run(k, argument, header, data, lo, hi)[x] ==
      if k.writes && lo <= x - k.shift(argument, header) < hi
      then Output(k, argument, header, data, x - k.shift(argument, header))
      else data[x]
  {
    RunPointwise(k, argument, header, data, lo, hi);
  }

  /** A call over a range equals the calls over two consecutive pieces of it, whatever the kernel. */
  lemma {:induction false} RunSplit(k: Kernel, argument: int, header: seq<int>, data: seq<int>, lo: int, mid: int,
                                    hi: int)
    requires lo <= mid <= hi
    ensures Run(k, argument, header, data, lo, hi) ==
      Run(k, argument, header, Run(k, argument, header, data, lo, mid), mid, hi)
    decreases hi - mid
  {
    if mid < hi {
      RunSplit(k, argument, header, data, lo, mid, hi - 1);
    }
  }

  // ---- the kernels of examples/mix_worker/main.mbt

  function Mix(value: int): int {
    Wrap(value * 1664525 + 1013904223)
  }

  function MixRounds(value: int, rounds: int): int
    decreases rounds
  {
    if rounds <= 0 then value else Mix(MixRounds(value, rounds - 1))
  }

  function MixKernel(): Kernel {
    Kernel(0, true, (argument, header) => 0, (argument, header, i) => [i],
           (argument, header, i, buffer: seq<int>) => MixRounds(Load(buffer, 0), argument), (acc, buffer) => 0)
  }

  function AddKernel(): Kernel {
    Kernel(0, true, (argument, header) => 0, (argument, header, i) => [i],
           (argument, header, i, buffer: seq<int>) => Wrap(Load(buffer, 0) + argument), (acc, buffer) => 0)
  }

  function SumKernel(): Kernel {
    Kernel(0, false, (argument, header) => 0, (argument, header, i) => [i],
           (argument, header, i, buffer: seq<int>) => 0, (acc, buffer: seq<int>) => Wrap(acc + Load(buffer, 0)))
  }

  function ZipAddKernel(): Kernel {
    Kernel(0, true, (argument, header) => 0, (argument, header, i) => [i, i + argument],
           (argument, header, i, buffer: seq<int>) => Wrap(Load(buffer, 0) + Load(buffer, 1)), (acc, buffer) => 0)
  }

  /** What the two in-place kernels store, in terms of the word they find. */
  lemma InPlaceOutput(data: seq<int>, argument: int, index: int)
    ensures Output(MixKernel(), argument, [], data, index) == MixRounds(Load(data, index), argument)
    ensures Output(AddKernel(), argument, [], data, index) == Wrap(Load(data, index) + argument)
  {
    assert Loaded(data, [index]) == [Load(data, index)];
  }

  lemma {:induction false} MixRoundsAdd(value: int, r1: nat, r2: nat)
    ensures MixRounds(MixRounds(value, r1), r2) == MixRounds(value, r1 + r2)
    decreases r2
  {
    if r2 > 0 {
      MixRoundsAdd(value, r1, r2 - 1);
    }
  }

  /** A mix call advances every word of its range by `rounds` rounds and nothing else. */
  lemma {:induction false} MixPointwise(data: seq<int>, rounds: int, lo: int, hi: int)
    ensures forall x :: 0 <= x < |data| ==>
      Run(MixKernel(), rounds, [], data, lo, hi)[x] == if lo <= x < hi then MixRounds(data[x], rounds) else data[x]
  {
    RunPointwise(MixKernel(), rounds, [], data, lo, hi);
    forall x | 0 <= x < |data|
      ensures Output(MixKernel(), rounds, [], data, x) == MixRounds(data[x], rounds)
    {
      InPlaceOutput(data, rounds, x);
    }
  }

  /** Two successive mix dispatches equal one with the rounds added. */
  lemma {:induction false} MixCompose(data: seq<int>, r1: nat, r2: nat, lo: int, hi: int)
    ensures Run(MixKernel(), r2, [], Run(MixKernel(), r1, [], data, lo, hi), lo, hi) ==
            Run(MixKernel(), r1 + r2, [], data, lo, hi)
  {
    var first := Run(MixKernel(), r1, [], data, lo, hi);
    var both := Run(MixKernel(), r2, [], first, lo, hi);
    var once := Run(MixKernel(), r1 + r2, [], data, lo, hi);
    MixPointwise(data, r1, lo, hi);
    MixPointwise(first, r2, lo, hi);
    MixPointwise(data, r1 + r2, lo, hi);
    forall x | 0 <= x < |data| ensures both[x] == once[x] {
      MixRoundsAdd(data[x], r1, r2);
    }
  }

  /** `zip_add` is race free exactly when its right operand does not overlap what others write. */
  lemma {:induction false} ZipRaceFree(delta: int, lo: int, hi: int)
    ensures RaceFree(ZipAddKernel(), delta, [], lo, hi) <==>
            (lo < hi ==> delta == 0 || delta >= hi - lo || delta <= lo - hi)
  {
    var k := ZipAddKernel();
    if lo < hi {
      forall i ensures k.sources(delta, [], i) == [i, i + delta] {}
      if RaceFree(k, delta, [], lo, hi) && delta != 0 {
        assert lo + delta in k.sources(delta, [], lo);
        assert hi - 1 + delta in k.sources(delta, [], hi - 1);
      }
    }
  }

  method MixRange(shared: array<int>, start: int, end: int, rounds: int)
    requires 0 <= start <= end <= shared.Length
    modifies shared
    ensures shared[..] == Run(MixKernel(), rounds, [], old(shared[..]), start, end)
  {
    for index := start to end
      invariant shared[..] == Run(MixKernel(), rounds, [], old(shared[..]), start, index)
    {
      ghost var before := shared[..];
      var value := shared[index];
      var round := 0;
      while round < rounds
        invariant 0 <= round && (round <= rounds || round == 0)
        invariant value == MixRounds(shared[index], round)
      {
        value := Mix(value);
        round := round + 1;
      }
      InPlaceOutput(before, rounds, index);
      shared[index] := value;
    }
  }

  method AddRange(shared: array<int>, start: int, end: int, delta: int)
    requires 0 <= start <= end <= shared.Length
    modifies shared
    ensures shared[..] == Run(AddKernel(), delta, [], old(shared[..]), start, end)
  {
    for index := start to end
      invariant shared[..] == Run(AddKernel(), delta, [], old(shared[..]), start, index)
    {
      ghost var before := shared[..];
      InPlaceOutput(before, delta, index);
      shared[index] := Wrap(shared[index] + delta);
    }
  }

  method SumRange(shared: array<int>, start: int, end: int) returns (result: int)
    requires 0 <= start <= end <= shared.Length
    ensures result == Result(SumKernel(), 0, [], shared[..], start, end)
  {
    result := 0;
    for index := start to end
      invariant result == Result(SumKernel(), 0, [], shared[..], start, index)
    {
      assert Loaded(shared[..], [index]) == [shared[index]];
      result := Wrap(result + shared[index]);
    }
  }

  method ZipAddRange(shared: array<int>, start: int, end: int, delta: int)
    requires 0 <= start <= end <= shared.Length
    modifies shared
    ensures shared[..] == Run(ZipAddKernel(), delta, [], old(shared[..]), start, end)
  {
    for index := start to end
      invariant shared[..] == Run(ZipAddKernel(), delta, [], old(shared[..]), start, index)
    {
      ghost var before := shared[..];
      var other := index + delta;
      var right := if 0 <= other < shared.Length then shared[other] else 0;
      shared[index] := Wrap(shared[index] + right);
      assert Loaded(before, [index, other]) == [before[index], right];
    }
  }
}
