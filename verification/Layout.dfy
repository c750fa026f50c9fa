/**
 The POD layouts that tools/mayo_gen.ts generates, for any list of fields, in the wrapping `Int`
 arithmetic of the generated MoonBit code. An `abort` of that code is the result Refused.
 */
module Layout {
  import opened Int32
  import opened Kernels
  import opened Wrappers

  datatype Kind = I32 | SliceI32
  datatype Field = Field(name: string, kind: Kind)

  /** args holds one word per field: the value of an i32, the length of a slice. */
  datatype Layout = Layout(base: int, args: seq<int>, offsets: seq<int>, capacity: int)

  // ---- header slots

  function Width(kind: Kind): (words: nat)
    ensures 1 <= words <= 2
  {
    if kind.I32? then 1 else 2
  }

  /** The first header slot of field k; for k = |fields| the number of header words. */
  function Slot(fields: seq<Field>, k: nat): nat
    requires k <= |fields|
  {
    if k == 0 then 0 else Slot(fields, k - 1) + Width(fields[k - 1].kind)
  }

  function HeaderWords(fields: seq<Field>): nat {
    Slot(fields, |fields|)
  }

  lemma {:induction false} SlotsRise(fields: seq<Field>, j: nat, k: nat)
    requires j < k <= |fields|
    ensures Slot(fields, j) + Width(fields[j].kind) <= Slot(fields, k)
  {
    if j + 1 < k { SlotsRise(fields, j, k - 1); }
  }

  predicate DistinctNames(fields: seq<Field>) {
    forall j, k :: 0 <= j < k < |fields| ==> fields[j].name != fields[k].name
  }

  predicate Listed(fields: seq<Field>, table: map<string, seq<nat>>, k: nat)
    requires k < |fields|
  {
    fields[k].name in table && table[fields[k].name] == seq(Width(fields[k].kind), i => Slot(fields, k) + i)
  }

  /** The generator's slot table: consecutive slots in field order, two for a slice. */
  method HeaderSlots(fields: seq<Field>) returns (result: map<string, seq<nat>>)
    requires DistinctNames(fields)
    ensures forall k :: 0 <= k < |fields| ==> Listed(fields, result, k)
  {
    result := map[];
    var slot := 0;
    for k := 0 to |fields|
      invariant slot == Slot(fields, k)
      invariant forall j :: 0 <= j < k ==> Listed(fields, result, j)
    {
      ghost var before := result;
      if fields[k].kind.I32? {
        result := result[fields[k].name := [slot]];
        slot := slot + 1;
      } else {
        result := result[fields[k].name := [slot, slot + 1]];
        slot := slot + 2;
      }
      forall j | 0 <= j < k ensures Listed(fields, result, j) {
        assert Listed(fields, before, j);
      }
    }
  }

  // ---- layout_at

  /** The running end after the first k fields, as the generated code computes it. */
  function End(fields: seq<Field>, base: int, args: seq<int>, k: nat): int
    requires k <= |fields| == |args|
  {
    if k == 0 then Add(base, HeaderWords(fields))
    else if fields[k - 1].kind.I32? then End(fields, base, args, k - 1)
    else Add(End(fields, base, args, k - 1), args[k - 1])
  }

  /** The same end without wrapping. */
  function TrueEnd(fields: seq<Field>, base: int, args: seq<int>, k: nat): int
    requires k <= |fields| == |args|
  {
    if k == 0 then base + HeaderWords(fields)
    else if fields[k - 1].kind.I32? then TrueEnd(fields, base, args, k - 1)
    else TrueEnd(fields, base, args, k - 1) + args[k - 1]
  }

  /** A negative base is refused, by `layout_at` and by `load`. */
  lemma {:induction false} NegativeBaseRefused(fields: seq<Field>, base: int, args: seq<int>, shared: seq<int>)
    requires base < 0 && |fields| == |args|
    ensures LayoutAt(fields, base, args).Refused? && LoadLayout(fields, shared, base).Refused?
  {}

  /** What the generated sums compute is the true end modulo 2^32. */
  lemma {:induction false} EndIsWrapped(fields: seq<Field>, base: int, args: seq<int>, k: nat)
    requires k <= |fields| == |args| && Words(args) && InRange(base) && HeaderWords(fields) <= MAX
    ensures End(fields, base, args, k) == Wrap(TrueEnd(fields, base, args, k))
  {
    if k == 0 {
      AddIsWrap(base, HeaderWords(fields));
    } else {
      EndIsWrapped(fields, base, args, k - 1);
      if fields[k - 1].kind.SliceI32? {
        AddIsWrap(End(fields, base, args, k - 1), args[k - 1]);
        WrapAdd(TrueEnd(fields, base, args, k - 1), args[k - 1]);
      }
    }
  }

  predicate LengthsOk(fields: seq<Field>, args: seq<int>)
    requires |fields| == |args|
  {
    forall k :: 0 <= k < |fields| && fields[k].kind.SliceI32? ==> 0 <= args[k]
  }

  /** None of the first n overflow checks fires. */
  predicate Rises(fields: seq<Field>, base: int, args: seq<int>, n: nat)
    requires n <= |fields| == |args|
  {
    n == 0 || (Rises(fields, base, args, n - 1)
               && (fields[n - 1].kind.SliceI32? ==> End(fields, base, args, n - 1) <= End(fields, base, args, n)))
  }

  function LayoutAt(fields: seq<Field>, base: int, args: seq<int>): Result<Layout>
    requires |fields| == |args|
  {
    if base < 0 || !LengthsOk(fields, args) || !Rises(fields, base, args, |fields|) then Refused
    else Ok(Layout(base, args,
                   seq(|fields|, k requires 0 <= k < |fields| =>
                     if fields[k].kind.I32? then 0 else End(fields, base, args, k)),
                   Add(End(fields, base, args, |fields|), -base)))
  }

  predicate Words(s: seq<int>) {
    forall i :: 0 <= i < |s| ==> InRange(s[i])
  }

  /** The header itself ends within Int32. */
  predicate BaseOk(fields: seq<Field>, base: int) {
    0 <= base && base + HeaderWords(fields) <= MAX
  }

  lemma {:induction false} EndsExact(fields: seq<Field>, base: int, args: seq<int>, n: nat)
    requires n <= |fields| == |args| && BaseOk(fields, base) && LengthsOk(fields, args) && Words(args)
    ensures Rises(fields, base, args, n) <==> TrueEnd(fields, base, args, n) <= MAX
    ensures Rises(fields, base, args, n) ==> End(fields, base, args, n) == TrueEnd(fields, base, args, n)
    ensures base + HeaderWords(fields) <= TrueEnd(fields, base, args, n)
  {
    if n > 0 {
      EndsExact(fields, base, args, n - 1);
      if fields[n - 1].kind.SliceI32? && Rises(fields, base, args, n - 1) {
        WrapSum(End(fields, base, args, n - 1), args[n - 1]);
      }
    }
  }

  /** One generated check: adding two non-negative words wraps below the first or not at all. */
  lemma WrapSum(x: int, y: int)
    requires 0 <= x <= MAX && 0 <= y <= MAX
    ensures x <= Add(x, y) <==> x + y <= MAX
  {}

  /** The generated checks reject exactly the layouts that overflow Int32. */
  lemma {:induction false} RejectsExactlyOverflow(fields: seq<Field>, base: int, args: seq<int>)
    requires |fields| == |args| && Words(args) && BaseOk(fields, base)
    ensures LayoutAt(fields, base, args).Ok? <==>
      LengthsOk(fields, args) && TrueEnd(fields, base, args, |fields|) <= MAX
    ensures LayoutAt(fields, base, args).Ok? ==>
      LayoutAt(fields, base, args).value.capacity == TrueEnd(fields, base, args, |fields|) - base
  {
    if LengthsOk(fields, args) { EndsExact(fields, base, args, |fields|); }
  }

  lemma {:induction false} TrueEndsRise(fields: seq<Field>, base: int, args: seq<int>, j: nat, k: nat)
    requires j <= k <= |fields| == |args| && LengthsOk(fields, args)
    ensures TrueEnd(fields, base, args, j) <= TrueEnd(fields, base, args, k)
  {
    if j < k { TrueEndsRise(fields, base, args, j, k - 1); }
  }

  lemma {:induction false} RisesBefore(fields: seq<Field>, base: int, args: seq<int>, j: nat, n: nat)
    requires j <= n <= |fields| == |args| && Rises(fields, base, args, n)
    ensures Rises(fields, base, args, j)
  {
    if j < n { RisesBefore(fields, base, args, j, n - 1); }
  }

  /** Accepted slices lie after the header, inside the capacity, and before every later slice. */
  lemma {:induction false} SlicesDisjoint(fields: seq<Field>, base: int, args: seq<int>, j: nat, k: nat)
    requires |fields| == |args| && Words(args) && BaseOk(fields, base) && LayoutAt(fields, base, args).Ok?
    requires j < |fields| && k < |fields| && fields[j].kind.SliceI32? && fields[k].kind.SliceI32?
    ensures
      var l := LayoutAt(fields, base, args).value;
      && base + HeaderWords(fields) <= l.offsets[j] && l.offsets[j] + args[j] <= base + l.capacity <= MAX
      && (j < k ==> l.offsets[j] + args[j] <= l.offsets[k])
  {
    var n := |fields|;
    EndsExact(fields, base, args, n);
    RisesBefore(fields, base, args, j, n);
    EndsExact(fields, base, args, j);
    TrueEndsRise(fields, base, args, j + 1, n);
    if j < k {
      RisesBefore(fields, base, args, k, n);
      EndsExact(fields, base, args, k);
      TrueEndsRise(fields, base, args, j + 1, k);
    }
  }

  // ---- write_header and load

  /** The slot of a field's value or length; a slice's offset is at Slot. */
  function ArgSlot(fields: seq<Field>, k: nat): nat
    requires k < |fields|
  {
    if fields[k].kind.I32? then Slot(fields, k) else Slot(fields, k) + 1
  }

  function StoreField(fields: seq<Field>, l: Layout, values: seq<int>, k: nat): (r: seq<int>)
    requires k < |fields| == |l.args| == |l.offsets|
    ensures |r| == |values|
  {
    var first := if fields[k].kind.I32? then values else Store(values, Add(l.base, Slot(fields, k)), l.offsets[k]);
    Store(first, Add(l.base, ArgSlot(fields, k)), l.args[k])
  }

  /** The buffer after the stores of the first k fields. */
  function Stored(fields: seq<Field>, l: Layout, values: seq<int>, k: nat): (r: seq<int>)
    requires k <= |fields| == |l.args| == |l.offsets|
    ensures |r| == |values|
  {
    if k == 0 then values else StoreField(fields, l, Stored(fields, l, values, k - 1), k - 1)
  }

  function WriteHeader(fields: seq<Field>, l: Layout, values: seq<int>): Result<seq<int>>
    requires |fields| == |l.args| == |l.offsets|
  {
    if |values| < Add(l.base, l.capacity) then Refused else Ok(Stored(fields, l, values, |fields|))
  }

  method StoreInPlace(values: array<int>, index: int, word: int)
    modifies values
    ensures values[..] == Store(old(values[..]), index, word)
  {
    if 0 <= index < values.Length { values[index] := word; }
  }

  method WriteHeaderInPlace(fields: seq<Field>, l: Layout, values: array<int>) returns (done: bool)
    requires |fields| == |l.args| == |l.offsets|
    modifies values
    ensures WriteHeader(fields, l, old(values[..])) == if done then Ok(values[..]) else Refused
    ensures !done ==> values[..] == old(values[..])
  {
    done := values.Length >= Add(l.base, l.capacity);
    if done {
      var slot := 0;
      for k := 0 to |fields|
        invariant slot == Slot(fields, k)
        invariant values[..] == Stored(fields, l, old(values[..]), k)
      {
        if fields[k].kind.SliceI32? {
          StoreInPlace(values, Add(l.base, slot), l.offsets[k]);
          slot := slot + 1;
        }
        StoreInPlace(values, Add(l.base, slot), l.args[k]);
        slot := slot + 1;
      }
    }
  }

  /** The arguments that `load` passes to `layout_at`. */
  function LoadedArgs(fields: seq<Field>, shared: seq<int>, base: int): (args: seq<int>)
    ensures |args| == |fields|
  {
    seq(|fields|, k requires 0 <= k < |fields| =>
      Load(shared, Add(base, ArgSlot(fields, k))))
  }

  predicate OffsetsMatch(fields: seq<Field>, shared: seq<int>, base: int, l: Layout)
    requires |fields| == |l.offsets|
  {
    forall k :: 0 <= k < |fields| && fields[k].kind.SliceI32? ==>
      Load(shared, Add(base, Slot(fields, k))) == l.offsets[k]
  }

  function LoadLayout(fields: seq<Field>, shared: seq<int>, base: int): Result<Layout> {
    if base < 0 || |shared| < Add(base, HeaderWords(fields)) then Refused
    else
      var r := LayoutAt(fields, base, LoadedArgs(fields, shared, base));
      if r.Refused? || !OffsetsMatch(fields, shared, base, r.value)
         || |shared| < Add(r.value.base, r.value.capacity) then Refused
      else r
  }

  predicate FieldAt(fields: seq<Field>, shared: seq<int>, l: Layout, k: nat)
    requires k < |fields| == |l.args| == |l.offsets|
  {
    && Load(shared, l.base + ArgSlot(fields, k)) == l.args[k]
    && (fields[k].kind.SliceI32? ==> Load(shared, l.base + Slot(fields, k)) == l.offsets[k])
  }

  /** The header words of the first n fields of l stand in the buffer. */
  predicate HasHeader(fields: seq<Field>, shared: seq<int>, l: Layout, n: nat)
    requires n <= |fields| == |l.args| == |l.offsets|
  {
    && 0 <= l.base && l.base + HeaderWords(fields) <= |shared|
    && forall k :: 0 <= k < n ==> FieldAt(fields, shared, l, k)
  }

  lemma SlotOrder(fields: seq<Field>, k: nat)
    requires k < |fields|
    ensures Slot(fields, k) <= ArgSlot(fields, k) < Slot(fields, k + 1) <= HeaderWords(fields)
  {
    SlotsRise(fields, k, |fields|);
  }

  lemma AddInside(base: int, slot: int, words: int)
    requires 0 <= base && base + words <= MAX && 0 <= slot < words
    ensures Add(base, slot) == base + slot
  {}

  /** No header index of a good base wraps. */
  lemma SlotInside(fields: seq<Field>, base: int, k: nat)
    requires BaseOk(fields, base) && k < |fields|
    ensures Add(base, Slot(fields, k)) == base + Slot(fields, k)
    ensures Add(base, ArgSlot(fields, k)) == base + ArgSlot(fields, k)
  {
    SlotOrder(fields, k);
    AddInside(base, Slot(fields, k), HeaderWords(fields));
    AddInside(base, ArgSlot(fields, k), HeaderWords(fields));
  }

  /** Storing one field puts it where load looks for it and touches its own slots only. */
  lemma StoreFieldEffect(fields: seq<Field>, l: Layout, values: seq<int>, k: nat)
    requires k < |fields| == |l.args| == |l.offsets| && BaseOk(fields, l.base)
    requires l.base + HeaderWords(fields) <= |values|
    ensures FieldAt(fields, StoreField(fields, l, values, k), l, k)
    ensures forall x :: 0 <= x < |values| && !(l.base + Slot(fields, k) <= x < l.base + Slot(fields, k + 1)) ==>
      StoreField(fields, l, values, k)[x] == values[x]
    ensures FieldAt(fields, values, l, k) ==> StoreField(fields, l, values, k) == values
  {
    SlotOrder(fields, k);
    SlotInside(fields, l.base, k);
    var first, last := l.base + Slot(fields, k), l.base + ArgSlot(fields, k);
    assert 0 <= first <= last < |values| && last < l.base + Slot(fields, k + 1);
    if fields[k].kind.I32? {
      assert StoreField(fields, l, values, k) == values[last := l.args[k]];
    } else {
      assert first < last;
      assert StoreField(fields, l, values, k) == values[first := l.offsets[k]][last := l.args[k]];
    }
  }

  /** The stores put every field where load looks for it. */
  lemma {:induction false} StoredHeader(fields: seq<Field>, l: Layout, values: seq<int>, n: nat)
    requires n <= |fields| == |l.args| == |l.offsets| && BaseOk(fields, l.base)
    requires l.base + HeaderWords(fields) <= |values|
    ensures HasHeader(fields, Stored(fields, l, values, n), l, n)
  {
    if n > 0 {
      var before, r := Stored(fields, l, values, n - 1), Stored(fields, l, values, n);
      StoredHeader(fields, l, values, n - 1);
      StoreFieldEffect(fields, l, before, n - 1);
      forall k | 0 <= k < n - 1 ensures FieldAt(fields, r, l, k) {
        EarlierField(fields, l, before, n - 1, k);
      }
    }
  }

  /** And touch the header words only. */
  lemma {:induction false} StoredFrame(fields: seq<Field>, l: Layout, values: seq<int>, n: nat, x: nat)
    requires n <= |fields| == |l.args| == |l.offsets| && BaseOk(fields, l.base)
    requires l.base + HeaderWords(fields) <= |values| && x < |values|
    requires !(l.base <= x < l.base + Slot(fields, n))
    ensures Stored(fields, l, values, n)[x] == values[x]
  {
    if n > 0 {
      SlotOrder(fields, n - 1);
      StoredFrame(fields, l, values, n - 1, x);
      StoreFieldEffect(fields, l, Stored(fields, l, values, n - 1), n - 1);
    }
  }

  lemma EarlierField(fields: seq<Field>, l: Layout, values: seq<int>, n: nat, k: nat)
    requires k < n < |fields| == |l.args| == |l.offsets| && BaseOk(fields, l.base)
    requires l.base + HeaderWords(fields) <= |values| && FieldAt(fields, values, l, k)
    ensures FieldAt(fields, StoreField(fields, l, values, n), l, k)
  {
    SlotOrder(fields, k);
    SlotsOrdered(fields, k + 1, n);
    SlotOrder(fields, n);
    StoreFieldEffect(fields, l, values, n);
  }

  lemma SlotsOrdered(fields: seq<Field>, j: nat, k: nat)
    requires j <= k <= |fields|
    ensures Slot(fields, j) <= Slot(fields, k)
  {
    if j < k { SlotsRise(fields, j, k); }
  }

  lemma HeaderArg(fields: seq<Field>, shared: seq<int>, l: Layout, k: nat)
    requires k < |fields| == |l.args| == |l.offsets| && BaseOk(fields, l.base)
    requires HasHeader(fields, shared, l, |fields|)
    ensures LoadedArgs(fields, shared, l.base)[k] == l.args[k]
  {
    SlotInside(fields, l.base, k);
    assert FieldAt(fields, shared, l, k);
  }

  lemma HeaderOffset(fields: seq<Field>, shared: seq<int>, l: Layout, k: nat)
    requires k < |fields| == |l.args| == |l.offsets| && BaseOk(fields, l.base)
    requires HasHeader(fields, shared, l, |fields|) && fields[k].kind.SliceI32?
    ensures Load(shared, Add(l.base, Slot(fields, k))) == l.offsets[k]
  {
    SlotInside(fields, l.base, k);
    assert FieldAt(fields, shared, l, k);
  }

  /** A buffer with the header of an accepted layout and room for it loads as that layout. */
  lemma LoadsHeader(fields: seq<Field>, shared: seq<int>, base: int, args: seq<int>)
    requires |fields| == |args| && BaseOk(fields, base) && LayoutAt(fields, base, args).Ok?
    requires var l := LayoutAt(fields, base, args).value;
      HasHeader(fields, shared, l, |fields|) && 0 <= base + l.capacity <= |shared| <= MAX
    ensures LoadLayout(fields, shared, base) == LayoutAt(fields, base, args)
  {
    var l := LayoutAt(fields, base, args).value;
    forall k | 0 <= k < |fields| ensures LoadedArgs(fields, shared, base)[k] == args[k] {
      HeaderArg(fields, shared, l, k);
    }
    assert LoadedArgs(fields, shared, base) == args;
    assert OffsetsMatch(fields, shared, base, l) by {
      forall k | 0 <= k < |fields| && fields[k].kind.SliceI32?
        ensures Load(shared, Add(base, Slot(fields, k))) == l.offsets[k]
      {
        HeaderOffset(fields, shared, l, k);
      }
    }
  }

  /** An accepted layout of a good base is at least its header and fits Int32. */
  lemma CapacityInside(fields: seq<Field>, base: int, args: seq<int>)
    requires |fields| == |args| && Words(args) && BaseOk(fields, base) && LayoutAt(fields, base, args).Ok?
    ensures var c := LayoutAt(fields, base, args).value.capacity;
      HeaderWords(fields) <= c && base + c <= MAX && Add(base, c) == base + c
  {
    RejectsExactlyOverflow(fields, base, args);
    EndsExact(fields, base, args, |fields|);
  }

  /** Round trip: what `write_header` wrote, `load` reads back as the same layout. */
  lemma {:induction false} LoadAfterWrite(fields: seq<Field>, base: int, args: seq<int>, values: seq<int>)
    requires |fields| == |args| && Words(args) && BaseOk(fields, base) && |values| <= MAX
    requires LayoutAt(fields, base, args).Ok?
    ensures var l := LayoutAt(fields, base, args).value;
      && (WriteHeader(fields, l, values).Ok? <==> base + l.capacity <= |values|)
      && (base + l.capacity <= |values| ==>
            LoadLayout(fields, WriteHeader(fields, l, values).value, base) == Ok(l))
  {
    var l := LayoutAt(fields, base, args).value;
    CapacityInside(fields, base, args);
    if base + l.capacity <= |values| {
      StoredHeader(fields, l, values, |fields|);
      LoadsHeader(fields, Stored(fields, l, values, |fields|), base, args);
    }
  }

  /** No word outside the header changes. */
  lemma {:induction false} WriteFrame(fields: seq<Field>, base: int, args: seq<int>, values: seq<int>, x: nat)
    requires |fields| == |args| && Words(args) && BaseOk(fields, base) && |values| <= MAX
    requires LayoutAt(fields, base, args).Ok? && x < |values|
    ensures var w := WriteHeader(fields, LayoutAt(fields, base, args).value, values);
      w.Ok? && !(base <= x < base + HeaderWords(fields)) ==> w.value[x] == values[x]
  {
    var l := LayoutAt(fields, base, args).value;
    CapacityInside(fields, base, args);
    if base + l.capacity <= |values| && !(base <= x < base + HeaderWords(fields)) {
      StoredFrame(fields, l, values, |fields|, x);
    }
  }

  /** A buffer that `load` accepts already holds the header of the layout it returns, with room for all of it. */
  lemma {:induction false} AcceptedHasHeader(fields: seq<Field>, shared: seq<int>, base: int)
    requires Words(shared) && |shared| <= MAX && BaseOk(fields, base) && LoadLayout(fields, shared, base).Ok?
    ensures
      var l := LoadLayout(fields, shared, base).value;
      && l.base == base && |l.args| == |l.offsets| == |fields|
      && base + HeaderWords(fields) <= base + l.capacity <= |shared|
      && HasHeader(fields, shared, l, |fields|)
      && WriteHeader(fields, l, shared) == Ok(shared)
  {
    var l := LoadLayout(fields, shared, base).value;
    LoadedWords(fields, shared, base);
    CapacityInside(fields, base, LoadedArgs(fields, shared, base));
    forall k | 0 <= k < |fields| ensures FieldAt(fields, shared, l, k) {
      LoadedHeader(fields, shared, base, k);
    }
    SameStores(fields, l, shared, |fields|);
  }

  lemma LoadedWords(fields: seq<Field>, shared: seq<int>, base: int)
    requires Words(shared)
    ensures Words(LoadedArgs(fields, shared, base))
  {}

  lemma LoadedHeader(fields: seq<Field>, shared: seq<int>, base: int, k: nat)
    requires BaseOk(fields, base) && LoadLayout(fields, shared, base).Ok? && k < |fields|
    ensures FieldAt(fields, shared, LoadLayout(fields, shared, base).value, k)
  {
    SlotInside(fields, base, k);
  }

  /** Storing a header over itself changes nothing. */
  lemma {:induction false} SameStores(fields: seq<Field>, l: Layout, shared: seq<int>, n: nat)
    requires n <= |fields| == |l.args| == |l.offsets| && BaseOk(fields, l.base)
    requires HasHeader(fields, shared, l, |fields|)
    ensures Stored(fields, l, shared, n) == shared
  {
    if n > 0 {
      SameStores(fields, l, shared, n - 1);
      assert FieldAt(fields, shared, l, n - 1);
      StoreFieldEffect(fields, l, shared, n - 1);
    }
  }

  // ---- a base beyond the buffer

  predicate OnlyI32(fields: seq<Field>) {
    forall k :: 0 <= k < |fields| ==> fields[k].kind.I32?
  }

  lemma {:induction false} FlatEnd(fields: seq<Field>, base: int, args: seq<int>, n: nat)
    requires n <= |fields| == |args|
    requires 0 <= base <= MAX && HeaderWords(fields) <= MAX
    requires forall k :: 0 <= k < n ==> fields[k].kind.I32? || args[k] == 0
    ensures End(fields, base, args, n) == Add(base, HeaderWords(fields)) && Rises(fields, base, args, n)
  {
    if n > 0 { FlatEnd(fields, base, args, n - 1); }
  }

  lemma HeaderWordsPositive(fields: seq<Field>)
    requires fields != []
    ensures 0 < HeaderWords(fields)
  {
    SlotsRise(fields, 0, |fields|);
  }

  /** Every layout that `layout_at` accepts at this base fits Int32. */
  ghost predicate AcceptsOnlyFitting(fields: seq<Field>, base: int) {
    forall args :: |args| == |fields| && Words(args) && LayoutAt(fields, base, args).Ok? ==>
      TrueEnd(fields, base, args, |fields|) <= MAX
  }

  /** The overflow checks are sound exactly when the header itself ends within Int32. */
  lemma {:induction false} ChecksNeedBase(fields: seq<Field>, base: int)
    requires 0 <= base <= MAX && HeaderWords(fields) <= MAX
    ensures AcceptsOnlyFitting(fields, base) <==> BaseOk(fields, base)
  {
    if BaseOk(fields, base) {
      forall args | |args| == |fields| && Words(args) && LayoutAt(fields, base, args).Ok?
        ensures TrueEnd(fields, base, args, |fields|) <= MAX
      {
        RejectsExactlyOverflow(fields, base, args);
      }
    } else {
      var args := seq(|fields|, _ => 0);
      FlatEnd(fields, base, args, |fields|);
      TrueEndsRise(fields, base, args, 0, |fields|);
      assert LayoutAt(fields, base, args).Ok?;
    }
  }

  /** With scalar fields only, a header whose end wraps is accepted wherever the base lies. */
  lemma FlatAccepted(fields: seq<Field>, shared: seq<int>, base: int)
    requires fields != [] && OnlyI32(fields) && 0 <= base <= MAX < base + HeaderWords(fields)
    requires HeaderWords(fields) <= MAX
    ensures LoadLayout(fields, shared, base).Ok?
  {
    var words, args := HeaderWords(fields), LoadedArgs(fields, shared, base);
    FlatEnd(fields, base, args, |fields|);
    var r := LayoutAt(fields, base, args);
    assert r.Ok? && r.value.capacity == words;
    assert Add(r.value.base, r.value.capacity) < 0;
    assert OffsetsMatch(fields, shared, base, r.value);
  }

  /** The offset of the first slice is negative when the header's end wraps, and no load outside gives that. */
  lemma SliceRejected(fields: seq<Field>, shared: seq<int>, base: int)
    requires !OnlyI32(fields) && |shared| <= base <= MAX < base + HeaderWords(fields)
    requires HeaderWords(fields) <= MAX
    ensures LoadLayout(fields, shared, base).Refused?
  {
    var k := FirstSlice(fields, 0);
    FlatEnd(fields, base, LoadedArgs(fields, shared, base), k);
    SlotsRise(fields, k, |fields|);
    OutsideLoad(shared, base, Slot(fields, k));
  }

  /**
   The exact condition under which `load` accepts a base that lies outside the buffer: the end of
   the header wraps and the layout has no slice whose stored offset could give it away.
   */
  lemma {:induction false} AcceptedOutside(fields: seq<Field>, shared: seq<int>, base: int)
    requires fields != [] && |shared| <= base <= MAX && HeaderWords(fields) <= MAX
    ensures LoadLayout(fields, shared, base).Ok? <==> OnlyI32(fields) && base + HeaderWords(fields) > MAX
  {
    HeaderWordsPositive(fields);
    if base + HeaderWords(fields) > MAX {
      if OnlyI32(fields) { FlatAccepted(fields, shared, base); } else { SliceRejected(fields, shared, base); }
    }
  }

  lemma {:induction false} FirstSlice(fields: seq<Field>, from: nat) returns (k: nat)
    requires from <= |fields| && !OnlyI32(fields)
    requires forall j :: 0 <= j < from ==> fields[j].kind.I32?
    ensures k < |fields| && fields[k].kind.SliceI32? && forall j :: 0 <= j < k ==> fields[j].kind.I32?
    decreases |fields| - from
  {
    if fields[from].kind.SliceI32? { k := from; } else { k := FirstSlice(fields, from + 1); }
  }

  /** Beyond the buffer every load gives 0, wrapped or not. */
  lemma OutsideLoad(shared: seq<int>, base: int, slot: nat)
    requires |shared| <= base <= MAX && slot <= MAX
    ensures Load(shared, Add(base, slot)) == 0
  {}

  /** Concretely: an empty buffer, one i32 field, the largest base. */
  lemma {:induction false} AcceptedOutsideExample()
    ensures LoadLayout([Field("width", I32)], [], MAX).Ok?
  {
    var fields := [Field("width", I32)];
    assert Slot(fields, 1) == Slot(fields, 0) + 1;
    AcceptedOutside(fields, [], MAX);
  }

  // ---- the checked-in contract

  /** The fields of tests/generated_contract. */
  function ImageFields(): (fields: seq<Field>)
    ensures |fields| == 4
  {
    [Field("width", I32), Field("height", I32), Field("source", SliceI32), Field("scratch", SliceI32)]
  }

  lemma {:induction false} ImageSlots()
    ensures var f := ImageFields();
      Slot(f, 1) == 1 && Slot(f, 2) == 2 && Slot(f, 3) == 4 && Slot(f, 4) == 6 && HeaderWords(f) == 6
  {
    var f := ImageFields();
    assert Slot(f, 0) == 0;
    assert Slot(f, 1) == 1;
    assert Slot(f, 2) == 2;
    assert Slot(f, 3) == 4;
  }

  /** The layout that the generated `image_layout_at` returns, when the sums fit. */
  lemma {:induction false} ImageLayoutAt(base: int, width: int, height: int, source: int, scratch: int)
    requires 0 <= base && 0 <= source && 0 <= scratch && base + 6 + source + scratch <= MAX
    requires InRange(width) && InRange(height)
    ensures LayoutAt(ImageFields(), base, [width, height, source, scratch]) ==
      Ok(Layout(base, [width, height, source, scratch], [0, 0, base + 6, base + 6 + source], 6 + source + scratch))
  {
    var f, args := ImageFields(), [width, height, source, scratch];
    ImageSlots();
    assert TrueEnd(f, base, args, 2) == TrueEnd(f, base, args, 1) == TrueEnd(f, base, args, 0) == base + 6;
    assert TrueEnd(f, base, args, 3) == base + 6 + source;
    RejectsExactlyOverflow(f, base, args);
    EndsExact(f, base, args, 4);
    RisesBefore(f, base, args, 3, 4);
    RisesBefore(f, base, args, 2, 4);
    EndsExact(f, base, args, 3);
    EndsExact(f, base, args, 2);
    var l := LayoutAt(f, base, args);
    assert l.Ok? && l.value.offsets == [0, 0, base + 6, base + 6 + source];
  }

  /** The six stores of the generated `write_header`, and no other. */
  lemma {:induction false} ImageHeader(l: Layout, values: seq<int>)
    requires |l.args| == |l.offsets| == 4 && 0 <= l.base && l.base + 6 <= |values| <= MAX
    ensures Stored(ImageFields(), l, values, 4) ==
      values[..l.base] + [l.args[0], l.args[1], l.offsets[2], l.args[2], l.offsets[3], l.args[3]] + values[l.base + 6..]
  {
    var f := ImageFields();
    ImageSlots();
    assert Stored(f, l, values, 0) == values;
    var a := StoreField(f, l, values, 0);
    assert a == values[l.base := l.args[0]] && a == Stored(f, l, values, 1);
    var b := StoreField(f, l, a, 1);
    assert b == a[l.base + 1 := l.args[1]] && b == Stored(f, l, values, 2);
    var d := StoreField(f, l, b, 2);
    assert d == b[l.base + 2 := l.offsets[2]][l.base + 3 := l.args[2]] && d == Stored(f, l, values, 3);
    var e := StoreField(f, l, d, 3);
    assert e == d[l.base + 4 := l.offsets[3]][l.base + 5 := l.args[3]] && e == Stored(f, l, values, 4);
  }

  // ---- allocation from an arena

  /** `allocate_*_layout`: measure at base 0, reserve, lay out at the region, write the header. */
  function Allocate(fields: seq<Field>, args: seq<int>, cursor: int, values: seq<int>): Result<(Layout, seq<int>, int)>
    requires |fields| == |args|
  {
    var shape := LayoutAt(fields, 0, args);
    if shape.Refused? then Refused
    else
      var length := shape.value.capacity;
      if cursor < 0 || length < 0 || cursor > |values| || length > |values| - cursor then Refused
      else
        var l := LayoutAt(fields, cursor, args);
        if l.Refused? then Refused
        else
          var w := WriteHeader(fields, l.value, values);
          if w.Refused? then Refused else Ok((l.value, w.value, cursor + length))
  }

  /** Without wrapping the whole layout just moves with its base. */
  lemma {:induction false} TrueEndShifts(fields: seq<Field>, base: int, args: seq<int>, k: nat)
    requires k <= |fields| == |args|
    ensures TrueEnd(fields, base, args, k) == base + TrueEnd(fields, 0, args, k)
  {
    if k > 0 { TrueEndShifts(fields, base, args, k - 1); }
  }

  /**
   The arena path always meets the base condition: it succeeds exactly when the measured shape fits
   the rest of the arena, and then `load` at the region's offset returns the same layout.
   */
  lemma {:induction false} ArenaLayout(fields: seq<Field>, args: seq<int>, cursor: int, values: seq<int>)
    requires |fields| == |args| && Words(args) && |values| <= MAX && 0 <= cursor <= |values|
    requires HeaderWords(fields) <= MAX
    ensures
      var r := Allocate(fields, args, cursor, values);
      && (r.Ok? <==> LengthsOk(fields, args) && TrueEnd(fields, cursor, args, |fields|) <= |values|)
      && (r.Ok? ==> && BaseOk(fields, cursor) && r.value.0.base == cursor
                    && r.value.2 == cursor + r.value.0.capacity == TrueEnd(fields, cursor, args, |fields|)
                    && LoadLayout(fields, r.value.1, cursor) == Ok(r.value.0))
  {
    RejectsExactlyOverflow(fields, 0, args);
    TrueEndShifts(fields, cursor, args, |fields|);
    if LengthsOk(fields, args) {
      EndsExact(fields, 0, args, |fields|);
      if TrueEnd(fields, cursor, args, |fields|) <= |values| {
        RejectsExactlyOverflow(fields, cursor, args);
        LoadAfterWrite(fields, cursor, args, values);
      }
    }
  }
}
