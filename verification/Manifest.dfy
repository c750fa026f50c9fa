/**
 The manifest handshake string and why kernel lookup cannot fail behind it (thread_pool.mbt,
 start.mbt, mayo.mbt, host_runtime_js.mbt).
 */
module Manifest {
  import opened DispatchModel
  import opened Kernels
  import opened Wrappers

  const PREFIX := "mayo.kernel/v4"

  const MAP := 0
  const REDUCE := 1

  datatype Spec = Spec(id: int, layoutHash: int, kind: int)
  datatype Manifest = Manifest(id: string, specs: seq<Spec>)

  /** What `kernel_manifest` accepts. */
  predicate Valid(m: Manifest) {
    && m.id != "" && (forall i :: 0 <= i < |m.id| ==> '!' <= m.id[i] <= '~')
    && m.specs != []
    && (forall k :: 0 <= k < |m.specs| ==> 0 < m.specs[k].id)
    && (forall j, k :: 0 <= j < k < |m.specs| ==> m.specs[j].id < m.specs[k].id)
  }

  // ---- writing

  function Digits(n: nat): (s: string)
    ensures s != []
  {
    if n < 10 then [(n as char) + '0'] else Digits(n / 10) + [((n % 10) as char) + '0']
  }

  function Decimal(n: int): (s: string)
    ensures s != []
  {
    if n < 0 then "-" + Digits(-n) else Digits(n)
  }

  function SpecText(spec: Spec): string {
    "|" + Decimal(spec.id) + ":" + Decimal(spec.layoutHash) + ":" + Decimal(spec.kind)
  }

  function SpecsText(specs: seq<Spec>): string {
    if specs == [] then "" else SpecText(specs[0]) + SpecsText(specs[1..])
  }

  function Header(m: Manifest): string {
    PREFIX + "|" + Decimal(|m.id|) + ":" + m.id + "|" + Decimal(|m.specs|)
  }

  function ProtocolId(m: Manifest): string {
    Header(m) + SpecsText(m.specs)
  }

  /** The string builder of `build_kernel_protocol_id`. */
  method BuildProtocolId(m: Manifest) returns (result: string)
    ensures result == ProtocolId(m)
  {
    result := PREFIX + "|" + Decimal(|m.id|) + ":" + m.id + "|" + Decimal(|m.specs|);
    result := WriteSpecs(result, m.specs);
  }

  method WriteSpecs(written: string, specs: seq<Spec>) returns (result: string)
    ensures result == written + SpecsText(specs)
  {
    result := written;
    for k := 0 to |specs|
      invariant result + SpecsText(specs[k..]) == written + SpecsText(specs)
    {
      RestText(result, specs, k);
      result := WriteSpec(result, specs[k]);
    }
  }

  /** The writes for one spec. */
  method WriteSpec(written: string, spec: Spec) returns (result: string)
    ensures result == written + SpecText(spec)
  {
    result := written + ("|" + Decimal(spec.id));
    result := result + (":" + Decimal(spec.layoutHash));
    result := result + (":" + Decimal(spec.kind));
    Pieces(written, Decimal(spec.id), Decimal(spec.layoutHash), Decimal(spec.kind));
  }

  lemma {:induction false} RestText(written: string, specs: seq<Spec>, k: nat)
    requires k < |specs|
    ensures written + SpecsText(specs[k..]) == written + SpecText(specs[k]) + SpecsText(specs[k + 1..])
  {
    assert specs[k..][1..] == specs[k + 1..];
    Glue(written, SpecText(specs[k]), SpecsText(specs[k + 1..]));
  }

  lemma {:induction false} Glue(a: string, b: string, c: string)
    ensures a + b + c == a + (b + c)
  {}

  lemma {:induction false} Pieces(before: string, a: string, b: string, c: string)
    ensures before + ("|" + a) + (":" + b) + (":" + c) == before + ("|" + a + ":" + b + ":" + c)
  {}

  // ---- reading it back

  predicate IsDigit(c: char) {
    '0' <= c <= '9'
  }

  /** Reads decimal digits after an accumulated value; the rest starts where they end. */
  function ReadDigits(acc: nat, s: string): (nat, string)
    decreases s
  {
    if s == "" || !IsDigit(s[0]) then (acc, s) else ReadDigits(acc * 10 + (s[0] - '0') as nat, s[1..])
  }

  function ReadInt(s: string): (int, string) {
    if s != "" && s[0] == '-' then
      var r := ReadDigits(0, s[1..]);
      (-(r.0 as int), r.1)
    else
      var r := ReadDigits(0, s);
      (r.0 as int, r.1)
  }

  function Skip(text: string, s: string): Option<string> {
    if text <= s then Some(s[|text|..]) else None
  }

  function ReadSpec(s: string): Option<(Spec, string)> {
    var a := Skip("|", s);
    if a.None? then None else
    var (id, r1) := ReadInt(a.value);
    var b := Skip(":", r1);
    if b.None? then None else
    var (hash, r2) := ReadInt(b.value);
    var c := Skip(":", r2);
    if c.None? then None else
    var (kind, r3) := ReadInt(c.value);
    Some((Spec(id, hash, kind), r3))
  }

  function ReadSpecs(s: string, count: nat): Option<seq<Spec>>
    decreases count
  {
    if count == 0 then if s == "" then Some([]) else None
    else
      var first := ReadSpec(s);
      if first.None? then None
      else
        var others := ReadSpecs(first.value.1, count - 1);
        if others.None? then None else Some([first.value.0] + others.value)
  }

  /** The identifier may contain any character: its length was written before it. */
  function Parse(s: string): Option<Manifest> {
    var a := Skip(PREFIX + "|", s);
    if a.None? then None else
    var (length, r1) := ReadInt(a.value);
    var b := Skip(":", r1);
    if b.None? || !(0 <= length <= |b.value|) then None else
    var c := Skip("|", b.value[length..]);
    if c.None? then None else
    var (count, r2) := ReadInt(c.value);
    if count < 0 then None else
    var specs := ReadSpecs(r2, count);
    if specs.None? then None else Some(Manifest(b.value[..length], specs.value))
  }

  predicate StopsNumber(rest: string) {
    rest == "" || !IsDigit(rest[0])
  }

  lemma {:induction false} DigitsRead(n: nat, rest: string)
    ensures ReadDigits(0, Digits(n) + rest) == ReadDigits(n, rest)
    ensures IsDigit(Digits(n)[0])
    decreases n
  {
    if n < 10 {
      assert (Digits(n) + rest)[1..] == rest;
    } else {
      var last := [((n % 10) as char) + '0'];
      DigitsRead(n / 10, last + rest);
      assert Digits(n) + rest == Digits(n / 10) + (last + rest);
      assert (last + rest)[1..] == rest;
    }
  }

  lemma DigitsWhole(n: nat, rest: string)
    requires StopsNumber(rest)
    ensures ReadDigits(0, Digits(n) + rest) == (n, rest) && IsDigit(Digits(n)[0])
  {
    DigitsRead(n, rest);
  }

  /** A decimal number is read back whole when no digit follows. */
  lemma {:induction false} ReadDecimal(n: int, rest: string)
    requires StopsNumber(rest)
    ensures ReadInt(Decimal(n) + rest) == (n, rest)
  {
    if n < 0 { ReadNegative(n, rest); } else { ReadNatural(n, rest); }
  }

  lemma {:induction false} ReadNatural(n: nat, rest: string)
    requires StopsNumber(rest)
    ensures ReadInt(Digits(n) + rest) == (n, rest)
  {
    DigitsWhole(n, rest);
    assert (Digits(n) + rest)[0] == Digits(n)[0];
  }

  lemma {:induction false} ReadNegative(n: int, rest: string)
    requires n < 0 && StopsNumber(rest)
    ensures ReadInt("-" + Digits(-n) + rest) == (n, rest)
  {
    DigitsWhole(-n, rest);
    var text := "-" + Digits(-n) + rest;
    assert text[0] == '-' && text[1..] == Digits(-n) + rest;
  }

  lemma SkipText(text: string, rest: string)
    ensures Skip(text, text + rest) == Some(rest)
  {}

  lemma SpecPieces(a: string, b: string, c: string, rest: string)
    ensures "|" + a + ":" + b + ":" + c + rest == "|" + (a + (":" + (b + (":" + (c + rest)))))
  {}

  lemma ReadSpecText(spec: Spec, rest: string)
    requires StopsNumber(rest)
    ensures ReadSpec(SpecText(spec) + rest) == Some((spec, rest))
  {
    var r3 := Decimal(spec.kind) + rest;
    var r2 := Decimal(spec.layoutHash) + (":" + r3);
    var r1 := Decimal(spec.id) + (":" + r2);
    SpecPieces(Decimal(spec.id), Decimal(spec.layoutHash), Decimal(spec.kind), rest);
    SkipText("|", r1);
    ReadDecimal(spec.id, ":" + r2);
    SkipText(":", r2);
    ReadDecimal(spec.layoutHash, ":" + r3);
    SkipText(":", r3);
    ReadDecimal(spec.kind, rest);
  }

  lemma SpecsStop(specs: seq<Spec>)
    ensures StopsNumber(SpecsText(specs))
  {
    if specs != [] { assert SpecText(specs[0])[0] == '|'; }
  }

  lemma {:induction false} ReadSpecsText(specs: seq<Spec>)
    ensures ReadSpecs(SpecsText(specs), |specs|) == Some(specs)
    decreases |specs|
  {
    if specs != [] {
      ReadSpecsText(specs[1..]);
      ReadMore(specs[0], specs[1..]);
      assert [specs[0]] + specs[1..] == specs;
    }
  }

  lemma {:induction false} ReadMore(spec: Spec, others: seq<Spec>)
    requires ReadSpecs(SpecsText(others), |others|) == Some(others)
    ensures ReadSpecs(SpecText(spec) + SpecsText(others), |others| + 1) == Some([spec] + others)
  {
    SpecsStop(others);
    ReadSpecText(spec, SpecsText(others));
  }

  lemma HeaderPieces(length: string, id: string, count: string, specs: string)
    ensures PREFIX + "|" + length + ":" + id + "|" + count + specs ==
      (PREFIX + "|") + (length + (":" + (id + ("|" + (count + specs)))))
  {}

  /** The parser undoes the builder, whatever characters the identifier contains. */
  lemma {:induction false} ParseUndoes(m: Manifest)
    ensures Parse(ProtocolId(m)) == Some(m)
  {
    var specs := SpecsText(m.specs);
    var r2 := Decimal(|m.specs|) + specs;
    var body := m.id + ("|" + r2);
    var r1 := Decimal(|m.id|) + (":" + body);
    HeaderPieces(Decimal(|m.id|), m.id, Decimal(|m.specs|), specs);
    SkipText(PREFIX + "|", r1);
    ReadDecimal(|m.id|, ":" + body);
    SkipText(":", body);
    assert body[|m.id|..] == "|" + r2 && body[..|m.id|] == m.id;
    SkipText("|", r2);
    SpecsStop(m.specs);
    ReadDecimal(|m.specs|, specs);
    ReadSpecsText(m.specs);
  }

  /** Equal handshake strings mean equal manifests. */
  lemma {:induction false} Injective(m: Manifest, n: Manifest)
    ensures ProtocolId(m) == ProtocolId(n) <==> m == n
  {
    ParseUndoes(m);
    ParseUndoes(n);
  }

  /** The text of one small manifest, written out. */
  lemma {:induction false} KnownText()
    ensures ProtocolId(Manifest("app/v1", [Spec(1, -57, 0), Spec(20, 8, 1)])) ==
      "mayo.kernel/v4|6:app/v1|2|1:-57:0|20:8:1"
  {
    var specs := [Spec(1, -57, 0), Spec(20, 8, 1)];
    KnownDigits();
    KnownSpecs();
    assert Header(Manifest("app/v1", specs)) == "mayo.kernel/v4|6:app/v1|2";
  }

  lemma {:induction false} KnownDigits()
    ensures Decimal(0) == "0" && Decimal(1) == "1" && Decimal(2) == "2" && Decimal(6) == "6" && Decimal(8) == "8"
    ensures Decimal(20) == "20" && Decimal(-57) == "-57"
  {
    assert Digits(5) == "5" && Digits(57) == "57" && Digits(2) == "2" && Digits(20) == "20";
  }

  lemma {:induction false} KnownSpecs()
    ensures SpecsText([Spec(1, -57, 0), Spec(20, 8, 1)]) == "|1:-57:0|20:8:1"
  {
    var specs := [Spec(1, -57, 0), Spec(20, 8, 1)];
    KnownDigits();
    assert SpecText(specs[0]) == "|1:-57:0" && SpecText(specs[1]) == "|20:8:1";
    assert specs[1..] == [Spec(20, 8, 1)] && specs[1..][1..] == [];
    assert SpecsText(specs) == SpecText(specs[0]) + (SpecText(specs[1]) + "");
  }

  // ---- calls and entries

  datatype Call = Call(protocolId: string, kernelId: int, layoutHash: int, argument: int)

  /** One kernel of a worker artifact, with what it computes. */
  datatype Entry = Entry(spec: Spec, kernel: Kernel)

  method Contains(m: Manifest, spec: Spec) returns (found: bool)
    ensures found <==> spec in m.specs
  {
    for k := 0 to |m.specs|
      invariant spec !in m.specs[..k]
    {
      if m.specs[k].id == spec.id && m.specs[k].layoutHash == spec.layoutHash && m.specs[k].kind == spec.kind {
        return true;
      }
    }
    found := false;
  }

  /** `kernel_call` for kind MAP and `reducer_call` for kind REDUCE. */
  function MakeCall(m: Manifest, spec: Spec, kind: int, argument: int): Result<Call> {
    if spec.kind != kind || spec !in m.specs then Refused
    else Ok(Call(ProtocolId(m), spec.id, spec.layoutHash, argument))
  }

  /** `validate_kernel_call` and `validate_reducer_call`. */
  predicate CallAccepted(poolProtocol: string, call: Call) {
    call.protocolId == poolProtocol
  }

  /**
   A call exists exactly for a spec of the manifest used as its own kind; it carries that spec's id and
   hash and the argument, and is accepted exactly by pools of the same manifest.
   */
  lemma {:induction false} CallsFitTheirPool(m: Manifest, host: Manifest, spec: Spec, kind: int, argument: int)
    ensures MakeCall(m, spec, kind, argument).Ok? <==> spec in m.specs && spec.kind == kind
    ensures MakeCall(m, spec, kind, argument).Ok? ==>
      var call := MakeCall(m, spec, kind, argument).value;
      && call.kernelId == spec.id && call.layoutHash == spec.layoutHash && call.argument == argument
      && (CallAccepted(ProtocolId(host), call) <==> m == host)
  {
    Injective(m, host);
  }

  predicate SameSpecs(m: Manifest, entries: seq<Entry>) {
    |entries| == |m.specs| && forall k :: 0 <= k < |entries| ==> entries[k].spec == m.specs[k]
  }

  /** False stands for the abort of `validate_kernel_entries`. */
  method ValidateEntries(m: Manifest, entries: seq<Entry>) returns (ok: bool)
    ensures ok <==> SameSpecs(m, entries)
  {
    if |entries| != |m.specs| { return false; }
    for index := 0 to |entries|
      invariant forall k :: 0 <= k < index ==> entries[k].spec == m.specs[k]
    {
      var expected, actual := m.specs[index], entries[index].spec;
      if actual.id != expected.id || actual.layoutHash != expected.layoutHash || actual.kind != expected.kind {
        return false;
      }
    }
    ok := true;
  }

  /** The first entry with the id decides. */
  function Find(entries: seq<Entry>, kernelId: int, layoutHash: int): Lookup {
    if entries == [] then Missing(UNKNOWN)
    else if entries[0].spec.id == kernelId then
      if entries[0].spec.layoutHash != layoutHash then Missing(LAYOUT_MISMATCH) else Found(entries[0].kernel)
    else Find(entries[1..], kernelId, layoutHash)
  }

  /** The search of `run_kernel_worker`. */
  method FindKernel(entries: seq<Entry>, kernelId: int, layoutHash: int) returns (found: Lookup)
    ensures found == Find(entries, kernelId, layoutHash)
  {
    for k := 0 to |entries|
      invariant Find(entries[k..], kernelId, layoutHash) == Find(entries, kernelId, layoutHash)
    {
      assert entries[k..][1..] == entries[k + 1..];
      if entries[k].spec.id == kernelId {
        return if entries[k].spec.layoutHash != layoutHash then Missing(LAYOUT_MISMATCH) else Found(entries[k].kernel);
      }
    }
    found := Missing(UNKNOWN);
  }

  lemma {:induction false} FindsUnique(entries: seq<Entry>, k: nat)
    requires k < |entries|
    requires forall i, j :: 0 <= i < j < |entries| ==> entries[i].spec.id != entries[j].spec.id
    ensures Find(entries, entries[k].spec.id, entries[k].spec.layoutHash) == Found(entries[k].kernel)
  {
    if k > 0 {
      assert entries[0].spec.id != entries[k].spec.id;
      FindsUnique(entries[1..], k - 1);
    }
  }

  /** Entry k is the first with this id. */
  predicate FirstWith(entries: seq<Entry>, kernelId: int, k: nat) {
    k < |entries| && entries[k].spec.id == kernelId && forall j :: 0 <= j < k ==> entries[j].spec.id != kernelId
  }

  ghost predicate Known(entries: seq<Entry>, kernelId: int) {
    exists k: nat :: FirstWith(entries, kernelId, k)
  }

  /**
   What a lookup answers: UNKNOWN exactly for an id that no entry has; otherwise the first entry with the
   id decides, with its kernel if its hash is the call's and LAYOUT_MISMATCH if not.
   */
  lemma {:induction false} FindTells(entries: seq<Entry>, kernelId: int, layoutHash: int)
    ensures Find(entries, kernelId, layoutHash) == Missing(UNKNOWN) <==>
      forall j :: 0 <= j < |entries| ==> entries[j].spec.id != kernelId
    ensures Known(entries, kernelId) <==> exists j :: 0 <= j < |entries| && entries[j].spec.id == kernelId
    ensures forall k: nat :: FirstWith(entries, kernelId, k) ==>
      Find(entries, kernelId, layoutHash) ==
        if entries[k].spec.layoutHash == layoutHash then Found(entries[k].kernel) else Missing(LAYOUT_MISMATCH)
    decreases |entries|
  {
    if entries != [] {
      var rest := entries[1..];
      FindTells(rest, kernelId, layoutHash);
      if entries[0].spec.id == kernelId {
        assert FirstWith(entries, kernelId, 0);
      } else {
        forall k: nat ensures k > 0 && FirstWith(entries, kernelId, k) ==> FirstWith(rest, kernelId, k - 1) {}
        forall k: nat ensures FirstWith(rest, kernelId, k) ==> FirstWith(entries, kernelId, k + 1) {}
        forall j | 0 <= j < |rest| ensures rest[j].spec.id == entries[j + 1].spec.id {}
      }
    }
  }

  /** A lookup can only fail with the two statuses that the protocol model expects. */
  lemma {:induction false} FindStatuses(entries: seq<Entry>, kernelId: int, layoutHash: int)
    ensures
      var r := Find(entries, kernelId, layoutHash);
      r.Missing? ==> r.status == UNKNOWN || r.status == LAYOUT_MISMATCH
  {
    if entries != [] { FindStatuses(entries[1..], kernelId, layoutHash); }
  }

  /** The lookup returned one of the entries with this spec. */
  ghost predicate Selected(entries: seq<Entry>, spec: Spec, found: Lookup) {
    exists k :: 0 <= k < |entries| && entries[k].spec == spec && found == Found(entries[k].kernel)
  }

  /**
   Behind the handshake a lookup always succeeds. The worker's artifact was built from `guest` and
   validated its entries; start-up compared its string with the pool's; the call was made from some
   manifest and accepted by the pool. Then the worker runs an entry of exactly the call's spec,
   hence of its kind.
   */
  lemma {:induction false} LookupSucceeds(host: Manifest, guest: Manifest, caller: Manifest, entries: seq<Entry>,
                                          spec: Spec, kind: int, argument: int)
    requires Valid(guest) && SameSpecs(guest, entries) && ProtocolId(guest) == ProtocolId(host)
    requires MakeCall(caller, spec, kind, argument).Ok?
    requires CallAccepted(ProtocolId(host), MakeCall(caller, spec, kind, argument).value)
    ensures var call := MakeCall(caller, spec, kind, argument).value;
      spec.kind == kind && Selected(entries, spec, Find(entries, call.kernelId, call.layoutHash))
  {
    Injective(caller, host);
    Injective(guest, host);
    var k :| 0 <= k < |guest.specs| && guest.specs[k] == spec;
    forall i, j | 0 <= i < j < |entries| ensures entries[i].spec.id != entries[j].spec.id {
      assert guest.specs[i].id < guest.specs[j].id;
    }
    FindsUnique(entries, k);
  }

  /** So a worker built this way resolves every accepted call in the sense of the protocol model. */
  lemma {:induction false} AcceptedCallResolves(c: Config, job: Job, host: Manifest, guest: Manifest, caller: Manifest,
                                                entries: seq<Entry>, spec: Spec, kind: int)
    requires forall id, hash :: c.lookup(id, hash) == Find(entries, id, hash)
    requires Valid(guest) && SameSpecs(guest, entries) && ProtocolId(guest) == ProtocolId(host)
    requires MakeCall(caller, spec, kind, job.argument).Ok?
    requires CallAccepted(ProtocolId(host), MakeCall(caller, spec, kind, job.argument).value)
    requires job.kernelId == spec.id && job.layoutHash == spec.layoutHash
    ensures Resolves(c, job) && Selected(entries, spec, Found(KernelOf(c, job)))
  {
    LookupSucceeds(host, guest, caller, entries, spec, kind, job.argument);
  }
}
