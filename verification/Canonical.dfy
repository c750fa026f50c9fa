/**
 The canonical kernel text of tools/mayo_gen.ts whose hash becomes the layout hash. The manifest may
 contain the separator; nothing after it can.
 */
module Canonical {
  import opened Layout
  import opened Wrappers

  datatype Shape = NoLayout | Named(name: string, fields: seq<Field>)

  datatype Descriptor = Descriptor(manifest: string, name: string, reduces: bool, argument: Option<string>,
                                   shape: Shape)

  /** The characters of snake_case and PascalCase names. */
  predicate NameChar(c: char) {
    'a' <= c <= 'z' || 'A' <= c <= 'Z' || '0' <= c <= '9' || c == '_'
  }

  predicate Name(s: string) {
    s != "" && forall i :: 0 <= i < |s| ==> NameChar(s[i])
  }

  /** What `validateSchema` checks of one kernel, apart from the manifest, which may be any text. */
  predicate Valid(d: Descriptor) {
    && Name(d.name) && (d.argument.Some? ==> Name(d.argument.value))
    && (d.shape.Named? ==> Name(d.shape.name) && d.shape.fields != [] && Fields(d.shape.fields))
  }

  predicate Fields(fields: seq<Field>) {
    forall k :: 0 <= k < |fields| ==> Name(fields[k].name)
  }

  // ---- the text

  function TypeText(kind: Kind): string {
    if kind.I32? then "i32" else "slice_i32"
  }

  function FieldText(field: Field): string {
    field.name + ":" + TypeText(field.kind)
  }

  function FieldsText(fields: seq<Field>): string {
    if fields == [] then ""
    else if |fields| == 1 then FieldText(fields[0])
    else FieldText(fields[0]) + "," + FieldsText(fields[1..])
  }

  function ShapeText(shape: Shape): string {
    match shape
    case NoLayout => "layout:none"
    case Named(name, fields) => "layout:" + name + "{" + FieldsText(fields) + "}"
  }

  function ArgumentText(argument: Option<string>): string {
    if argument.None? then "argument:none" else "argument:" + argument.value + ":i32"
  }

  function KindText(reduces: bool): string {
    if reduces then "kind:reduce" else "kind:map"
  }

  function Text(d: Descriptor): string {
    "mayo.descriptor/v1" + "|" + d.manifest + "|" + d.name + "|" + KindText(d.reduces) + "|" +
    ArgumentText(d.argument) + "|" + ShapeText(d.shape)
  }

  // ---- splitting

  predicate Without(s: string, c: char) {
    forall i :: 0 <= i < |s| ==> s[i] != c
  }

  lemma SplitLast(c: char, x: string, p: string, y: string, q: string)
    requires Without(p, c) && Without(q, c) && x + [c] + p == y + [c] + q
    ensures x == y && p == q
  {
    var t := x + [c] + p;
    assert t[|x|] == c && t[|y|] == c;
    assert t[..|x|] == x && t[..|y|] == y;
    assert t[|x| + 1..] == p && t[|y| + 1..] == q;
  }

  lemma SplitFirst(c: char, x: string, p: string, y: string, q: string)
    requires Without(x, c) && Without(y, c) && x + [c] + p == y + [c] + q
    ensures x == y && p == q
  {
    var t := x + [c] + p;
    assert t[|x|] == c && t[|y|] == c;
    assert t[..|x|] == x && t[..|y|] == y;
    assert t[|x| + 1..] == p && t[|y| + 1..] == q;
  }

  lemma DropPrefix(prefix: string, x: string, y: string)
    requires prefix + x == prefix + y
    ensures x == y
  {
    assert (prefix + x)[|prefix|..] == x && (prefix + y)[|prefix|..] == y;
  }

  lemma DropSuffix(suffix: string, x: string, y: string)
    requires x + suffix == y + suffix
    ensures x == y
  {
    assert |x| == |y|;
    assert (x + suffix)[..|x|] == x && (y + suffix)[..|y|] == y;
  }

  lemma NameWithout(s: string, c: char)
    requires Name(s) && !NameChar(c)
    ensures Without(s, c)
  {}

  lemma ConcatWithout(s: string, t: string, c: char)
    requires Without(s, c) && Without(t, c)
    ensures Without(s + t, c)
  {}

  lemma FieldWithout(field: Field, c: char)
    requires Name(field.name) && (c == '|' || c == ',' || c == '{')
    ensures Without(FieldText(field), c)
  {
    NameWithout(field.name, c);
    ConcatWithout(field.name, ":", c);
    ConcatWithout(field.name + ":", TypeText(field.kind), c);
  }

  lemma {:induction false} FieldsWithoutBar(fields: seq<Field>)
    requires Fields(fields)
    ensures Without(FieldsText(fields), '|')
  {
    if fields != [] {
      FieldWithout(fields[0], '|');
      if |fields| > 1 {
        FieldsWithoutBar(fields[1..]);
        ConcatWithout(FieldText(fields[0]), ",", '|');
        ConcatWithout(FieldText(fields[0]) + ",", FieldsText(fields[1..]), '|');
      }
    }
  }

  // ---- every part is determined by its text

  lemma FieldDetermined(f: Field, g: Field)
    requires Name(f.name) && Name(g.name) && FieldText(f) == FieldText(g)
    ensures f == g
  {
    NameWithout(f.name, ':');
    NameWithout(g.name, ':');
    SplitFirst(':', f.name, TypeText(f.kind), g.name, TypeText(g.kind));
  }

  lemma {:induction false} FieldsDetermined(fs: seq<Field>, gs: seq<Field>)
    requires fs != [] && gs != [] && Fields(fs) && Fields(gs) && FieldsText(fs) == FieldsText(gs)
    ensures fs == gs
    decreases |fs|
  {
    FieldWithout(fs[0], ',');
    FieldWithout(gs[0], ',');
    SeveralHaveComma(fs);
    SeveralHaveComma(gs);
    if |fs| == 1 && |gs| == 1 {
      FieldDetermined(fs[0], gs[0]);
    } else if |fs| > 1 && |gs| > 1 {
      SplitFirst(',', FieldText(fs[0]), FieldsText(fs[1..]), FieldText(gs[0]), FieldsText(gs[1..]));
      FieldDetermined(fs[0], gs[0]);
      FieldsDetermined(fs[1..], gs[1..]);
      assert fs == [fs[0]] + fs[1..] && gs == [gs[0]] + gs[1..];
    }
  }

  lemma SeveralHaveComma(fields: seq<Field>)
    ensures |fields| > 1 ==> !Without(FieldsText(fields), ',')
  {
    if |fields| > 1 {
      assert FieldsText(fields)[|FieldText(fields[0])|] == ',';
    }
  }

  lemma ArgumentLength(a: Option<string>)
    requires a.Some? ==> a.value != ""
    ensures a.Some? <==> |ArgumentText(a)| > 13
  {}

  lemma Regroup(a: string, b: string, c: string)
    ensures a + b + c == a + (b + c)
  {}

  lemma ArgumentDetermined(a: Option<string>, b: Option<string>)
    requires (a.Some? ==> Name(a.value)) && (b.Some? ==> Name(b.value)) && ArgumentText(a) == ArgumentText(b)
    ensures a == b
  {
    ArgumentLength(a);
    ArgumentLength(b);
    if a.Some? {
      Regroup("argument:", a.value, ":i32");
      Regroup("argument:", b.value, ":i32");
      DropPrefix("argument:", a.value + ":i32", b.value + ":i32");
      DropSuffix(":i32", a.value, b.value);
    }
  }

  lemma NamedShape(name: string, fields: seq<Field>)
    ensures ShapeText(Named(name, fields)) == "layout:" + (name + ['{'] + FieldsText(fields) + "}")
  {}

  lemma ShapeDetermined(a: Shape, b: Shape)
    requires a.Named? ==> Name(a.name) && a.fields != [] && Fields(a.fields)
    requires b.Named? ==> Name(b.name) && b.fields != [] && Fields(b.fields)
    requires ShapeText(a) == ShapeText(b)
    ensures a == b
  {
    if a.Named? && b.Named? {
      NamedShape(a.name, a.fields);
      NamedShape(b.name, b.fields);
      var x, y := a.name + ['{'] + FieldsText(a.fields), b.name + ['{'] + FieldsText(b.fields);
      DropPrefix("layout:", x + "}", y + "}");
      DropSuffix("}", x, y);
      NameWithout(a.name, '{');
      NameWithout(b.name, '{');
      SplitFirst('{', a.name, FieldsText(a.fields), b.name, FieldsText(b.fields));
      FieldsDetermined(a.fields, b.fields);
    } else if a.Named? {
      LastChar(a);
    } else if b.Named? {
      LastChar(b);
    }
  }

  /** A named shape ends with a brace, so it is not the text of no layout. */
  lemma LastChar(a: Shape)
    requires a.Named?
    ensures ShapeText(a) != ShapeText(NoLayout)
  {
    assert ShapeText(a)[|ShapeText(a)| - 1] == '}';
    assert ShapeText(NoLayout)[10] == 'e' && |ShapeText(NoLayout)| == 11;
  }

  /** No part after the manifest contains the separator. */
  lemma PartsWithoutBar(d: Descriptor)
    requires Valid(d)
    ensures Without(d.name, '|') && Without(KindText(d.reduces), '|')
    ensures Without(ArgumentText(d.argument), '|') && Without(ShapeText(d.shape), '|')
  {
    NameWithout(d.name, '|');
    if d.argument.Some? {
      NameWithout(d.argument.value, '|');
      ConcatWithout("argument:", d.argument.value, '|');
      ConcatWithout("argument:" + d.argument.value, ":i32", '|');
    }
    if d.shape.Named? {
      NameWithout(d.shape.name, '|');
      FieldsWithoutBar(d.shape.fields);
      NamedShape(d.shape.name, d.shape.fields);
    }
  }

  /** The canonical text determines the whole descriptor. */
  lemma {:induction false} TextDetermines(d: Descriptor, e: Descriptor)
    requires Valid(d) && Valid(e)
    ensures Text(d) == Text(e) <==> d == e
  {
    if Text(d) == Text(e) {
      PartsWithoutBar(d);
      PartsWithoutBar(e);
      var d1, e1 := "mayo.descriptor/v1" + "|" + d.manifest, "mayo.descriptor/v1" + "|" + e.manifest;
      var d2, e2 := d1 + "|" + d.name, e1 + "|" + e.name;
      var d3, e3 := d2 + "|" + KindText(d.reduces), e2 + "|" + KindText(e.reduces);
      var d4, e4 := d3 + "|" + ArgumentText(d.argument), e3 + "|" + ArgumentText(e.argument);
      SplitLast('|', d4, ShapeText(d.shape), e4, ShapeText(e.shape));
      SplitLast('|', d3, ArgumentText(d.argument), e3, ArgumentText(e.argument));
      SplitLast('|', d2, KindText(d.reduces), e2, KindText(e.reduces));
      SplitLast('|', d1, d.name, e1, e.name);
      DropPrefix("mayo.descriptor/v1" + "|", d.manifest, e.manifest);
      ShapeDetermined(d.shape, e.shape);
      ArgumentDetermined(d.argument, e.argument);
    }
  }

  lemma {:induction false} KnownFields()
    ensures FieldsText([Field("w", I32), Field("s", SliceI32)]) == "w:i32,s:slice_i32"
  {
    var fields := [Field("w", I32), Field("s", SliceI32)];
    assert fields[1..] == [Field("s", SliceI32)];
    assert FieldText(fields[0]) == "w:i32" && FieldText(fields[1]) == "s:slice_i32";
    assert FieldsText(fields[1..]) == FieldText(fields[1]);
  }

  lemma {:induction false} KnownShape()
    ensures ShapeText(Named("L", [Field("w", I32), Field("s", SliceI32)])) == "layout:L{w:i32,s:slice_i32}"
  {
    KnownFields();
  }

  lemma {:induction false} KnownHead(manifest: string, name: string, kind: string, argument: string, shape: string)
    requires manifest == "m|v1" && name == "k" && argument == "argument:a:i32" && kind == "kind:map"
    ensures "mayo.descriptor/v1" + "|" + manifest + "|" + name + "|" + kind + "|" + argument + "|" + shape ==
      "mayo.descriptor/v1|m|v1|k|kind:map|argument:a:i32|" + shape
  {}

  /** The text of a map kernel with argument and layout, written out. */
  lemma {:induction false} KnownText()
    ensures Text(Descriptor("m|v1", "k", false, Some("a"), Named("L", [Field("w", I32), Field("s", SliceI32)]))) ==
      "mayo.descriptor/v1|m|v1|k|kind:map|argument:a:i32|" + "layout:L{w:i32,s:slice_i32}"
  {
    KnownShape();
    assert ArgumentText(Some("a")) == "argument:a:i32";
    KnownHead("m|v1", "k", "kind:map", "argument:a:i32", "layout:L{w:i32,s:slice_i32}");
  }

  lemma {:induction false} KnownTail(manifest: string, name: string, kind: string, argument: string, shape: string)
    requires manifest == "m" && name == "k" && kind == "kind:reduce" && argument == "argument:none"
    ensures "mayo.descriptor/v1" + "|" + manifest + "|" + name + "|" + kind + "|" + argument + "|" + shape ==
      "mayo.descriptor/v1|m|k|kind:reduce|argument:none|" + shape
  {}

  /** The text of a reducer without argument and layout. */
  lemma {:induction false} KnownReducerText()
    ensures Text(Descriptor("m", "k", true, None, NoLayout)) ==
      "mayo.descriptor/v1|m|k|kind:reduce|argument:none|" + "layout:none"
  {
    KnownTail("m", "k", "kind:reduce", "argument:none", "layout:none");
  }
}
