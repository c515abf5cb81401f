/** Input coercion driven by type strings, and the macro that prints those strings.

    The macro prints a field's Rust type, strips one outer `Option`, and the string decides at run
    time how the field's JSON value is coerced. The reference here is coercion defined on the type
    itself; the two agree on every type. */
module Coercion {
  import opened Common
  import opened JsonValues

  // ---------------------------------------------------------------- types and their printer

  /** A type as the parser delivers it; `OtherType` is anything the printer calls "Unknown". */
  datatype Type = PathType(segments: seq<Segment>) | Unit | OtherType

  datatype Segment = Segment(ident: string, args: seq<GenericArg>)

  /** `OtherArg` is a lifetime, a const or a binding, which the printer drops. */
  datatype GenericArg = TypeArg(ty: Type) | OtherArg

  function TypeArgs(args: seq<GenericArg>): seq<Type> {
    if args == [] then []
    else if args[0].TypeArg? then [args[0].ty] + TypeArgs(args[1..])
    else TypeArgs(args[1..])
  }

  function Join(parts: seq<string>, separator: string): string {
    if parts == [] then "" else if |parts| == 1 then parts[0]
    else parts[0] + separator + Join(parts[1..], separator)
  }

  function Print(ty: Type): string
    decreases ty, 3
  {
    match ty
    case PathType(segments) => Join(PrintSegments(segments), "::")
    case Unit => "()"
    case OtherType => "Unknown"
  }

  function PrintSegments(segments: seq<Segment>): (parts: seq<string>)
    ensures |parts| == |segments|
    decreases segments, 2
  {
    if segments == [] then [] else [PrintSegment(segments[0])] + PrintSegments(segments[1..])
  }

  function PrintSegment(s: Segment): string
    decreases s, 1
  {
    var inner := PrintArgs(s.args);
    if inner == [] then s.ident else s.ident + "<" + Join(inner, ", ") + ">"
  }

  function PrintArgs(args: seq<GenericArg>): (parts: seq<string>)
    ensures |parts| == |TypeArgs(args)|
    decreases args, 0
  {
    if args == [] then []
    else
      (if args[0].TypeArg? then [PrintArg(args[0])] else []) + PrintArgs(args[1..])
  }

  function PrintArg(a: GenericArg): string
    requires a.TypeArg?
    decreases a, 0
  {
    Print(a.ty)
  }

  /** Rust identifiers contain none of the punctuation the printer adds. */
  predicate CleanIdent(ident: string) {
    forall i :: 0 <= i < |ident| ==> ident[i] !in "<>:,("
  }

  predicate Clean(ty: Type)
    decreases ty, 1
  {
    ty.PathType? ==> forall i :: 0 <= i < |ty.segments| ==> CleanSegment(ty.segments[i])
  }

  predicate CleanSegment(s: Segment)
    decreases s, 0
  {
    CleanIdent(s.ident) && forall i :: 0 <= i < |s.args| && s.args[i].TypeArg? ==> Clean(s.args[i].ty)
  }

  // ---------------------------------------------------------------- coercion by type string

  /** The standard library's parsers (after trimming), its number printing, and its reading of
      "true", "1" and "yes". Nothing is assumed about them. */
  datatype Std = Std(
    parseF64: string -> Option<Num>, parseI64: string -> Option<Num>, parseU64: string -> Option<Num>,
    show: Num -> string, saysTrue: string -> bool)

  const FLOATS: set<string> := {"f64", "f32"}
  const SIGNED: set<string> := {"i64", "i32", "i16", "i8", "isize"}
  const UNSIGNED: set<string> := {"u64", "u32", "u16", "u8", "usize"}
  const STRINGS: set<string> := {"String", "str"}

  function NumberOr(parsed: Option<Num>, value: Json): Json {
    if parsed.Some? then Number(parsed.value) else value
  }

  /** The match on (target type, value). */
  function CoerceBase(lib: Std, value: Json, target: string): Json {
    if target in FLOATS && value.Str? then NumberOr(lib.parseF64(value.s), value)
    else if target in SIGNED && value.Str? then NumberOr(lib.parseI64(value.s), value)
    else if target in UNSIGNED && value.Str? then NumberOr(lib.parseU64(value.s), value)
    else if target in STRINGS && value.Number? then Str(lib.show(value.n))
    else if target in STRINGS && value.Bool? then Str(if value.b then "true" else "false")
    else if target == "bool" && value.Str? then Bool(lib.saysTrue(value.s))
    else if target == "bool" && value.Number? then Bool(AsReal(value.n) != 0.0)
    else value
  }

  function ExtractInnerType(name: string, wrapper: string): Option<string> {
    var prefix := wrapper + "<";
    if prefix <= name && name[|name| - 1] == '>' && |prefix| < |name|
    then Some(name[|prefix|..|name| - 1]) else None
  }

  function CoerceToType(lib: Std, value: Json, name: string): Json {
    var inner := ExtractInnerType(name, "Option");
    if value.Null? then value
    else CoerceBase(lib, value, if inner.Some? then inner.value else name)
  }

  function CoerceFieldValue(lib: Std, value: Json, name: string): Json {
    var inner := ExtractInnerType(name, "Vec");
    if inner.Some? then
      if value.Array?
      then Array(seq(|value.items|,
                     i requires 0 <= i < |value.items| => CoerceToType(lib, value.items[i], inner.value)))
      else value
    else CoerceToType(lib, value, name)
  }

  /** The macro's `unwrap_option_type`, whose first part becomes the field's type name. */
  function UnwrapOptionType(name: string): (string, bool) {
    var inner := ExtractInnerType(name, "Option");
    if inner.Some? then (inner.value, true) else (name, false)
  }

  // ---------------------------------------------------------------- coercion by type

  /** `ty` is `wrapper<T>` for a single type argument T. */
  function Inner(ty: Type, wrapper: string): Option<Type> {
    if ty.PathType? && |ty.segments| == 1 && ty.segments[0].ident == wrapper && |TypeArgs(ty.segments[0].args)| == 1
    then Some(TypeArgs(ty.segments[0].args)[0]) else None
  }

  function WithoutOption(ty: Type): Type {
    if Inner(ty, "Option").Some? then Inner(ty, "Option").value else ty
  }

  /** The identifier of a type that is one plain identifier. */
  function PlainName(ty: Type): Option<string> {
    if ty.PathType? && |ty.segments| == 1 && TypeArgs(ty.segments[0].args) == []
    then Some(ty.segments[0].ident) else None
  }

  /** A plain named type coerces by its name; every other type leaves the value alone. */
  function CoerceNamed(lib: Std, value: Json, ty: Type): Json {
    if PlainName(ty).Some? then CoerceBase(lib, value, PlainName(ty).value) else value
  }

  function CoerceAs(lib: Std, value: Json, ty: Type): Json {
    if value.Null? then value else CoerceNamed(lib, value, WithoutOption(ty))
  }

  function CoerceFieldAs(lib: Std, value: Json, ty: Type): Json {
    var element := Inner(ty, "Vec");
    if element.Some? then
      if value.Array?
      then Array(seq(|value.items|, i requires 0 <= i < |value.items| => CoerceAs(lib, value.items[i], element.value)))
      else value
    else CoerceAs(lib, value, ty)
  }

  // ---------------------------------------------------------------- strings that name nothing

  /** A character the printer puts in, which no base type name contains. */
  ghost predicate Marked(s: string) { ':' in s || ',' in s || '(' in s }

  const BASE_NAMES: set<string> := FLOATS + SIGNED + UNSIGNED + STRINGS + {"bool"}

  ghost predicate IsWord(name: string) { name != "" && name != "Unknown" && '<' !in name && !Marked(name) }

  lemma NumberNamesAreWords(name: string)
    ensures name in FLOATS || name in SIGNED ==> IsWord(name)
  {
  }

  lemma UnsignedNamesAreWords(name: string)
    ensures name in UNSIGNED ==> IsWord(name)
  {
  }

  lemma TextNamesAreWords(name: string)
    ensures name in STRINGS || name == "bool" ==> IsWord(name)
  {
  }

  lemma BaseNamesAreClean(name: string)
    ensures name in BASE_NAMES ==> IsWord(name)
  {
    NumberNamesAreWords(name);
    UnsignedNamesAreWords(name);
    TextNamesAreWords(name);
  }

  lemma OtherNamesAreInert(lib: Std, value: Json, name: string)
    requires !IsWord(name)
    ensures CoerceBase(lib, value, name) == value
  {
    BaseNamesAreClean(name);
    assert FLOATS <= BASE_NAMES && SIGNED <= BASE_NAMES && UNSIGNED <= BASE_NAMES && STRINGS <= BASE_NAMES;
  }

  lemma InnerStaysMarked(name: string, wrapper: string)
    requires Marked(name) && !Marked(wrapper) && ExtractInnerType(name, wrapper).Some?
    ensures Marked(ExtractInnerType(name, wrapper).value)
  {
  }

  lemma MarkedToTypeIsInert(lib: Std, value: Json, name: string)
    requires Marked(name)
    ensures CoerceToType(lib, value, name) == value
  {
    var inner := ExtractInnerType(name, "Option");
    if inner.Some? {
      InnerStaysMarked(name, "Option");
      OtherNamesAreInert(lib, value, inner.value);
    } else {
      OtherNamesAreInert(lib, value, name);
    }
  }

  lemma MarkedFieldIsInert(lib: Std, value: Json, name: string)
    requires Marked(name)
    ensures CoerceFieldValue(lib, value, name) == value
  {
    var inner := ExtractInnerType(name, "Vec");
    if inner.Some? {
      InnerStaysMarked(name, "Vec");
      if value.Array? {
        forall i | 0 <= i < |value.items|
          ensures CoerceToType(lib, value.items[i], inner.value) == value.items[i]
        {
          MarkedToTypeIsInert(lib, value.items[i], inner.value);
        }
        assert CoerceFieldValue(lib, value, name).items == value.items;
      }
    } else {
      MarkedToTypeIsInert(lib, value, name);
    }
  }

  // ---------------------------------------------------------------- what the printer prints

  lemma JoinIsMarked(parts: seq<string>, separator: string)
    requires |parts| >= 2 && separator != ""
    ensures separator[0] in Join(parts, separator)
  {
  }

  lemma {:induction false} PrintArgsAt(args: seq<GenericArg>, i: nat)
    requires i < |TypeArgs(args)|
    ensures PrintArgs(args)[i] == Print(TypeArgs(args)[i])
  {
    if args[0].OtherArg? {
      PrintArgsAt(args[1..], i);
    } else if i > 0 {
      PrintArgsAt(args[1..], i - 1);
    }
  }

  lemma {:induction false} TypeArgsAreClean(args: seq<GenericArg>, i: nat)
    requires i < |TypeArgs(args)|
    requires forall j :: 0 <= j < |args| && args[j].TypeArg? ==> Clean(args[j].ty)
    ensures Clean(TypeArgs(args)[i])
  {
    assert forall j :: 0 <= j < |args[1..]| ==> args[1..][j] == args[j + 1];
    if args[0].OtherArg? {
      TypeArgsAreClean(args[1..], i);
    } else if i > 0 {
      TypeArgsAreClean(args[1..], i - 1);
    }
  }

  /** Every printed type is a plain identifier, `ident<T>` for one printed argument, or marked; or
      it is "Unknown" or empty. */
  lemma PrintedForms(ty: Type)
    requires Clean(ty)
    ensures PlainName(ty).Some? ==> Print(ty) == PlainName(ty).value && CleanIdent(Print(ty))
    ensures forall w :: Inner(ty, w).Some? ==>
              Print(ty) == w + "<" + Print(Inner(ty, w).value) + ">" && CleanIdent(w) && Clean(Inner(ty, w).value)
    ensures PlainName(ty).Some? || (exists w :: Inner(ty, w).Some?) || Marked(Print(ty)) || Print(ty) in {"", "Unknown"}
  {
    if ty.PathType? && |ty.segments| == 1 {
      var s := ty.segments[0];
      assert CleanSegment(s);
      assert PrintSegments(ty.segments) == [PrintSegment(s)];
      assert Print(ty) == PrintSegment(s);
      var ts := TypeArgs(s.args);
      if |ts| == 1 {
        PrintArgsAt(s.args, 0);
        TypeArgsAreClean(s.args, 0);
        assert PrintArgs(s.args) == [Print(ts[0])];
        assert Inner(ty, s.ident) == Some(ts[0]);
      } else if |ts| >= 2 {
        JoinIsMarked(PrintArgs(s.args), ", ");
        assert ',' in Print(ty);
      }
    } else if ty.PathType? && |ty.segments| >= 2 {
      JoinIsMarked(PrintSegments(ty.segments), "::");
      assert ':' in Print(ty);
    } else if ty.Unit? {
      assert "()"[0] == '(';
    }
  }

  /** Stripping a wrapper undoes printing it, and finds nothing in any other printed type. */
  lemma ExtractUndoesPrint(ty: Type, wrapper: string)
    requires Clean(ty) && CleanIdent(wrapper) && wrapper != ""
    ensures Inner(ty, wrapper).Some? ==> ExtractInnerType(Print(ty), wrapper) == Some(Print(Inner(ty, wrapper).value))
    ensures Inner(ty, wrapper).None? && !Marked(Print(ty)) ==> ExtractInnerType(Print(ty), wrapper) == None
  {
    PrintedForms(ty);
    var name, prefix := Print(ty), wrapper + "<";
    if Inner(ty, wrapper).Some? {
      assert name[|prefix|..|name| - 1] == Print(Inner(ty, wrapper).value);
    } else {
      assert prefix <= name ==> name[|wrapper|] == prefix[|wrapper|] == '<';
      assert PlainName(ty).Some? ==> '<' !in name;
      assert '<' !in "Unknown";
      if w :| Inner(ty, w).Some? {
        OneOpeningBracket(name, w, wrapper);
      }
    }
  }

  /** The first bracket decides the identifier. */
  lemma OneOpeningBracket(name: string, w: string, wrapper: string)
    requires CleanIdent(w) && CleanIdent(wrapper)
    ensures w + "<" <= name && wrapper + "<" <= name ==> w == wrapper
  {
    assert w + "<" <= name ==> w == name[..|w|] && name[|w|] == (w + "<")[|w|] == '<';
    assert wrapper + "<" <= name ==>
        wrapper == name[..|wrapper|] && name[|wrapper|] == (wrapper + "<")[|wrapper|] == '<';
    assert |w| < |wrapper| ==> wrapper[|w|] !in "<>:,(";
    assert |wrapper| < |w| ==> w[|wrapper|] !in "<>:,(";
  }

  // ---------------------------------------------------------------- agreement

  lemma BaseAgrees(lib: Std, value: Json, ty: Type)
    requires Clean(ty)
    ensures CoerceBase(lib, value, Print(ty)) == CoerceNamed(lib, value, ty)
  {
    PrintedForms(ty);
    if PlainName(ty).None? {
      if w :| Inner(ty, w).Some? {
        assert Print(ty)[|w|] == '<';
      }
      OtherNamesAreInert(lib, value, Print(ty));
    }
  }

  lemma ToTypeAgrees(lib: Std, value: Json, ty: Type)
    requires Clean(ty)
    ensures CoerceToType(lib, value, Print(ty)) == CoerceAs(lib, value, ty)
  {
    PrintedForms(ty);
    ExtractUndoesPrint(ty, "Option");
    if Inner(ty, "Option").Some? {
      BaseAgrees(lib, value, Inner(ty, "Option").value);
    } else if Marked(Print(ty)) {
      MarkedToTypeIsInert(lib, value, Print(ty));
      if PlainName(ty).Some? {
        assert false;
      }
    } else {
      BaseAgrees(lib, value, ty);
    }
  }

  lemma FieldAgrees(lib: Std, value: Json, ty: Type)
    requires Clean(ty)
    ensures CoerceFieldValue(lib, value, Print(ty)) == CoerceFieldAs(lib, value, ty)
  {
    PrintedForms(ty);
    ExtractUndoesPrint(ty, "Vec");
    var element := Inner(ty, "Vec");
    if element.Some? {
      if value.Array? {
        forall i | 0 <= i < |value.items|
          ensures CoerceToType(lib, value.items[i], Print(element.value))
                  == CoerceAs(lib, value.items[i], element.value)
        {
          ToTypeAgrees(lib, value.items[i], element.value);
        }
        assert CoerceFieldValue(lib, value, Print(ty)).items == CoerceFieldAs(lib, value, ty).items;
      }
    } else if Marked(Print(ty)) {
      MarkedFieldIsInert(lib, value, Print(ty));
      MarkedToTypeIsInert(lib, value, Print(ty));
      ToTypeAgrees(lib, value, ty);
    } else {
      ToTypeAgrees(lib, value, ty);
    }
  }

  /** For every type with clean identifiers, whatever its paths and generics: coercing by the string
      the macro prints and unwraps is coercing by the type with its outer `Option` removed. */
  lemma StringCoercionIsStructural(lib: Std, value: Json, ty: Type)
    requires Clean(ty)
    ensures CoerceFieldValue(lib, value, UnwrapOptionType(Print(ty)).0) == CoerceFieldAs(lib, value, WithoutOption(ty))
  {
    PrintedForms(ty);
    ExtractUndoesPrint(ty, "Option");
    if Inner(ty, "Option").Some? {
      FieldAgrees(lib, value, Inner(ty, "Option").value);
    } else {
      FieldAgrees(lib, value, ty);
      if ExtractInnerType(Print(ty), "Option").Some? {
        InnerStaysMarked(Print(ty), "Option");
        MarkedFieldIsInert(lib, value, UnwrapOptionType(Print(ty)).0);
        MarkedFieldIsInert(lib, value, Print(ty));
      }
    }
  }

  // ---------------------------------------------------------------- coercing twice

  lemma ToTypeIsIdempotent(lib: Std, value: Json, name: string)
    ensures CoerceToType(lib, CoerceToType(lib, value, name), name) == CoerceToType(lib, value, name)
  {
  }

  /** Coercing a coerced value again changes nothing, for every value and every type string. */
  lemma CoercionIsIdempotent(lib: Std, value: Json, name: string)
    ensures CoerceFieldValue(lib, CoerceFieldValue(lib, value, name), name) == CoerceFieldValue(lib, value, name)
  {
    var inner := ExtractInnerType(name, "Vec");
    if inner.Some? {
      if value.Array? {
        var once := CoerceFieldValue(lib, value, name);
        var twice := CoerceFieldValue(lib, once, name);
        forall i | 0 <= i < |value.items|
          ensures twice.items[i] == once.items[i]
        {
          ToTypeIsIdempotent(lib, value.items[i], inner.value);
        }
        assert twice.items == once.items;
      }
    } else {
      ToTypeIsIdempotent(lib, value, name);
    }
  }

  // ---------------------------------------------------------------- whole inputs

  datatype Field = Field(name: string, typeName: string)

  function CoerceFields(lib: Std, fields: map<string, Json>, meta: seq<Field>): map<string, Json> {
    if meta == [] then fields
    else
      var m := CoerceFields(lib, fields, meta[..|meta| - 1]);
      var f := meta[|meta| - 1];
      if f.name in m then m[f.name := CoerceFieldValue(lib, m[f.name], f.typeName)] else m
  }

  method CoerceInput(lib: Std, input: Json, meta: seq<Field>) returns (coerced: Json)
    ensures coerced == if input.Object? then Object(CoerceFields(lib, input.fields, meta)) else input
  {
    coerced := input;
    if input.Object? {
      var fields := input.fields;
      for i := 0 to |meta|
        invariant fields == CoerceFields(lib, input.fields, meta[..i])
      {
        assert meta[..i + 1][..i] == meta[..i];
        if meta[i].name in fields {
          var value := fields[meta[i].name];
          ghost var before := fields;
          fields := fields - {meta[i].name};
          var c := CoerceFieldValue(lib, value, meta[i].typeName);
          fields := fields[meta[i].name := c];
          assert fields == before[meta[i].name := c];
        }
      }
      assert meta[..|meta|] == meta;
      coerced := Object(fields);
    }
  }

  lemma {:induction false} UndeclaredAreUntouched(lib: Std, fields: map<string, Json>, meta: seq<Field>)
    ensures var m := CoerceFields(lib, fields, meta);
            && m.Keys == fields.Keys
            && (forall k :: k in fields && (forall f :: f in meta ==> f.name != k) ==> m[k] == fields[k])
  {
    if meta == [] {
    } else {
      var front, last := meta[..|meta| - 1], meta[|meta| - 1];
      UndeclaredAreUntouched(lib, fields, front);
      assert forall f :: f in front ==> f in meta;
      assert last in meta;
    }
  }

  /** No field appears or disappears, undeclared fields are untouched, and a declared field (declared
      once) is coerced by its own type. */
  lemma {:induction false} CoerceFieldsPerField(lib: Std, fields: map<string, Json>, meta: seq<Field>)
    requires forall i, j :: 0 <= i < j < |meta| ==> meta[i].name != meta[j].name
    ensures var m := CoerceFields(lib, fields, meta);
            && m.Keys == fields.Keys
            && (forall k :: k in fields && (forall f :: f in meta ==> f.name != k) ==> m[k] == fields[k])
            && (forall f :: f in meta && f.name in fields ==>
                  m[f.name] == CoerceFieldValue(lib, fields[f.name], f.typeName))
  {
    UndeclaredAreUntouched(lib, fields, meta);
    if meta == [] {
    } else {
      var front, last := meta[..|meta| - 1], meta[|meta| - 1];
      CoerceFieldsPerField(lib, fields, front);
      assert forall f :: f in front ==> f.name != last.name;
      assert forall f :: f in meta <==> f in front || f == last;
    }
  }

  lemma CoercingFieldsTwice(lib: Std, fields: map<string, Json>, meta: seq<Field>)
    requires forall i, j :: 0 <= i < j < |meta| ==> meta[i].name != meta[j].name
    ensures var m := CoerceFields(lib, fields, meta); CoerceFields(lib, m, meta) == m
  {
    var m := CoerceFields(lib, fields, meta);
    var again := CoerceFields(lib, m, meta);
    CoerceFieldsPerField(lib, fields, meta);
    CoerceFieldsPerField(lib, m, meta);
    forall k | k in fields
      ensures again[k] == m[k]
    {
      if f :| f in meta && f.name == k {
        CoercionIsIdempotent(lib, fields[k], f.typeName);
      }
    }
  }

  /** A struct field as declared in Rust, and the metadata the macro derives for the struct. */
  datatype Declared = Declared(name: string, ty: Type)

  function MetaOf(decls: seq<Declared>): seq<Field> {
    seq(|decls|, i requires 0 <= i < |decls| => Field(decls[i].name, UnwrapOptionType(Print(decls[i].ty)).0))
  }

  /** End to end: an input coerced with a struct's derived metadata has each declared field coerced by
      that field's Rust type, every other field as it was, and coercing it again changes nothing. */
  lemma DeclaredFieldsAreCoercedByType(lib: Std, fields: map<string, Json>, decls: seq<Declared>)
    requires forall i, j :: 0 <= i < j < |decls| ==> decls[i].name != decls[j].name
    requires forall i :: 0 <= i < |decls| ==> Clean(decls[i].ty)
    ensures var m := CoerceFields(lib, fields, MetaOf(decls));
            && m.Keys == fields.Keys
            && (forall k :: k in fields && (forall d :: d in decls ==> d.name != k) ==> m[k] == fields[k])
            && (forall i :: 0 <= i < |decls| && decls[i].name in fields ==>
                  m[decls[i].name] == CoerceFieldAs(lib, fields[decls[i].name], WithoutOption(decls[i].ty)))
            && CoerceFields(lib, m, MetaOf(decls)) == m
  {
    var meta := MetaOf(decls);
    CoerceFieldsPerField(lib, fields, meta);
    var m := CoerceFields(lib, fields, meta);
    CoercingFieldsTwice(lib, fields, meta);
    forall i | 0 <= i < |decls| && decls[i].name in fields
      ensures m[decls[i].name] == CoerceFieldAs(lib, fields[decls[i].name], WithoutOption(decls[i].ty))
    {
      assert meta[i] in meta;
      StringCoercionIsStructural(lib, fields[decls[i].name], decls[i].ty);
    }
    forall f | f in meta
      ensures exists i :: 0 <= i < |decls| && decls[i].name == f.name
    {
      var i :| 0 <= i < |meta| && meta[i] == f;
      assert decls[i].name == f.name;
    }
  }
}
