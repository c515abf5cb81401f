/** What coercion by type does to a value, stated as a table by the kind of the value and the name of the
    type, and carried through `Option`, `Vec`, the printed type strings and whole inputs. */
module CoercionLaws {
  import opened Common
  import opened JsonValues
  import opened Coercion

  /** A string becomes the number that a parser finds in it, and stays if it finds none. */
  predicate ReadsNumber(parsed: Option<Num>, v: Json, w: Json) {
    (parsed.Some? ==> w == Number(parsed.value)) && (parsed.None? ==> w == v)
  }

  /** The whole table: what a value v of each kind becomes under each plain type name. */
  predicate Converts(lib: Std, name: string, v: Json, w: Json) {
    match v
    case Str(s) =>
      if name == "f64" || name == "f32" then ReadsNumber(lib.parseF64(s), v, w)
      else if name in {"i64", "i32", "i16", "i8", "isize"} then ReadsNumber(lib.parseI64(s), v, w)
      else if name in {"u64", "u32", "u16", "u8", "usize"} then ReadsNumber(lib.parseU64(s), v, w)
      else if name == "bool" then w == Bool(lib.saysTrue(s))
      else w == v
    case Number(n) =>
      if name == "String" || name == "str" then w == Str(lib.show(n))
      else if name == "bool" then w == Bool(!Denotes(v, 0.0))
      else w == v
    case Bool(b) =>
      if name == "String" || name == "str" then w == Str(if b then "true" else "false") else w == v
    case _ => w == v
  }

  /** One value under a type: an outer `Option` counts for nothing, a plain name decides by the table, and
      any other type leaves the value alone. */
  predicate ValueConverts(lib: Std, ty: Type, v: Json, w: Json) {
    var name := PlainName(WithoutOption(ty));
    if name.Some? then Converts(lib, name.value, v, w) else w == v
  }

  /** A field under a type: the elements of an array under `Vec`, or the value itself. */
  predicate FieldConverts(lib: Std, ty: Type, v: Json, w: Json) {
    if Inner(ty, "Vec").None? then ValueConverts(lib, ty, v, w)
    else if !v.Array? then w == v
    else
      && w.Array? && |w.items| == |v.items|
      && forall i :: 0 <= i < |v.items| ==> ValueConverts(lib, Inner(ty, "Vec").value, v.items[i], w.items[i])
  }

  lemma BaseConverts(lib: Std, v: Json, name: string)
    ensures Converts(lib, name, v, CoerceBase(lib, v, name))
  {
    match v
    case Str(s) => StringConverts(lib, s, name);
    case Number(n) => NumberConverts(lib, n, name);
    case _ =>
  }

  lemma StringConverts(lib: Std, s: string, name: string)
    ensures Converts(lib, name, Str(s), CoerceBase(lib, Str(s), name))
  {
  }

  lemma NumberConverts(lib: Std, n: Num, name: string)
    ensures Converts(lib, name, Number(n), CoerceBase(lib, Number(n), name))
  {
  }

  lemma ValueIsConverted(lib: Std, v: Json, ty: Type)
    ensures ValueConverts(lib, ty, v, CoerceAs(lib, v, ty))
  {
    var name := PlainName(WithoutOption(ty));
    if name.Some? {
      BaseConverts(lib, v, name.value);
    }
  }

  /** Structural coercion follows the table. */
  lemma FieldIsConverted(lib: Std, v: Json, ty: Type)
    ensures FieldConverts(lib, ty, v, CoerceFieldAs(lib, v, ty))
  {
    var element := Inner(ty, "Vec");
    if element.None? {
      ValueIsConverted(lib, v, ty);
    } else if v.Array? {
      forall i | 0 <= i < |v.items|
        ensures ValueConverts(lib, element.value, v.items[i], CoerceFieldAs(lib, v, ty).items[i])
      {
        ValueIsConverted(lib, v.items[i], element.value);
      }
    }
  }

  /** So does coercion by the name of a plain type. */
  lemma NamedFieldIsConverted(lib: Std, v: Json, name: string)
    requires CleanIdent(name)
    ensures Converts(lib, name, v, CoerceFieldValue(lib, v, name))
  {
    NothingToStrip(name, "Vec");
    NothingToStrip(name, "Option");
    BaseConverts(lib, v, name);
  }

  lemma NothingToStrip(name: string, wrapper: string)
    requires CleanIdent(name)
    ensures ExtractInnerType(name, wrapper).None?
  {
    PrefixAt(wrapper + "<", name, |wrapper|);
  }

  lemma PrefixAt(p: string, s: string, i: nat)
    requires i < |p|
    ensures p <= s ==> i < |s| && s[i] == p[i]
  {
  }

  /** And so does a whole input under the metadata derived for a struct: every declared field that is there
      follows the table for its type, and no other field changes. */
  lemma InputIsConverted(lib: Std, fields: map<string, Json>, decls: seq<Declared>)
    requires forall i, j :: 0 <= i < j < |decls| ==> decls[i].name != decls[j].name
    requires forall i :: 0 <= i < |decls| ==> Clean(decls[i].ty)
    ensures var m := CoerceFields(lib, fields, MetaOf(decls));
            && m.Keys == fields.Keys
            && (forall i :: 0 <= i < |decls| && decls[i].name in fields ==>
                  FieldConverts(lib, WithoutOption(decls[i].ty), fields[decls[i].name], m[decls[i].name]))
            && (forall k :: k in fields && (forall d :: d in decls ==> d.name != k) ==> m[k] == fields[k])
  {
    DeclaredFieldsAreCoercedByType(lib, fields, decls);
    forall i | 0 <= i < |decls| && decls[i].name in fields
      ensures FieldConverts(lib, WithoutOption(decls[i].ty), fields[decls[i].name],
                            CoerceFields(lib, fields, MetaOf(decls))[decls[i].name])
    {
      FieldIsConverted(lib, fields[decls[i].name], WithoutOption(decls[i].ty));
    }
  }

  // ---------------------------------------------------------------- the printed strings

  function Generic(ident: string, tys: seq<Type>): Type {
    PathType([Segment(ident, seq(|tys|, i requires 0 <= i < |tys| => TypeArg(tys[i])))])
  }

  /** What the printer writes: angle brackets around arguments separated by comma and space, double colons
      between path segments. */
  lemma PrintedText(ident: string, a: Type, b: Type, first: Segment, second: Segment)
    ensures Print(Generic(ident, [])) == ident
    ensures Print(Generic(ident, [a])) == ident + "<" + Print(a) + ">"
    ensures Print(Generic(ident, [a, b])) == ident + "<" + Print(a) + ", " + Print(b) + ">"
    ensures Print(PathType([first, second])) == Print(PathType([first])) + "::" + Print(PathType([second]))
    ensures Print(Unit) == "()" && Print(OtherType) == "Unknown"
  {
    PrintedArguments(ident, a, b);
    PrintedPath(first, second);
  }

  lemma PrintedPath(first: Segment, second: Segment)
    ensures Print(PathType([first])) == PrintSegment(first)
    ensures Print(PathType([first, second])) == Print(PathType([first])) + "::" + Print(PathType([second]))
  {
    assert [first, second][1..] == [second] && [first][1..] == [] && [second][1..] == [];
    assert PrintSegments([second]) == [PrintSegment(second)];
    assert PrintSegments([first, second])[1..] == [PrintSegment(second)];
  }

  lemma PrintedArguments(ident: string, a: Type, b: Type)
    ensures Print(Generic(ident, [])) == ident
    ensures Print(Generic(ident, [a])) == ident + "<" + Print(a) + ">"
    ensures Print(Generic(ident, [a, b])) == ident + "<" + Print(a) + ", " + Print(b) + ">"
  {
    var none, one, two := Generic(ident, []), Generic(ident, [a]), Generic(ident, [a, b]);
    PrintedPath(none.segments[0], none.segments[0]);
    PrintedPath(one.segments[0], one.segments[0]);
    PrintedPath(two.segments[0], two.segments[0]);
    assert none.segments[0].args == [] && one.segments[0].args == [TypeArg(a)];
    assert two.segments[0].args == [TypeArg(a), TypeArg(b)];
    assert [TypeArg(a)][1..] == [] && [TypeArg(b)][1..] == [] && [TypeArg(a), TypeArg(b)][1..] == [TypeArg(b)];
    assert PrintArgs([TypeArg(a)]) == [Print(a)] && PrintArgs([TypeArg(b)]) == [Print(b)];
    assert PrintArgs([TypeArg(a), TypeArg(b)]) == [Print(a), Print(b)];
    assert [Print(a), Print(b)][1..] == [Print(b)];
    assert Join([Print(a), Print(b)], ", ") == Print(a) + ", " + Print(b);
    assert ident + "<" + (Print(a) + ", " + Print(b)) + ">" == ident + "<" + Print(a) + ", " + Print(b) + ">";
  }

  /** The field is optional exactly where the printed type is an `Option`, and its name is then that of what
      the option holds. */
  lemma OptionIsUnwrapped(ty: Type)
    requires Clean(ty)
    ensures Inner(ty, "Option").Some? ==> UnwrapOptionType(Print(ty)) == (Print(Inner(ty, "Option").value), true)
    ensures PlainName(ty).Some? ==> UnwrapOptionType(Print(ty)) == (Print(ty), false)
  {
    assert CleanIdent("Option");
    PrintedForms(ty);
    ExtractUndoesPrint(ty, "Option");
    if PlainName(ty).Some? {
      NothingToStrip(Print(ty), "Option");
    }
  }
}
