/** What each operator of the condition evaluator computes, stated on the evaluation of whole
    expressions: in terms of concatenation, element counts, the real order and positions, and not of
    the functions that the evaluator is made of. */
module ConditionLaws {
  import opened Common
  import opened JsonValues
  import opened Conditions

  function One(op: Operator, a: Argument, context: Json): Outcome {
    EvalExpression(Operation(op, [a]), context).outcome
  }

  function Two(op: Operator, a: Argument, b: Argument, context: Json): Outcome {
    EvalExpression(Operation(op, [a, b]), context).outcome
  }

  predicate Yields(a: Argument, context: Json, v: Json) { EvalArgument(a, context).outcome == Ok(v) }

  lemma OneApplies(op: Operator, a: Argument, context: Json)
    requires Arity(op) == Some(1)
    ensures One(op, a, context)
            == var v := EvalArgument(a, context).outcome; if v.Err? then v else Ok(Apply(op, [v.value]))
  {
    EvalAllOfOne([a], context);
  }

  lemma TwoApplies(op: Operator, a: Argument, b: Argument, context: Json)
    requires Arity(op) == Some(2)
    ensures Two(op, a, b, context)
            == var l, r := EvalArgument(a, context).outcome, EvalArgument(b, context).outcome;
               if l.Err? then l else if r.Err? then r else Ok(Apply(op, [l.value, r.value]))
  {
    EvalAllOfTwo([a, b], context);
  }

  // ---------------------------------------------------------------- errors

  predicate TakesOne(op: Operator) { op in {Not, Length, IsDefined, IsEmpty, IsNotEmpty} }

  predicate TakesTwo(op: Operator) {
    op in {Gt, Gte, Lt, Lte, Eq, Ne, StartsWith, EndsWith, Contains, In, NotIn}
  }

  /** A server-only operator, or a wrong number of arguments, fails before anything is read. */
  lemma WrongOperation(op: Operator, args: seq<Argument>, context: Json)
    ensures op in {Match, SimilarityGte, CosineDistanceLte, L2DistanceLte} ==>
              EvalExpression(Operation(op, args), context) == Evaluation(Err(ServerOnly(op)), [])
    ensures TakesOne(op) && |args| != 1 ==>
              EvalExpression(Operation(op, args), context) == Evaluation(Err(ArgCount(op, 1, |args|)), [])
    ensures TakesTwo(op) && |args| != 2 ==>
              EvalExpression(Operation(op, args), context) == Evaluation(Err(ArgCount(op, 2, |args|)), [])
  {
  }

  /** Otherwise the first argument that fails is the error, from left to right. */
  lemma FirstErrorWins(op: Operator, a: Argument, b: Argument, context: Json)
    ensures TakesOne(op) && EvalArgument(a, context).outcome.Err? ==>
              One(op, a, context) == EvalArgument(a, context).outcome
    ensures TakesTwo(op) && EvalArgument(a, context).outcome.Err? ==>
              Two(op, a, b, context) == EvalArgument(a, context).outcome
    ensures TakesTwo(op) && EvalArgument(a, context).outcome.Ok? && EvalArgument(b, context).outcome.Err? ==>
              Two(op, a, b, context) == EvalArgument(b, context).outcome
  {
    if TakesOne(op) {
      OneApplies(op, a, context);
    } else if TakesTwo(op) {
      TwoApplies(op, a, b, context);
    }
  }

  // ---------------------------------------------------------------- AND, OR and NOT

  /** If the arguments before the k-th are no reason to stop, the k-th decides, or the end is reached. */
  lemma {:induction false} LoopStopsAt(args: seq<Argument>, stop: bool, context: Json, k: nat)
    requires k <= |args|
    requires forall i :: 0 <= i < k ==>
               var o := EvalArgument(args[i], context).outcome; o.Ok? && (IsVoid(o.value) <==> stop)
    ensures k == |args| ==> EvalUntil(args, stop, context).outcome == Ok(Bool(!stop))
    ensures k < |args| ==>
              var o := EvalArgument(args[k], context).outcome;
              && (o.Err? ==> EvalUntil(args, stop, context).outcome == o)
              && (o.Ok? && (IsVoid(o.value) <==> !stop) ==> EvalUntil(args, stop, context).outcome == Ok(Bool(stop)))
    decreases args
  {
    if k == 0 {
      if args != [] && EvalArgument(args[0], context).outcome.Ok? {
        TruthyIffNotVoid(EvalArgument(args[0], context).outcome.value);
      }
    } else {
      TruthyIffNotVoid(EvalArgument(args[0], context).outcome.value);
      assert forall i :: 0 <= i < k - 1 ==> args[1..][i] == args[i + 1];
      LoopStopsAt(args[1..], stop, context, k - 1);
    }
  }

  /** AND is false at the first void argument and true if there is none; OR is true at the first argument
      that is not void and false if all are; either fails where an argument fails before that. */
  lemma JunctionsDecide(args: seq<Argument>, context: Json, k: nat)
    requires k <= |args|
    ensures (forall i :: 0 <= i < k ==>
               var o := EvalArgument(args[i], context).outcome; o.Ok? && !IsVoid(o.value)) ==>
              var and := EvalExpression(Operation(And, args), context).outcome;
              && (k == |args| ==> and == Ok(Bool(true)))
              && (k < |args| ==>
                    var o := EvalArgument(args[k], context).outcome;
                    (o.Err? ==> and == o) && (o.Ok? && IsVoid(o.value) ==> and == Ok(Bool(false))))
    ensures (forall i :: 0 <= i < k ==>
               var o := EvalArgument(args[i], context).outcome; o.Ok? && IsVoid(o.value)) ==>
              var or := EvalExpression(Operation(Or, args), context).outcome;
              && (k == |args| ==> or == Ok(Bool(false)))
              && (k < |args| ==>
                    var o := EvalArgument(args[k], context).outcome;
                    (o.Err? ==> or == o) && (o.Ok? && !IsVoid(o.value) ==> or == Ok(Bool(true))))
  {
    if forall i :: 0 <= i < k ==> var o := EvalArgument(args[i], context).outcome; o.Ok? && !IsVoid(o.value) {
      LoopStopsAt(args, false, context, k);
    }
    if forall i :: 0 <= i < k ==> var o := EvalArgument(args[i], context).outcome; o.Ok? && IsVoid(o.value) {
      LoopStopsAt(args, true, context, k);
    }
  }

  /** NOT is true exactly on void values, IS_DEFINED on everything but null. */
  lemma NotAndDefined(a: Argument, context: Json, v: Json)
    requires Yields(a, context, v)
    ensures One(Not, a, context) == Ok(Bool(IsVoid(v)))
    ensures One(IsDefined, a, context) == Ok(Bool(v != Null))
  {
    OneApplies(Not, a, context);
    OneApplies(IsDefined, a, context);
    TruthyIffNotVoid(v);
  }

  // ---------------------------------------------------------------- sizes

  /** LENGTH counts characters, elements or fields; null has none, other values are one. IS_EMPTY holds
      exactly when there are none, and IS_NOT_EMPTY otherwise. */
  lemma Sizes(a: Argument, context: Json, v: Json, n: nat)
    requires Yields(a, context, v)
    requires match v
             case Str(s) => n == |s|
             case Array(items) => n == |items|
             case Object(fields) => n == |fields.Keys|
             case Null => n == 0
             case _ => n == 1
    ensures One(Length, a, context) == Ok(Number(Int(n)))
    ensures One(IsEmpty, a, context) == Ok(Bool(n == 0))
    ensures One(IsNotEmpty, a, context) == Ok(Bool(n != 0))
  {
    OneApplies(Length, a, context);
    OneApplies(IsEmpty, a, context);
    OneApplies(IsNotEmpty, a, context);
  }

  // ---------------------------------------------------------------- strings and collections

  /** STARTS_WITH: both are strings and the left is the right followed by something. */
  lemma StartsWithIff(a: Argument, b: Argument, context: Json, l: Json, r: Json)
    requires Yields(a, context, l) && Yields(b, context, r)
    ensures Two(StartsWith, a, b, context) == Ok(Bool(l.Str? && r.Str? && exists t :: l.s == r.s + t))
  {
    TwoApplies(StartsWith, a, b, context);
    if l.Str? && r.Str? && r.s <= l.s {
      assert l.s == r.s + l.s[|r.s|..];
    }
  }

  /** ENDS_WITH: both are strings and the left is something followed by the right. */
  lemma EndsWithIff(a: Argument, b: Argument, context: Json, l: Json, r: Json)
    requires Yields(a, context, l) && Yields(b, context, r)
    ensures Two(EndsWith, a, b, context) == Ok(Bool(l.Str? && r.Str? && exists t :: l.s == t + r.s))
  {
    TwoApplies(EndsWith, a, b, context);
    if l.Str? && r.Str? {
      EndsIff(l.s, r.s);
    }
  }

  lemma EndsIff(s: string, t: string)
    ensures (|t| <= |s| && s[|s| - |t|..] == t) <==> exists u :: s == u + t
  {
    if |t| <= |s| && s[|s| - |t|..] == t {
      assert s == s[..|s| - |t|] + t;
    }
    if u :| s == u + t {
      assert s[|s| - |t|..] == t;
    }
  }

  /** CONTAINS: the right string stands somewhere in the left, or an element of the left array is the same
      as the right value; false on anything else. */
  lemma ContainsIff(a: Argument, b: Argument, context: Json, l: Json, r: Json)
    requires Yields(a, context, l) && Yields(b, context, r)
    ensures Two(Contains, a, b, context)
            == Ok(Bool(|| (l.Str? && r.Str? && exists t, u :: l.s == t + r.s + u)
                       || (l.Array? && exists i :: 0 <= i < |l.items| && Same(l.items[i], r))))
  {
    TwoApplies(Contains, a, b, context);
    if l.Str? && r.Str? {
      WithinIff(l.s, r.s);
    }
    if l.Array? {
      MemberIff(r, l.items);
    }
  }

  lemma WithinIff(s: string, t: string)
    ensures Within(s, t) <==> exists u, v :: s == u + t + v
  {
    if i, j :| 0 <= i <= j <= |s| && s[i..j] == t {
      assert s == s[..i] + t + s[j..];
    }
    if u, v :| s == u + t + v {
      assert s[|u|..|u| + |t|] == t;
    }
  }

  /** IN: the right is an array that holds the left value; NOT_IN is its negation. */
  lemma InIff(a: Argument, b: Argument, context: Json, l: Json, r: Json)
    requires Yields(a, context, l) && Yields(b, context, r)
    ensures var found := r.Array? && exists i :: 0 <= i < |r.items| && Same(r.items[i], l);
            Two(In, a, b, context) == Ok(Bool(found)) && Two(NotIn, a, b, context) == Ok(Bool(!found))
  {
    TwoApplies(In, a, b, context);
    TwoApplies(NotIn, a, b, context);
    if r.Array? {
      MemberIff(l, r.items);
    }
  }

  /** The same value, or two numbers that denote one real. */
  ghost predicate Same(x: Json, y: Json) { x == y || exists q: real :: Denotes(x, q) && Denotes(y, q) }

  lemma EqualIffSame(x: Json, y: Json)
    ensures ValuesEqual(x, y) <==> Same(x, y)
  {
    if x.Number? && y.Number? {
      assert Denotes(x, AsReal(x.n)) && Denotes(y, AsReal(y.n));
    }
  }

  lemma MemberIff(needle: Json, items: seq<Json>)
    ensures ValueIn(needle, items) <==> exists i :: 0 <= i < |items| && Same(items[i], needle)
  {
    forall x
      ensures ValuesEqual(x, needle) <==> Same(x, needle)
    {
      EqualIffSame(x, needle);
    }
    if v :| v in items && ValuesEqual(v, needle) {
      var i :| 0 <= i < |items| && items[i] == v;
      assert Same(items[i], needle);
    }
  }

  // ---------------------------------------------------------------- comparison

  /** On numbers the six comparisons are those of the reals they denote. */
  lemma NumbersCompare(a: Argument, b: Argument, context: Json, l: Json, r: Json, x: real, y: real)
    requires Yields(a, context, l) && Yields(b, context, r) && Denotes(l, x) && Denotes(r, y)
    ensures Two(Eq, a, b, context) == Ok(Bool(x == y)) && Two(Ne, a, b, context) == Ok(Bool(x != y))
    ensures Two(Lt, a, b, context) == Ok(Bool(x < y)) && Two(Lte, a, b, context) == Ok(Bool(x <= y))
    ensures Two(Gt, a, b, context) == Ok(Bool(x > y)) && Two(Gte, a, b, context) == Ok(Bool(x >= y))
  {
    Comparisons(a, b, context, l, r);
  }

  lemma Comparisons(a: Argument, b: Argument, context: Json, l: Json, r: Json)
    requires Yields(a, context, l) && Yields(b, context, r)
    ensures Two(Eq, a, b, context) == Ok(Bool(Compare(Eq, l, r)))
    ensures Two(Ne, a, b, context) == Ok(Bool(Compare(Ne, l, r)))
    ensures Two(Lt, a, b, context) == Ok(Bool(Compare(Lt, l, r)))
    ensures Two(Lte, a, b, context) == Ok(Bool(Compare(Lte, l, r)))
    ensures Two(Gt, a, b, context) == Ok(Bool(Compare(Gt, l, r)))
    ensures Two(Gte, a, b, context) == Ok(Bool(Compare(Gte, l, r)))
  {
    Comparison(Eq, a, b, context, l, r);
    Comparison(Ne, a, b, context, l, r);
    Comparison(Lt, a, b, context, l, r);
    Comparison(Lte, a, b, context, l, r);
    Comparison(Gt, a, b, context, l, r);
    Comparison(Gte, a, b, context, l, r);
  }

  lemma Comparison(op: Operator, a: Argument, b: Argument, context: Json, l: Json, r: Json)
    requires Yields(a, context, l) && Yields(b, context, r)
    requires op.Eq? || op.Ne? || op.Lt? || op.Lte? || op.Gt? || op.Gte?
    ensures Two(op, a, b, context) == Ok(Bool(Compare(op, l, r)))
  {
    TwoApplies(op, a, b, context);
  }

  /** At position k the strings first differ, and the first one is less there or ends. */
  predicate LessAt(s: string, t: string, k: nat) {
    k <= |s| && k < |t| && s[..k] == t[..k] && (k == |s| || s[k] < t[k])
  }

  ghost predicate Before(s: string, t: string) { exists k :: LessAt(s, t, k) }

  lemma {:induction false} LessHasPosition(s: string, t: string) returns (k: nat)
    requires StringLess(s, t)
    ensures LessAt(s, t, k)
    decreases s
  {
    if s == "" || s[0] != t[0] {
      k := 0;
    } else {
      var j := LessHasPosition(s[1..], t[1..]);
      k := j + 1;
      assert s[..k] == [s[0]] + s[1..][..j] && t[..k] == [t[0]] + t[1..][..j];
    }
  }

  lemma {:induction false} PositionIsLess(s: string, t: string, k: nat)
    requires LessAt(s, t, k)
    ensures StringLess(s, t)
    decreases k
  {
    if k == 0 {
    } else {
      assert s[..k][0] == s[0] && t[..k][0] == t[0];
      assert s[1..][..k - 1] == s[..k][1..] && t[1..][..k - 1] == t[..k][1..];
      PositionIsLess(s[1..], t[1..], k - 1);
    }
  }

  lemma LessIsBefore(s: string, t: string)
    ensures StringLess(s, t) <==> Before(s, t)
  {
    if StringLess(s, t) {
      var k := LessHasPosition(s, t);
    }
    if k: nat :| LessAt(s, t, k) {
      PositionIsLess(s, t, k);
    }
  }

  /** On strings they are those of the order by the first differing position. */
  lemma StringsCompare(a: Argument, b: Argument, context: Json, s: string, t: string)
    requires Yields(a, context, Str(s)) && Yields(b, context, Str(t))
    ensures Two(Eq, a, b, context) == Ok(Bool(s == t)) && Two(Ne, a, b, context) == Ok(Bool(s != t))
    ensures Two(Lt, a, b, context) == Ok(Bool(Before(s, t)))
    ensures Two(Lte, a, b, context) == Ok(Bool(s == t || Before(s, t)))
    ensures Two(Gt, a, b, context) == Ok(Bool(Before(t, s)))
    ensures Two(Gte, a, b, context) == Ok(Bool(s == t || Before(t, s)))
  {
    Comparisons(a, b, context, Str(s), Str(t));
    LessIsBefore(s, t);
    LessIsBefore(t, s);
  }

  /** On any other pair only equality is decided; the four orderings are false. */
  lemma OthersCompare(a: Argument, b: Argument, context: Json, l: Json, r: Json)
    requires Yields(a, context, l) && Yields(b, context, r)
    requires !(l.Number? && r.Number?) && !(l.Str? && r.Str?)
    ensures Two(Eq, a, b, context) == Ok(Bool(l == r)) && Two(Ne, a, b, context) == Ok(Bool(l != r))
    ensures forall op :: op in {Lt, Lte, Gt, Gte} ==> Two(op, a, b, context) == Ok(Bool(false))
  {
    Comparisons(a, b, context, l, r);
  }

  // ---------------------------------------------------------------- paths

  function Joined(segments: seq<string>): string
    requires segments != []
  {
    if |segments| == 1 then segments[0] else segments[0] + "." + Joined(segments[1..])
  }

  /** Splitting a path cuts it at its dots and at nothing else. */
  lemma {:induction false} SplitCutsAtDots(path: string)
    ensures Joined(Split(path)) == path
    ensures forall i :: 0 <= i < |Split(path)| ==> '.' !in Split(path)[i]
  {
    if path == "" {
    } else {
      var rest := Split(path[1..]);
      SplitCutsAtDots(path[1..]);
      assert path == [path[0]] + path[1..];
      if path[0] == '.' {
        assert ([""] + rest)[1..] == rest;
      } else {
        var first := [path[0]] + rest[0];
        assert ([first] + rest[1..])[1..] == rest[1..];
      }
    }
  }

  lemma {:induction false} SplitOfWord(word: string)
    requires '.' !in word
    ensures Split(word) == [word]
  {
    if word == "" {
    } else {
      SplitOfWord(word[1..]);
      assert word == [word[0]] + word[1..];
    }
  }

  lemma {:induction false} SplitAppends(path: string, word: string)
    requires '.' !in word
    ensures Split(path + "." + word) == Split(path) + [word]
    decreases path
  {
    var all := path + "." + word;
    if path == "" {
      assert all == "." + word && all[1..] == word;
      SplitOfWord(word);
    } else {
      assert all[1..] == path[1..] + "." + word && all[0] == path[0];
      SplitAppends(path[1..], word);
    }
  }

  lemma {:induction false} WalkAppends(cursor: Json, segments: seq<string>, word: string)
    ensures Walk(cursor, segments + [word]) == Child(Walk(cursor, segments), word)
    decreases segments
  {
    if segments == [] {
    } else {
      assert (segments + [word])[1..] == segments[1..] + [word];
      if cursor.Object? && segments[0] in cursor.fields {
        WalkAppends(cursor.fields[segments[0]], segments[1..], word);
      }
    }
  }

  function Child(v: Json, word: string): Json {
    if v.Object? && word in v.fields then v.fields[word] else Null
  }

  /** A path leads one field further than the path without its last segment; the empty path leads
      nowhere. */
  lemma PathLeadsToChild(context: Json, path: string, word: string)
    requires '.' !in word
    ensures AtPath(context, "") == Null
    ensures word != "" ==> AtPath(context, word) == Child(context, word)
    ensures path != "" ==> AtPath(context, path + "." + word) == Child(AtPath(context, path), word)
  {
    SplitOfWord(word);
    SplitAppends(path, word);
    WalkAppends(context, Split(path), word);
    assert [word] == [] + [word];
    WalkAppends(context, [], word);
  }

  /** The collected references: a reference's own path, those of the parts of a composite, and none of
      immediate values and templates. */
  lemma CollectedReferences(m: Mapping, p: string)
    ensures m.Reference? ==> (p in ReferencesOf(m) <==> p == m.path)
    ensures m.CompositeArray? ==>
              (p in ReferencesOf(m) <==> exists i :: 0 <= i < |m.items| && p in ReferencesOf(m.items[i]))
    ensures m.CompositeObject? ==>
              (p in ReferencesOf(m) <==> exists k :: k in m.fields && p in ReferencesOf(m.fields[k]))
    ensures m.Immediate? || m.Template? ==> p !in ReferencesOf(m)
  {
  }
}
