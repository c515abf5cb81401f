/** The client-side condition evaluator.

    The specification functions return, beside the value or error, the mapping values that were read
    on the way, in order, so that two evaluations are equal only if they also stop at the same place.
    The methods at the end are the evaluator in its own form, with its early-return loops. */
module Conditions {
  import opened Common
  import opened JsonValues

  datatype Operator =
    | And | Or | Not
    | Gt | Gte | Lt | Lte | Eq | Ne
    | StartsWith | EndsWith | Contains | In | NotIn
    | Length | IsDefined | IsEmpty | IsNotEmpty
    | SimilarityGte | Match | CosineDistanceLte | L2DistanceLte

  datatype Mapping =
    | Reference(path: string, default: Option<Json>)
    | Immediate(value: Json)
    | CompositeObject(fields: map<string, Mapping>)
    | CompositeArray(items: seq<Mapping>)
    | Template(text: string)

  datatype Expression = Operation(op: Operator, arguments: seq<Argument>) | Value(mapping: Mapping)

  datatype Argument = Nested(expression: Expression) | Leaf(mapping: Mapping)

  datatype Error = ServerOnly(op: Operator) | ArgCount(op: Operator, expected: nat, got: nat)

  datatype Outcome = Ok(value: Json) | Err(error: Error)

  /** What an evaluation yields and which mapping values it read, in order. */
  datatype Evaluation = Evaluation(outcome: Outcome, trail: seq<Mapping>)

  // ---------------------------------------------------------------- values

  predicate Truthy(v: Json) {
    match v
    case Bool(b) => b
    case Null => false
    case Number(n) => AsReal(n) != 0.0
    case Str(s) => s != ""
    case Array(items) => items != []
    case Object(fields) => |fields| != 0
  }

  /** Null, false, zero, and the empty string, array and object. */
  predicate IsVoid(v: Json) {
    v in {Null, Bool(false), Str(""), Array([]), Object(map[])} || Denotes(v, 0.0)
  }

  /** Exactly the void values count as false. */
  lemma TruthyIffNotVoid(v: Json)
    ensures Truthy(v) <==> !IsVoid(v)
  {
    if v.Object? {
      assert |v.fields| == 0 <==> v.fields == map[];
    }
  }

  predicate ValuesEqual(l: Json, r: Json) {
    if l.Number? && r.Number? then AsReal(l.n) == AsReal(r.n) else l == r
  }

  predicate StringLess(a: string, b: string) {
    b != "" && (a == "" || a[0] < b[0] || (a[0] == b[0] && StringLess(a[1..], b[1..])))
  }

  predicate Compare(op: Operator, l: Json, r: Json) {
    match op
    case Eq => ValuesEqual(l, r)
    case Ne => !ValuesEqual(l, r)
    case Gt => Less(r, l)
    case Lt => Less(l, r)
    case Gte => Less(r, l) || (Comparable(l, r) && ValuesEqual(l, r))
    case Lte => Less(l, r) || (Comparable(l, r) && ValuesEqual(l, r))
    case _ => false
  }

  predicate Comparable(l: Json, r: Json) { (l.Number? && r.Number?) || (l.Str? && r.Str?) }

  predicate Less(l: Json, r: Json) {
    if l.Number? && r.Number? then AsReal(l.n) < AsReal(r.n)
    else l.Str? && r.Str? && StringLess(l.s, r.s)
  }

  function LengthOf(v: Json): nat {
    match v
    case Str(s) => |s|
    case Array(items) => |items|
    case Object(fields) => |fields|
    case Null => 0
    case _ => 1
  }

  predicate Empty(v: Json) {
    match v
    case Null => true
    case Str(s) => s == ""
    case Array(items) => items == []
    case Object(fields) => |fields| == 0
    case _ => false
  }

  predicate ValueIn(needle: Json, items: seq<Json>) { exists v :: v in items && ValuesEqual(v, needle) }

  predicate Within(haystack: string, needle: string) {
    exists i, j :: 0 <= i <= j <= |haystack| && haystack[i..j] == needle
  }

  predicate ContainsValue(l: Json, r: Json) {
    match l
    case Str(s) => r.Str? && Within(s, r.s)
    case Array(items) => ValueIn(r, items)
    case _ => false
  }

  // ---------------------------------------------------------------- references

  function Split(path: string): (segments: seq<string>)
    ensures segments != []
  {
    if path == "" then [""]
    else
      var rest := Split(path[1..]);
      if path[0] == '.' then [""] + rest else [[path[0]] + rest[0]] + rest[1..]
  }

  function Walk(cursor: Json, segments: seq<string>): Json
    decreases segments
  {
    if segments == [] then cursor
    else if cursor.Object? && segments[0] in cursor.fields then Walk(cursor.fields[segments[0]], segments[1..])
    else Null
  }

  function AtPath(context: Json, path: string): Json {
    if path == "" then Null else Walk(context, Split(path))
  }

  function Resolve(m: Mapping, context: Json): Json {
    match m
    case Immediate(v) => v
    case Reference(path, default) =>
      var found := AtPath(context, path);
      if found.Null? then (if default.Some? then default.value else Null) else found
    case _ => Null
  }

  /** `collect_references`, as a set. */
  function ReferencesOf(m: Mapping): set<string> {
    match m
    case Reference(path, _) => {path}
    case Immediate(_) => {}
    case CompositeObject(fields) => set k, p | k in fields && p in ReferencesOf(fields[k]) :: p
    case CompositeArray(items) => set i, p | 0 <= i < |items| && p in ReferencesOf(items[i]) :: p
    case Template(_) => {}
  }

  // ---------------------------------------------------------------- evaluation

  predicate ClientEvaluable(op: Operator) {
    op !in {Match, SimilarityGte, CosineDistanceLte, L2DistanceLte}
  }

  /** The number of arguments an operator insists on; none for the variadic and server-only ones. */
  function Arity(op: Operator): Option<nat> {
    match op
    case And => None
    case Or => None
    case Not => Some(1)
    case Length => Some(1)
    case IsDefined => Some(1)
    case IsEmpty => Some(1)
    case IsNotEmpty => Some(1)
    case _ => if ClientEvaluable(op) then Some(2) else None
  }

  /** An operator other than AND and OR on its evaluated arguments. */
  function Apply(op: Operator, vs: seq<Json>): Json
    requires Arity(op) == Some(|vs|)
  {
    match op
    case Not => Bool(!Truthy(vs[0]))
    case Length => Number(Int(LengthOf(vs[0])))
    case IsDefined => Bool(!vs[0].Null?)
    case IsEmpty => Bool(Empty(vs[0]))
    case IsNotEmpty => Bool(!Empty(vs[0]))
    case StartsWith => Bool(vs[0].Str? && vs[1].Str? && vs[1].s <= vs[0].s)
    case EndsWith => Bool(vs[0].Str? && vs[1].Str? && |vs[1].s| <= |vs[0].s|
                          && vs[0].s[|vs[0].s| - |vs[1].s|..] == vs[1].s)
    case Contains => Bool(ContainsValue(vs[0], vs[1]))
    case In => Bool(vs[1].Array? && ValueIn(vs[0], vs[1].items))
    case NotIn => Bool(!(vs[1].Array? && ValueIn(vs[0], vs[1].items)))
    case Gt | Gte | Lt | Lte | Eq | Ne => Bool(Compare(op, vs[0], vs[1]))
  }

  function EvalExpression(e: Expression, context: Json): Evaluation
    decreases e, 1
  {
    match e
    case Value(m) => Evaluation(Ok(Resolve(m, context)), [m])
    case Operation(op, args) =>
      if !ClientEvaluable(op) then Evaluation(Err(ServerOnly(op)), [])
      else if op.And? then EvalUntil(args, false, context)
      else if op.Or? then EvalUntil(args, true, context)
      else if Arity(op) != Some(|args|) then Evaluation(Err(ArgCount(op, Arity(op).value, |args|)), [])
      else
        var all := EvalAll(args, context);
        Evaluation(if all.0.Bad? then Err(all.0.error) else Ok(Apply(op, all.0.values)), all.1)
  }

  function EvalArgument(a: Argument, context: Json): Evaluation
    decreases a, 0
  {
    match a
    case Nested(e) => EvalExpression(e, context)
    case Leaf(m) => Evaluation(Ok(Resolve(m, context)), [m])
  }

  /** The AND loop (`stop` false) and the OR loop (`stop` true): the first argument whose truth is
      `stop` decides. */
  function EvalUntil(args: seq<Argument>, stop: bool, context: Json): Evaluation
    decreases args, 0
  {
    if args == [] then Evaluation(Ok(Bool(!stop)), [])
    else
      var first := EvalArgument(args[0], context);
      if first.outcome.Err? then first
      else if Truthy(first.outcome.value) == stop then Evaluation(Ok(Bool(stop)), first.trail)
      else
        var rest := EvalUntil(args[1..], stop, context);
        Evaluation(rest.outcome, first.trail + rest.trail)
  }

  datatype Values = Good(values: seq<Json>) | Bad(error: Error)

  /** Arguments from left to right until one fails. */
  function EvalAll(args: seq<Argument>, context: Json): (r: (Values, seq<Mapping>))
    ensures r.0.Good? ==> |r.0.values| == |args|
    decreases args, 0
  {
    if args == [] then (Good([]), [])
    else
      var first := EvalArgument(args[0], context);
      if first.outcome.Err? then (Bad(first.outcome.error), first.trail)
      else
        var rest := EvalAll(args[1..], context);
        (if rest.0.Bad? then rest.0 else Good([first.outcome.value] + rest.0.values), first.trail + rest.1)
  }

  // ---------------------------------------------------------------- laws of AND, OR and NOT

  function Negated(a: Argument): Argument { Nested(Operation(Not, [a])) }

  function NegatedAll(args: seq<Argument>): seq<Argument> {
    if args == [] then [] else [Negated(args[0])] + NegatedAll(args[1..])
  }

  lemma EvalNegated(a: Argument, context: Json)
    ensures EvalArgument(Negated(a), context)
            == var v := EvalArgument(a, context);
               if v.outcome.Err? then v else Evaluation(Ok(Bool(!Truthy(v.outcome.value))), v.trail)
  {
    var v := EvalArgument(a, context);
    assert [a][1..] == [];
    assert EvalAll([a], context) ==
      if v.outcome.Err? then (Bad(v.outcome.error), v.trail)
      else (Good([v.outcome.value] + []), v.trail + []);
    assert v.trail + [] == v.trail;
  }

  lemma {:induction false} NegatedLoop(args: seq<Argument>, stop: bool, context: Json)
    ensures EvalUntil(NegatedAll(args), !stop, context)
            == var v := EvalUntil(args, stop, context);
               if v.outcome.Err? then v else Evaluation(Ok(Bool(!Truthy(v.outcome.value))), v.trail)
  {
    if args == [] {
    } else {
      EvalNegated(args[0], context);
      NegatedLoop(args[1..], stop, context);
      assert NegatedAll(args)[1..] == NegatedAll(args[1..]);
    }
  }

  /** De Morgan, exactly: same value or same error, reading the same arguments in the same order. */
  lemma DeMorgan(args: seq<Argument>, context: Json)
    ensures EvalArgument(Negated(Nested(Operation(And, args))), context)
            == EvalExpression(Operation(Or, NegatedAll(args)), context)
    ensures EvalArgument(Negated(Nested(Operation(Or, args))), context)
            == EvalExpression(Operation(And, NegatedAll(args)), context)
  {
    EvalNegated(Nested(Operation(And, args)), context);
    EvalNegated(Nested(Operation(Or, args)), context);
    NegatedLoop(args, false, context);
    NegatedLoop(args, true, context);
  }

  lemma {:induction false} LoopConcat(xs: seq<Argument>, ys: seq<Argument>, stop: bool, context: Json)
    ensures EvalUntil(xs + ys, stop, context)
            == var first := EvalUntil(xs, stop, context);
               if first.outcome == Ok(Bool(!stop))
               then var rest := EvalUntil(ys, stop, context); Evaluation(rest.outcome, first.trail + rest.trail)
               else first
  {
    if xs == [] {
      assert xs + ys == ys;
      assert [] + EvalUntil(ys, stop, context).trail == EvalUntil(ys, stop, context).trail;
    } else {
      assert (xs + ys)[1..] == xs[1..] + ys;
      LoopConcat(xs[1..], ys, stop, context);
      var a := EvalArgument(xs[0], context);
      if a.outcome.Ok? && Truthy(a.outcome.value) != stop {
        var rest, tail := EvalUntil(ys, stop, context), EvalUntil(xs[1..], stop, context);
        assert a.trail + (tail.trail + rest.trail) == (a.trail + tail.trail) + rest.trail;
      }
    }
  }

  /** The loops yield an error or one of the two booleans. */
  lemma {:induction false} LoopYieldsBool(args: seq<Argument>, stop: bool, context: Json)
    ensures var o := EvalUntil(args, stop, context).outcome; o.Ok? ==> o.value.Bool?
  {
    if args == [] {
    } else {
      LoopYieldsBool(args[1..], stop, context);
    }
  }

  /** A nested AND inside an AND (or OR inside an OR) may be spliced into its parent: same value or
      error, same trail. */
  lemma Flattening(op: Operator, xs: seq<Argument>, ys: seq<Argument>, zs: seq<Argument>, context: Json)
    requires op.And? || op.Or?
    ensures EvalExpression(Operation(op, xs + [Nested(Operation(op, ys))] + zs), context)
            == EvalExpression(Operation(op, xs + ys + zs), context)
  {
    var stop := op.Or?;
    var inner := [Nested(Operation(op, ys))];
    LoopConcat(xs + inner, zs, stop, context);
    LoopConcat(xs, inner, stop, context);
    LoopConcat(xs + ys, zs, stop, context);
    LoopConcat(xs, ys, stop, context);
    LoopYieldsBool(ys, stop, context);
    var y := EvalUntil(ys, stop, context);
    assert EvalArgument(inner[0], context) == y;
    assert EvalUntil(inner[1..], stop, context) == Evaluation(Ok(Bool(!stop)), []);
    assert y.trail + [] == y.trail;
    assert EvalUntil(inner, stop, context) == y;
  }

  // ---------------------------------------------------------------- strict evaluation and failures

  /** The evaluator without short circuits: every argument is evaluated, the first error wins. */
  function Strict(e: Expression, context: Json): Outcome
    decreases e, 1
  {
    match e
    case Value(m) => Ok(Resolve(m, context))
    case Operation(op, args) =>
      if !ClientEvaluable(op) then Err(ServerOnly(op))
      else if Arity(op).Some? && Arity(op) != Some(|args|) then Err(ArgCount(op, Arity(op).value, |args|))
      else
        var all := StrictAll(args, context);
        if all.Bad? then Err(all.error)
        else if op.And? then Ok(Bool(forall v :: v in all.values ==> Truthy(v)))
        else if op.Or? then Ok(Bool(exists v :: v in all.values && Truthy(v)))
        else Ok(Apply(op, all.values))
  }

  function StrictArgument(a: Argument, context: Json): Outcome
    decreases a, 0
  {
    match a
    case Nested(e) => Strict(e, context)
    case Leaf(m) => Ok(Resolve(m, context))
  }

  function StrictAll(args: seq<Argument>, context: Json): (r: Values)
    ensures r.Good? ==> |r.values| == |args|
    decreases args, 0
  {
    if args == [] then Good([])
    else
      var first := StrictArgument(args[0], context);
      if first.Err? then Bad(first.error)
      else
        var rest := StrictAll(args[1..], context);
        if rest.Bad? then rest else Good([first.value] + rest.values)
  }

  /** Every operator node can be evaluated here and has the number of arguments it insists on. */
  predicate WellFormed(e: Expression)
    decreases e, 1
  {
    match e
    case Value(_) => true
    case Operation(op, args) =>
      && ClientEvaluable(op)
      && (Arity(op).Some? ==> Arity(op) == Some(|args|))
      && (forall i :: 0 <= i < |args| ==> WellFormedArgument(args[i]))
  }

  predicate WellFormedArgument(a: Argument)
    decreases a, 0
  {
    a.Nested? ==> WellFormed(a.expression)
  }

  lemma {:induction false} StrictSucceedsIff(e: Expression, context: Json)
    ensures Strict(e, context).Ok? <==> WellFormed(e)
    decreases e, 1
  {
    if e.Operation? {
      StrictAllSucceedsIff(e.arguments, context);
    }
  }

  lemma {:induction false} StrictArgumentSucceedsIff(a: Argument, context: Json)
    ensures StrictArgument(a, context).Ok? <==> WellFormedArgument(a)
    decreases a, 0
  {
    if a.Nested? {
      StrictSucceedsIff(a.expression, context);
    }
  }

  lemma {:induction false} StrictAllSucceedsIff(args: seq<Argument>, context: Json)
    ensures StrictAll(args, context).Good? <==> forall i :: 0 <= i < |args| ==> WellFormedArgument(args[i])
    decreases args, 0
  {
    if args == [] {
    } else {
      StrictArgumentSucceedsIff(args[0], context);
      StrictAllSucceedsIff(args[1..], context);
      assert forall i :: 0 < i < |args| ==> args[i] == args[1..][i - 1];
    }
  }

  /** Short-circuit evaluation agrees with strict evaluation whenever the strict one succeeds. */
  lemma {:induction false} ShortCircuitAgrees(e: Expression, context: Json)
    requires Strict(e, context).Ok?
    ensures EvalExpression(e, context).outcome == Strict(e, context)
    decreases e, 1
  {
    if e.Operation? {
      if e.op.And? || e.op.Or? {
        LoopAgrees(e.arguments, e.op.Or?, context);
      } else {
        AllAgrees(e.arguments, context);
      }
    }
  }

  lemma {:induction false} ArgumentAgrees(a: Argument, context: Json)
    requires StrictArgument(a, context).Ok?
    ensures EvalArgument(a, context).outcome == StrictArgument(a, context)
    decreases a, 0
  {
    if a.Nested? {
      ShortCircuitAgrees(a.expression, context);
    }
  }

  lemma {:induction false} LoopAgrees(args: seq<Argument>, stop: bool, context: Json)
    requires StrictAll(args, context).Good?
    ensures EvalUntil(args, stop, context).outcome
            == Ok(Bool(if exists v :: v in StrictAll(args, context).values && Truthy(v) == stop then stop else !stop))
    decreases args, 0
  {
    if args == [] {
    } else {
      ArgumentAgrees(args[0], context);
      LoopAgrees(args[1..], stop, context);
      var vs, rest := StrictAll(args, context).values, StrictAll(args[1..], context).values;
      assert vs == [StrictArgument(args[0], context).value] + rest;
      assert forall v :: v in vs <==> v == vs[0] || v in rest;
    }
  }

  lemma {:induction false} AllAgrees(args: seq<Argument>, context: Json)
    requires StrictAll(args, context).Good?
    ensures EvalAll(args, context).0 == StrictAll(args, context)
    decreases args, 0
  {
    if args == [] {
    } else {
      ArgumentAgrees(args[0], context);
      AllAgrees(args[1..], context);
    }
  }

  /** A well-formed expression evaluates in every context; an ill-formed one fails strictly in every
      context. */
  lemma WellFormedNeverFails(e: Expression, context: Json)
    requires WellFormed(e)
    ensures EvalExpression(e, context).outcome.Ok?
  {
    StrictSucceedsIff(e, context);
    ShortCircuitAgrees(e, context);
  }

  /** Some operator node of `e` is what the error complains about. */
  predicate Blames(e: Expression, error: Error)
    decreases e, 1
  {
    e.Operation? &&
    (|| (error == ServerOnly(e.op) && !ClientEvaluable(e.op))
     || (Arity(e.op).Some? && error == ArgCount(e.op, Arity(e.op).value, |e.arguments|)
         && Arity(e.op).value != |e.arguments|)
     || exists i :: 0 <= i < |e.arguments| && BlamesArgument(e.arguments[i], error))
  }

  predicate BlamesArgument(a: Argument, error: Error)
    decreases a, 0
  {
    a.Nested? && Blames(a.expression, error)
  }

  /** Every error names an operator node of the expression that is server-only, or has the wrong
      number of arguments, and reports that number. */
  lemma {:induction false} ErrorsAreBlamed(e: Expression, context: Json)
    ensures var o := EvalExpression(e, context).outcome; o.Err? ==> Blames(e, o.error)
    decreases e, 1
  {
    if e.Operation? {
      LoopErrorsAreBlamed(e.arguments, e.op.Or?, context);
    }
  }

  lemma {:induction false} ArgumentErrorsAreBlamed(a: Argument, context: Json)
    ensures var o := EvalArgument(a, context).outcome; o.Err? ==> BlamesArgument(a, o.error)
    decreases a, 0
  {
    if a.Nested? {
      ErrorsAreBlamed(a.expression, context);
    }
  }

  lemma {:induction false} LoopErrorsAreBlamed(args: seq<Argument>, stop: bool, context: Json)
    ensures var o := EvalUntil(args, stop, context).outcome;
            o.Err? ==> exists i :: 0 <= i < |args| && BlamesArgument(args[i], o.error)
    ensures var o := EvalAll(args, context).0;
            o.Bad? ==> exists i :: 0 <= i < |args| && BlamesArgument(args[i], o.error)
    decreases args, 0
  {
    if args == [] {
    } else {
      ArgumentErrorsAreBlamed(args[0], context);
      LoopErrorsAreBlamed(args[1..], stop, context);
      assert forall i :: 0 <= i < |args[1..]| ==> args[1..][i] == args[i + 1];
    }
  }

  // ---------------------------------------------------------------- what evaluation depends on

  /** The contexts agree wherever one of the mapping values looks one up; composites look nothing up. */
  ghost predicate AgreeOn(c1: Json, c2: Json, trail: seq<Mapping>) {
    forall m :: m in trail && m.Reference? ==> AtPath(c1, m.path) == AtPath(c2, m.path)
  }

  lemma AgreeOnParts(c1: Json, c2: Json, a: seq<Mapping>, b: seq<Mapping>)
    requires AgreeOn(c1, c2, a + b)
    ensures AgreeOn(c1, c2, a) && AgreeOn(c1, c2, b)
  {
  }

  lemma ResolveAgrees(m: Mapping, c1: Json, c2: Json)
    requires AgreeOn(c1, c2, [m])
    ensures Resolve(m, c1) == Resolve(m, c2)
  {
    assert m in [m];
  }

  /** Two contexts that agree on the references actually read in one of them give the same result or
      error and read the same. */
  lemma {:induction false} DependsOnlyOnReads(e: Expression, c1: Json, c2: Json)
    requires AgreeOn(c1, c2, EvalExpression(e, c1).trail)
    ensures EvalExpression(e, c1) == EvalExpression(e, c2)
    decreases e, 1
  {
    match e
    case Value(m) => ResolveAgrees(m, c1, c2);
    case Operation(op, args) =>
      if op.And? || op.Or? {
        LoopDependsOnlyOnReads(args, op.Or?, c1, c2);
      } else if ClientEvaluable(op) && Arity(op) == Some(|args|) {
        AllDependsOnlyOnReads(args, c1, c2);
      }
  }

  lemma {:induction false} ArgumentDependsOnlyOnReads(a: Argument, c1: Json, c2: Json)
    requires AgreeOn(c1, c2, EvalArgument(a, c1).trail)
    ensures EvalArgument(a, c1) == EvalArgument(a, c2)
    decreases a, 0
  {
    match a
    case Nested(e) => DependsOnlyOnReads(e, c1, c2);
    case Leaf(m) => ResolveAgrees(m, c1, c2);
  }

  lemma {:induction false} LoopDependsOnlyOnReads(args: seq<Argument>, stop: bool, c1: Json, c2: Json)
    requires AgreeOn(c1, c2, EvalUntil(args, stop, c1).trail)
    ensures EvalUntil(args, stop, c1) == EvalUntil(args, stop, c2)
    decreases args, 0
  {
    if args == [] {
    } else {
      var first := EvalArgument(args[0], c1);
      if first.outcome.Ok? && Truthy(first.outcome.value) != stop {
        AgreeOnParts(c1, c2, first.trail, EvalUntil(args[1..], stop, c1).trail);
        LoopDependsOnlyOnReads(args[1..], stop, c1, c2);
      }
      ArgumentDependsOnlyOnReads(args[0], c1, c2);
    }
  }

  lemma {:induction false} AllDependsOnlyOnReads(args: seq<Argument>, c1: Json, c2: Json)
    requires AgreeOn(c1, c2, EvalAll(args, c1).1)
    ensures EvalAll(args, c1) == EvalAll(args, c2)
    decreases args, 0
  {
    if args == [] {
    } else {
      var first := EvalArgument(args[0], c1);
      if first.outcome.Ok? {
        AgreeOnParts(c1, c2, first.trail, EvalAll(args[1..], c1).1);
        AllDependsOnlyOnReads(args[1..], c1, c2);
      }
      ArgumentDependsOnlyOnReads(args[0], c1, c2);
    }
  }

  /** All reference paths of an expression. */
  function References(e: Expression): set<string>
    decreases e, 1
  {
    match e
    case Value(m) => ReferencesOf(m)
    case Operation(_, args) => set i, p | 0 <= i < |args| && p in ArgumentReferences(args[i]) :: p
  }

  function ArgumentReferences(a: Argument): set<string>
    decreases a, 0
  {
    match a
    case Nested(e) => References(e)
    case Leaf(m) => ReferencesOf(m)
  }

  lemma {:induction false} ReadsAreReferences(e: Expression, context: Json, m: Mapping)
    requires m in EvalExpression(e, context).trail
    ensures ReferencesOf(m) <= References(e)
    decreases e, 1
  {
    if e.Operation? {
      var i := ReadsComeFromAnArgument(e.arguments, e.op.Or?, context, m);
      assert ArgumentReferences(e.arguments[i]) <= References(e);
    }
  }

  lemma {:induction false} ArgumentReadsAreReferences(a: Argument, context: Json, m: Mapping)
    requires m in EvalArgument(a, context).trail
    ensures ReferencesOf(m) <= ArgumentReferences(a)
    decreases a, 0
  {
    if a.Nested? {
      ReadsAreReferences(a.expression, context, m);
    }
  }

  lemma {:induction false} ReadsComeFromAnArgument(args: seq<Argument>, stop: bool, context: Json, m: Mapping)
    returns (i: nat)
    requires m in EvalUntil(args, stop, context).trail || m in EvalAll(args, context).1
    ensures i < |args| && ReferencesOf(m) <= ArgumentReferences(args[i])
    decreases args, 0
  {
    if m in EvalArgument(args[0], context).trail {
      i := 0;
      ArgumentReadsAreReferences(args[0], context, m);
    } else {
      i := ReadsComeFromAnArgument(args[1..], stop, context, m);
      i := i + 1;
    }
  }

  /** Two contexts that agree at an expression's reference paths give the same result or error. */
  lemma DependsOnlyOnReferences(e: Expression, c1: Json, c2: Json)
    requires forall p :: p in References(e) ==> AtPath(c1, p) == AtPath(c2, p)
    ensures EvalExpression(e, c1) == EvalExpression(e, c2)
  {
    forall m | m in EvalExpression(e, c1).trail
      ensures ReferencesOf(m) <= References(e)
    {
      ReadsAreReferences(e, c1, m);
    }
    DependsOnlyOnReads(e, c1, c2);
  }

  // ---------------------------------------------------------------- comparison

  lemma {:induction false} StringOrderIsTotal(a: string, b: string)
    ensures (StringLess(a, b) && a != b && !StringLess(b, a))
            || (!StringLess(a, b) && a == b && !StringLess(b, a))
            || (!StringLess(a, b) && a != b && StringLess(b, a))
  {
    if a == "" || b == "" {
    } else {
      StringOrderIsTotal(a[1..], b[1..]);
      assert a == [a[0]] + a[1..] && b == [b[0]] + b[1..];
    }
  }

  /** GT is the negation of LTE, and LT of GTE, exactly on two numbers or two strings; on any other
      pair all four are false. */
  lemma OrderNegatesIff(l: Json, r: Json)
    ensures (Compare(Gt, l, r) == !Compare(Lte, l, r)) <==> Comparable(l, r)
    ensures (Compare(Lt, l, r) == !Compare(Gte, l, r)) <==> Comparable(l, r)
  {
    if l.Str? && r.Str? {
      StringOrderIsTotal(l.s, r.s);
    }
  }

  // ---------------------------------------------------------------- the evaluator's own form

  method ValueByPath(context: Json, path: string) returns (found: Json)
    ensures found == AtPath(context, path)
  {
    if path == "" {
      return Null;
    }
    var cursor, segments := context, Split(path);
    for i := 0 to |segments|
      invariant Walk(context, segments) == Walk(cursor, segments[i..])
    {
      if !cursor.Object? || segments[i] !in cursor.fields {
        return Null;
      }
      cursor := cursor.fields[segments[i]];
      assert segments[i..][1..] == segments[i + 1..];
    }
    return cursor;
  }

  method ResolveMappingValue(m: Mapping, context: Json) returns (v: Json)
    ensures v == Resolve(m, context)
    ensures m.Immediate? ==> v == m.value
    ensures m.Reference? && AtPath(context, m.path) != Null ==> v == AtPath(context, m.path)
    ensures m.Reference? && AtPath(context, m.path) == Null ==>
              v == if m.default.Some? then m.default.value else Null
    ensures m.CompositeObject? || m.CompositeArray? || m.Template? ==> v == Null
  {
    match m {
      case Immediate(value) => v := value;
      case Reference(path, default) =>
        v := ValueByPath(context, path);
        if v.Null? && default.Some? {
          v := default.value;
        }
      case _ => v := Null;
    }
  }

  method EvaluateExpression(e: Expression, context: Json) returns (r: Outcome)
    ensures r == EvalExpression(e, context).outcome
    decreases e, 1
  {
    match e {
      case Value(m) =>
        var v := ResolveMappingValue(m, context);
        r := Ok(v);
      case Operation(op, args) =>
        if !ClientEvaluable(op) {
          return Err(ServerOnly(op));
        }
        if op.And? || op.Or? {
          r := EvaluateLoop(args, op.Or?, context);
        } else if Arity(op).value != |args| {
          r := Err(ArgCount(op, Arity(op).value, |args|));
        } else {
          r := EvaluateFixed(op, args, context);
        }
    }
  }

  method EvaluateArgument(a: Argument, context: Json) returns (r: Outcome)
    ensures r == EvalArgument(a, context).outcome
    decreases a, 0
  {
    match a {
      case Nested(e) => r := EvaluateExpression(e, context);
      case Leaf(m) =>
        var v := ResolveMappingValue(m, context);
        r := Ok(v);
    }
  }

  /** The AND and OR loops with their early returns. */
  method EvaluateLoop(args: seq<Argument>, stop: bool, context: Json) returns (r: Outcome)
    ensures r == EvalUntil(args, stop, context).outcome
    decreases args, 0
  {
    for i := 0 to |args|
      invariant EvalUntil(args, stop, context).outcome == EvalUntil(args[i..], stop, context).outcome
    {
      r := EvaluateArgument(args[i], context);
      if r.Err? {
        return;
      }
      if Truthy(r.value) == stop {
        return Ok(Bool(stop));
      }
      assert args[i..][1..] == args[i + 1..];
    }
    return Ok(Bool(!stop));
  }

  lemma EvalAllOfOne(args: seq<Argument>, context: Json)
    requires |args| == 1
    ensures EvalAll(args, context).0
            == var o := EvalArgument(args[0], context).outcome; if o.Err? then Bad(o.error) else Good([o.value])
  {
  }

  lemma EvalAllOfTwo(args: seq<Argument>, context: Json)
    requires |args| == 2
    ensures EvalAll(args, context).0
            == var l, r := EvalArgument(args[0], context).outcome, EvalArgument(args[1], context).outcome;
               if l.Err? then Bad(l.error) else if r.Err? then Bad(r.error) else Good([l.value, r.value])
  {
    assert args[1..][0] == args[1];
    EvalAllOfOne(args[1..], context);
  }

  /** Operators with one or two arguments. */
  method EvaluateFixed(op: Operator, args: seq<Argument>, context: Json) returns (r: Outcome)
    requires Arity(op) == Some(|args|)
    ensures var all := EvalAll(args, context).0;
            r == if all.Bad? then Err(all.error) else Ok(Apply(op, all.values))
    decreases args, 0
  {
    var left := EvaluateArgument(args[0], context);
    if |args| == 1 {
      EvalAllOfOne(args, context);
      return if left.Err? then left else Ok(Apply(op, [left.value]));
    }
    EvalAllOfTwo(args, context);
    if left.Err? {
      return left;
    }
    var right := EvaluateArgument(args[1], context);
    return if right.Err? then right else Ok(Apply(op, [left.value, right.value]));
  }

  method EvaluateCondition(e: Expression, context: Json) returns (holds: Option<bool>, error: Option<Error>)
    ensures var o := EvalExpression(e, context).outcome;
            if o.Ok? then holds == Some(!IsVoid(o.value)) && error == None
            else holds == None && error == Some(o.error)
  {
    var r := EvaluateExpression(e, context);
    if r.Err? {
      return None, Some(r.error);
    }
    TruthyIffNotVoid(r.value);
    return Some(Truthy(r.value)), None;
  }
}
