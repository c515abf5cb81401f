/** The generators of benchmark workflows: linear, branching and split graphs with an exact number of steps.

    Soundness of a graph is stated over its paths alone. The builders keep a certificate, `Growing`, in
    which every step is numbered by its place in the insertion order. */
module WorkflowGraphs {
  import opened Common
  import opened Decimal

  // ---------------------------------------------------------------- step ids

  datatype Id = Log(n: nat) | Branch(n: nat) | BranchTrue(n: nat) | BranchFalse(n: nat)
              | Tail(n: nat) | Split(n: nat) | SplitLog(n: nat) | Finish

  /** The id as it is spelled in the generated document. */
  function Render(id: Id): string {
    match id
    case Log(n) => "log_" + Pad(n, 4)
    case Branch(n) => "branch_" + Pad(n, 4)
    case BranchTrue(n) => "branch_" + Pad(n, 4) + "_true"
    case BranchFalse(n) => "branch_" + Pad(n, 4) + "_false"
    case Tail(n) => "tail_" + Pad(n, 4)
    case Split(n) => "split_" + Pad(n, 4)
    case SplitLog(n) => "split_" + Pad(n, 4) + "_log"
    case Finish => "finish"
  }

  function Number(s: string): nat { if AllDigits(s) then Value(s) else 0 }

  function Between(s: string, lead: nat, trail: nat): nat {
    if lead + trail <= |s| then Number(s[lead..|s| - trail]) else 0
  }

  function Read(s: string): Id {
    if |s| < 5 || s[0] == 'f' then Finish
    else
      var last := s[|s| - 1];
      if s[0] == 'l' then Log(Between(s, 4, 0))
      else if s[0] == 't' then Tail(Between(s, 5, 0))
      else if s[0] == 's' then (if IsDigit(last) then Split(Between(s, 6, 0)) else SplitLog(Between(s, 6, 4)))
      else if IsDigit(last) then Branch(Between(s, 7, 0))
      else if s[|s| - 4] == 't' then BranchTrue(Between(s, 7, 5))
      else BranchFalse(Between(s, 7, 6))
  }

  lemma {:induction false} PadIsNotEmpty(n: nat)
    ensures |Pad(n, 4)| > 0 && AllDigits(Pad(n, 4)) && Number(Pad(n, 4)) == n
  {
    PadReadsBack(n, 4);
    ShowReadsBack(n);
  }

  lemma BetweenReadsBack(lead: string, n: nat, trail: string)
    ensures Between(lead + Pad(n, 4) + trail, |lead|, |trail|) == n
    ensures |Pad(n, 4)| > 0
    ensures IsDigit((lead + Pad(n, 4))[|lead| + |Pad(n, 4)| - 1])
  {
    var s := lead + Pad(n, 4) + trail;
    PadIsNotEmpty(n);
    assert s[|lead|..|s| - |trail|] == Pad(n, 4);
  }

  lemma ReadsLog(n: nat)
    ensures Read(Render(Log(n))) == Log(n)
  {
    BetweenReadsBack("log_", n, "");
    assert "log_" + Pad(n, 4) + "" == "log_" + Pad(n, 4);
  }

  lemma ReadsTail(n: nat)
    ensures Read(Render(Tail(n))) == Tail(n)
  {
    BetweenReadsBack("tail_", n, "");
    assert "tail_" + Pad(n, 4) + "" == "tail_" + Pad(n, 4);
  }

  lemma ReadsSplit(n: nat)
    ensures Read(Render(Split(n))) == Split(n)
  {
    BetweenReadsBack("split_", n, "");
    assert "split_" + Pad(n, 4) + "" == "split_" + Pad(n, 4);
  }

  lemma ReadsBranch(n: nat)
    ensures Read(Render(Branch(n))) == Branch(n)
  {
    BetweenReadsBack("branch_", n, "");
    assert "branch_" + Pad(n, 4) + "" == "branch_" + Pad(n, 4);
  }

  lemma ReadsBranchTrue(n: nat)
    ensures Read(Render(BranchTrue(n))) == BranchTrue(n)
  {
    BetweenReadsBack("branch_", n, "_true");
  }

  lemma ReadsBranchFalse(n: nat)
    ensures Read(Render(BranchFalse(n))) == BranchFalse(n)
  {
    BetweenReadsBack("branch_", n, "_false");
  }

  lemma ReadsSplitLog(n: nat)
    ensures Read(Render(SplitLog(n))) == SplitLog(n)
  {
    BetweenReadsBack("split_", n, "_log");
  }

  /** Different ids are spelled differently: a dictionary keyed by spelled ids is one keyed by ids. */
  lemma ReadUndoesRender(id: Id)
    ensures Read(Render(id)) == id
  {
    match id
    case Finish => assert Render(id)[0] == 'f';
    case Log(n) => ReadsLog(n);
    case Tail(n) => ReadsTail(n);
    case Split(n) => ReadsSplit(n);
    case Branch(n) => ReadsBranch(n);
    case SplitLog(n) => ReadsSplitLog(n);
    case BranchTrue(n) => ReadsBranchTrue(n);
    case BranchFalse(n) => ReadsBranchFalse(n);
  }

  // ---------------------------------------------------------------- graphs

  /** What a Finish step returns: the workflow's input, the item of a Split body, or a step's outputs. */
  datatype Source = DataInput | DataItem | OutputsOf(step: Id)

  datatype Kind = LogStep(index: nat) | ConditionalStep | SplitStep(parallelism: int) | FinishStep(source: Source)

  datatype Step = Step(id: Id, kind: Kind, subgraph: Option<Graph>, onWait: Option<Graph>)

  /** `branch` is the label of an edge that leaves a condition. */
  datatype Edge = Edge(from: Id, to: Id, branch: Option<bool>)

  /** `steps` is a dictionary in insertion order. */
  datatype Graph = Graph(steps: seq<(Id, Step)>, entryPoint: Option<Id>, plan: seq<Edge>)

  function Ids(steps: seq<(Id, Step)>): (ids: seq<Id>)
    ensures |ids| == |steps| && forall i :: 0 <= i < |steps| ==> ids[i] == steps[i].0
  {
    seq(|steps|, i requires 0 <= i < |steps| => steps[i].0)
  }

  /** `steps[id] = step`: replaces the value of an existing key, otherwise appends. */
  function Put(steps: seq<(Id, Step)>, id: Id, step: Step): (r: seq<(Id, Step)>)
    ensures id !in Ids(steps) ==> r == steps + [(id, step)] && Ids(r) == Ids(steps) + [id]
    ensures id in Ids(steps) ==> |r| == |steps|
  {
    if id in Ids(steps) then
      seq(|steps|, i requires 0 <= i < |steps| => if steps[i].0 == id then (id, step) else steps[i])
    else steps + [(id, step)]
  }

  function Sum(s: seq<nat>): nat { if s == [] then 0 else Sum(s[..|s| - 1]) + s[|s| - 1] }

  /** All steps, those of nested graphs included. */
  function CountSteps(g: Graph): nat
    decreases g
  {
    |g.steps| + Sum(seq(|g.steps|, i requires 0 <= i < |g.steps| => Inner(g.steps[i].1)))
  }

  function Inner(step: Step): nat
    decreases step
  {
    (if step.subgraph.Some? then CountSteps(step.subgraph.value) else 0)
    + (if step.onWait.Some? then CountSteps(step.onWait.value) else 0)
  }

  /** The steps nested inside the steps of a dictionary. */
  function Nested(steps: seq<(Id, Step)>): nat {
    Sum(seq(|steps|, i requires 0 <= i < |steps| => Inner(steps[i].1)))
  }

  lemma CountIsNested(g: Graph)
    ensures CountSteps(g) == |g.steps| + Nested(g.steps)
  {
    var n, steps := |g.steps|, g.steps;
    assert seq(n, i requires 0 <= i < |g.steps| => Inner(g.steps[i].1))
           == seq(n, i requires 0 <= i < |steps| => Inner(steps[i].1));
  }

  lemma NestedAppend(steps: seq<(Id, Step)>, entry: (Id, Step))
    ensures Nested(steps + [entry]) == Nested(steps) + Inner(entry.1)
  {
    var all := steps + [entry];
    var counts := seq(|all|, i requires 0 <= i < |all| => Inner(all[i].1));
    assert counts[..|steps|] == seq(|steps|, i requires 0 <= i < |steps| => Inner(steps[i].1));
  }

  method CountStepsOf(g: Graph) returns (total: nat)
    ensures total == CountSteps(g)
    decreases g
  {
    total := |g.steps|;
    for i := 0 to |g.steps|
      invariant total == |g.steps| + Nested(g.steps[..i])
    {
      var step := g.steps[i].1;
      if step.subgraph.Some? {
        var inner := CountStepsOf(step.subgraph.value);
        total := total + inner;
      }
      if step.onWait.Some? {
        var inner := CountStepsOf(step.onWait.value);
        total := total + inner;
      }
      NestedAppend(g.steps[..i], g.steps[i]);
      assert g.steps[..i + 1] == g.steps[..i] + [g.steps[i]];
    }
    assert g.steps[..|g.steps|] == g.steps;
    CountIsNested(g);
  }

  // ---------------------------------------------------------------- soundness, over paths

  predicate Connected(plan: seq<Edge>, a: Id, b: Id) {
    exists k :: 0 <= k < |plan| && plan[k].from == a && plan[k].to == b
  }

  predicate HasIn(plan: seq<Edge>, id: Id) { exists k :: 0 <= k < |plan| && plan[k].to == id }

  predicate HasOut(plan: seq<Edge>, id: Id) { exists k :: 0 <= k < |plan| && plan[k].from == id }

  predicate Path(plan: seq<Edge>, p: seq<Id>) {
    p != [] && forall i, j :: 0 <= i < j == i + 1 < |p| ==> Connected(plan, p[i], p[j])
  }

  predicate Distinct(ids: seq<Id>) { forall i, j :: 0 <= i < j < |ids| ==> ids[i] != ids[j] }

  /** Different ids stay different when they are spelled out as keys of the generated document. */
  predicate SpelledApart(ids: seq<Id>) { forall i, j :: 0 <= i < j < |ids| ==> Render(ids[i]) != Render(ids[j]) }

  lemma DistinctIsSpelledApart(ids: seq<Id>)
    requires Distinct(ids)
    ensures SpelledApart(ids)
  {
    forall i, j | 0 <= i < j < |ids|
      ensures Render(ids[i]) != Render(ids[j])
    {
      ReadUndoesRender(ids[i]);
      ReadUndoesRender(ids[j]);
    }
  }

  predicate EdgesExist(ids: seq<Id>, plan: seq<Edge>) {
    forall k :: 0 <= k < |plan| ==> plan[k].from in ids && plan[k].to in ids
  }

  ghost predicate Reaches(plan: seq<Edge>, a: Id, b: Id) {
    exists p :: Path(plan, p) && p[0] == a && p[|p| - 1] == b
  }

  ghost predicate AllReachable(ids: seq<Id>, plan: seq<Edge>, entry: Id) {
    forall id :: id in ids ==> Reaches(plan, entry, id)
  }

  ghost predicate Acyclic(plan: seq<Edge>) {
    forall p :: Path(plan, p) && |p| > 1 ==> p[0] != p[|p| - 1]
  }

  /** A path that cannot go on has arrived at finish. */
  ghost predicate OnlyFinishEnds(ids: seq<Id>, plan: seq<Edge>) {
    forall p :: Path(plan, p) && p[0] in ids && !HasOut(plan, p[|p| - 1]) ==> p[|p| - 1] == Finish
  }

  /** No path is longer than the number of steps, so every path can only go on so far. */
  ghost predicate PathsAreShort(ids: seq<Id>, plan: seq<Edge>) {
    forall p :: Path(plan, p) && p[0] in ids ==> |p| <= |ids|
  }

  ghost predicate SoundShape(ids: seq<Id>, plan: seq<Edge>, entry: Id) {
    && Distinct(ids) && SpelledApart(ids) && entry in ids && Finish in ids && EdgesExist(ids, plan)
    && AllReachable(ids, plan, entry) && Acyclic(plan) && OnlyFinishEnds(ids, plan) && PathsAreShort(ids, plan)
  }

  /** A sound graph all of whose nested graphs are sound. */
  ghost predicate Sound(g: Graph)
    decreases g
  {
    && g.entryPoint.Some?
    && SoundShape(Ids(g.steps), g.plan, g.entryPoint.value)
    && forall i :: 0 <= i < |g.steps| ==> SoundStep(g.steps[i].0, g.steps[i].1)
  }

  /** A step is stored under its own id, and its nested graphs are sound. */
  ghost predicate SoundStep(id: Id, step: Step)
    decreases step
  {
    && step.id == id
    && (step.subgraph.Some? ==> Sound(step.subgraph.value))
    && (step.onWait.Some? ==> Sound(step.onWait.value))
  }

  // ---------------------------------------------------------------- the certificate

  /** A graph under construction: steps are numbered in order, edges climb, every step but the first has
      an edge in, and every step not waiting in `pending` has an edge out. */
  ghost predicate Growing(ids: seq<Id>, plan: seq<Edge>, pos: Id -> int, pending: seq<Id>) {
    && (forall i :: 0 <= i < |ids| ==> pos(ids[i]) == i)
    && EdgesExist(ids, plan)
    && (forall k :: 0 <= k < |plan| ==> pos(plan[k].from) < pos(plan[k].to))
    && (forall i {:trigger HasIn(plan, ids[i])} :: 0 < i < |ids| ==> HasIn(plan, ids[i]))
    && (forall i {:trigger HasOut(plan, ids[i])} :: 0 <= i < |ids| ==> HasOut(plan, ids[i]) || ids[i] in pending)
    && (forall i :: 0 <= i < |pending| ==> pending[i] in ids)
  }

  lemma HasMore(plan: seq<Edge>, more: seq<Edge>, id: Id)
    ensures HasIn(plan, id) || HasIn(more, id) ==> HasIn(plan + more, id)
    ensures HasOut(plan, id) || HasOut(more, id) ==> HasOut(plan + more, id)
  {
    var all := plan + more;
    assert forall k :: 0 <= k < |plan| ==> all[k] == plan[k];
    assert forall k :: 0 <= k < |more| ==> all[k + |plan|] == more[k];
  }

  /** Adding the next step, with edges to it from steps already there. */
  lemma Grow(ids: seq<Id>, plan: seq<Edge>, pos: Id -> int, pending: seq<Id>, x: Id, more: seq<Edge>, waiting: seq<Id>)
    requires Growing(ids, plan, pos, pending) && pos(x) == |ids|
    requires forall k :: 0 <= k < |more| ==> more[k].to == x && more[k].from in ids
    requires ids == [] || more != []
    requires forall p :: p in pending ==> HasOut(more, p) || p in waiting
    requires x in waiting && forall p :: p in waiting ==> p in ids || p == x
    ensures x !in ids
    ensures Growing(ids + [x], plan + more, pos, waiting)
  {
    var ids', plan' := ids + [x], plan + more;
    forall i | 0 < i < |ids'|
      ensures HasIn(plan', ids'[i])
    {
      HasMore(plan, more, ids'[i]);
      assert i == |ids| ==> more[0].to == ids'[i];
    }
    forall i | 0 <= i < |ids'|
      ensures HasOut(plan', ids'[i]) || ids'[i] in waiting
    {
      HasMore(plan, more, ids'[i]);
    }
    forall k | 0 <= k < |plan'|
      ensures plan'[k].from in ids' && plan'[k].to in ids' && pos(plan'[k].from) < pos(plan'[k].to)
    {
      if k >= |plan| {
        assert plan'[k] == more[k - |plan|];
      }
    }
  }

  lemma {:induction false} PathsClimb(ids: seq<Id>, plan: seq<Edge>, pos: Id -> int, pending: seq<Id>, p: seq<Id>)
    requires Growing(ids, plan, pos, pending) && Path(plan, p)
    ensures pos(p[0]) + |p| - 1 <= pos(p[|p| - 1])
    ensures p[0] in ids ==> p[|p| - 1] in ids
    decreases p
  {
    if |p| == 1 {
    } else {
      var front := p[..|p| - 1];
      PathsClimb(ids, plan, pos, pending, front);
      assert Connected(plan, p[|p| - 2], p[|p| - 1]);
    }
  }

  /** Every step is reached from the first one, backwards along its edge in. */
  lemma {:induction false} ReachedFromFirst(ids: seq<Id>, plan: seq<Edge>, pos: Id -> int, pending: seq<Id>, i: nat)
    requires Growing(ids, plan, pos, pending) && i < |ids|
    ensures Reaches(plan, ids[0], ids[i])
  {
    if i == 0 {
      assert Path(plan, [ids[0]]);
    } else {
      assert HasIn(plan, ids[i]);
      var k :| 0 <= k < |plan| && plan[k].to == ids[i];
      var a := plan[k].from;
      assert pos(a) < i;
      assert a in ids;
      ReachedFromFirst(ids, plan, pos, pending, pos(a));
      ReachesOneFurther(plan, ids[0], a, ids[i]);
    }
  }

  lemma ReachesOneFurther(plan: seq<Edge>, a: Id, b: Id, c: Id)
    requires Reaches(plan, a, b) && Connected(plan, b, c)
    ensures Reaches(plan, a, c)
  {
    var p :| Path(plan, p) && p[0] == a && p[|p| - 1] == b;
    var q := p + [c];
    assert Path(plan, q);
    assert q[0] == a && q[|q| - 1] == c;
  }

  lemma CertifiedIsReachable(ids: seq<Id>, plan: seq<Edge>, pos: Id -> int)
    requires ids != [] && Growing(ids, plan, pos, [Finish])
    ensures AllReachable(ids, plan, ids[0])
  {
    forall id | id in ids
      ensures Reaches(plan, ids[0], id)
    {
      var i :| 0 <= i < |ids| && ids[i] == id;
      ReachedFromFirst(ids, plan, pos, [Finish], i);
    }
  }

  lemma CertifiedPath(ids: seq<Id>, plan: seq<Edge>, pos: Id -> int, p: seq<Id>)
    requires ids != [] && Growing(ids, plan, pos, [Finish]) && Path(plan, p)
    ensures |p| > 1 ==> p[0] != p[|p| - 1]
    ensures p[0] in ids ==> |p| <= |ids|
    ensures p[0] in ids && !HasOut(plan, p[|p| - 1]) ==> p[|p| - 1] == Finish
  {
    PathsClimb(ids, plan, pos, [Finish], p);
  }

  /** A certified graph with only finish pending is sound. */
  lemma CertifiedIsSound(ids: seq<Id>, plan: seq<Edge>, pos: Id -> int)
    requires ids != [] && Growing(ids, plan, pos, [Finish])
    ensures SoundShape(ids, plan, ids[0])
  {
    CertifiedIsReachable(ids, plan, pos);
    DistinctIsSpelledApart(ids);
    forall p | Path(plan, p)
      ensures |p| > 1 ==> p[0] != p[|p| - 1]
      ensures p[0] in ids ==> |p| <= |ids|
      ensures p[0] in ids && !HasOut(plan, p[|p| - 1]) ==> p[|p| - 1] == Finish
    {
      CertifiedPath(ids, plan, pos, p);
    }
  }

  // ---------------------------------------------------------------- builders

  datatype BuildError = TooFewSteps | UnsupportedShape | WrongCount

  datatype Built = Ok(graph: Graph) | Err(error: BuildError)

  function Simple(id: Id, kind: Kind): Step { Step(id, kind, None, None) }

  /** What every builder promises of its graph. */
  ghost predicate Benchmark(g: Graph, stepCount: int) {
    Sound(g) && CountSteps(g) == stepCount && Proper(g)
  }

  ghost predicate Proper(g: Graph) {
    && Labelled(g.plan)
    && forall i :: 0 <= i < |g.steps| ==>
         && RightKind(g.steps[i].0, g.steps[i].1) && ReadsPredecessor(g.plan, g.steps[i].1)
         && HasBody(g.steps[i].0, g.steps[i].1)
  }

  /** Exactly the edges out of a condition are labelled, each with the branch it leads to. */
  predicate Labelled(plan: seq<Edge>) {
    forall k :: 0 <= k < |plan| ==> RightLabel(plan[k])
  }

  predicate RightLabel(e: Edge) {
    if e.from.Branch? then
      e == Edge(e.from, BranchTrue(e.from.n), Some(true)) || e == Edge(e.from, BranchFalse(e.from.n), Some(false))
    else e.branch.None?
  }

  /** The id tells the kind of step, and only Split steps have a body. */
  predicate RightKind(id: Id, step: Step) {
    && (step.kind.ConditionalStep? <==> id.Branch?) && (step.kind.FinishStep? <==> id.Finish?)
    && (step.kind.SplitStep? <==> id.Split?) && (step.subgraph.Some? <==> id.Split?)
  }

  /** The body of a Split step: a log step of the same number, and a finish step that returns the item. */
  predicate HasBody(id: Id, step: Step) {
    id.Split? && step.subgraph.Some? ==>
      var g := step.subgraph.value;
      && |g.steps| == 2 && g.entryPoint == Some(SplitLog(id.n))
      && g.steps[0].1 == Step(SplitLog(id.n), LogStep(id.n), None, None)
      && g.steps[1].1 == Step(Finish, FinishStep(DataItem), None, None)
  }

  /** A finish step that returns a step's outputs follows that step directly. */
  predicate ReadsPredecessor(plan: seq<Edge>, step: Step) {
    step.kind.FinishStep? && step.kind.source.OutputsOf? ==> Connected(plan, step.kind.source.step, Finish)
  }

  /** A step under its own id, with a body only if it is a Split step. */
  predicate PlainStep(id: Id, step: Step) {
    && step.id == id && step.onWait.None? && RightKind(id, step)
    && (step.subgraph.Some? ==> id.Split? && step.subgraph.value == SplitSubgraph(id.n))
  }

  /** The dictionary so far, with `nested` further steps inside its steps. */
  ghost predicate StepsSoFar(steps: seq<(Id, Step)>, nested: nat) {
    (forall i :: 0 <= i < |steps| ==> PlainStep(steps[i].0, steps[i].1)) && Nested(steps) == nested
  }

  lemma StepAdded(steps: seq<(Id, Step)>, nested: nat, id: Id, step: Step)
    requires StepsSoFar(steps, nested) && PlainStep(id, step)
    ensures StepsSoFar(steps + [(id, step)], nested + Inner(step))
  {
    NestedAppend(steps, (id, step));
  }

  lemma PlainIsSound(id: Id, step: Step)
    requires PlainStep(id, step)
    ensures SoundStep(id, step)
  {
    if step.subgraph.Some? {
      SubgraphIsSound(id.n);
    }
  }

  function EdgesTo(sources: seq<Id>, to: Id): seq<Edge> {
    seq(|sources|, i requires 0 <= i < |sources| => Edge(sources[i], to, None))
  }

  lemma EdgesLeaveSources(sources: seq<Id>, to: Id)
    ensures forall p :: p in sources ==> HasOut(EdgesTo(sources, to), p)
  {
    forall p | p in sources
      ensures HasOut(EdgesTo(sources, to), p)
    {
      var i :| 0 <= i < |sources| && sources[i] == p;
      assert EdgesTo(sources, to)[i].from == p;
    }
  }

  /** Adding the next step after everything that is pending. */
  lemma GrowFromPending(ids: seq<Id>, plan: seq<Edge>, pos: Id -> int, pending: seq<Id>, x: Id)
    requires Growing(ids, plan, pos, pending) && pos(x) == |ids| && (ids == [] <==> pending == [])
    ensures x !in ids && Growing(ids + [x], plan + EdgesTo(pending, x), pos, [x])
  {
    EdgesLeaveSources(pending, x);
    Grow(ids, plan, pos, pending, x, EdgesTo(pending, x), [x]);
  }

  method ConnectAll(plan: seq<Edge>, sources: seq<Id>, to: Id) returns (r: seq<Edge>)
    ensures r == plan + EdgesTo(sources, to)
  {
    r := plan;
    for i := 0 to |sources|
      invariant r == plan + EdgesTo(sources, to)[..i]
    {
      r := r + [Edge(sources[i], to, None)];
    }
  }

  /** Where each id stands in the finished dictionary, and what kind of step stands at each place. */
  datatype Shape = Shape(place: Id -> int, kind: int -> Kind)

  ghost function LinearShape(stepCount: int): Shape {
    Shape((id: Id) => match id case Log(k) => k - 1 case Finish => stepCount - 1 case _ => -1,
          i => LinearKind(stepCount, i))
  }

  /** Log steps numbered from one, then the finish step. */
  function LinearKind(stepCount: int, i: int): Kind {
    if 0 <= i < stepCount - 1 then LogStep(i + 1) else FinishStep(DataInput)
  }

  /** The kinds of all steps, in order. */
  ghost predicate HasKinds(steps: seq<(Id, Step)>, kind: int -> Kind) {
    forall i :: 0 <= i < |steps| ==> steps[i].1.kind == kind(i)
  }

  function Optional(o: Option<Id>): seq<Id> { if o.Some? then [o.value] else [] }

  /** A workflow under construction. */
  datatype Draft = Draft(steps: seq<(Id, Step)>, plan: seq<Edge>, entry: Option<Id>)

  ghost predicate Drafted(d: Draft, shape: Shape, pending: seq<Id>, nested: nat) {
    && Growing(Ids(d.steps), d.plan, shape.place, pending) && StepsSoFar(d.steps, nested)
    && (d.steps == [] <==> pending == []) && HasKinds(d.steps, shape.kind)
    && Labelled(d.plan) && (forall i :: 0 <= i < |pending| ==> !pending[i].Branch?)
    && d.entry == (if d.steps == [] then None else Some(d.steps[0].0))
  }

  /** One more step after everything pending. */
  lemma DraftGrows(d: Draft, shape: Shape, pending: seq<Id>, nested: nat, id: Id, step: Step)
    requires Drafted(d, shape, pending, nested) && PlainStep(id, step) && !id.Branch?
    requires shape.place(id) == |d.steps| && shape.kind(|d.steps|) == step.kind
    ensures var steps := Put(d.steps, id, step);
            && |steps| == |d.steps| + 1
            && Drafted(Draft(steps, d.plan + EdgesTo(pending, id), if d.entry.None? then Some(id) else d.entry),
                       shape, [id], nested + Inner(step))
  {
    GrowFromPending(Ids(d.steps), d.plan, shape.place, pending, id);
    StepAdded(d.steps, nested, id, step);
  }

  ghost predicate IsLinear(g: Graph, stepCount: int) {
    |g.steps| == stepCount && forall i :: 0 <= i < |g.steps| ==> g.steps[i].1.kind == LinearKind(stepCount, i)
  }

  ghost predicate IsBranching(g: Graph, stepCount: int) {
    && stepCount >= 4 && |g.steps| == stepCount
    && forall i :: 0 <= i < |g.steps| ==> g.steps[i].1.kind == BranchingKind(Triples(stepCount), stepCount, i)
  }

  ghost predicate IsSplit(g: Graph, stepCount: int, parallelism: int) {
    && stepCount >= 4 && |g.steps| == stepCount - 2 * Triples(stepCount)
    && forall i :: 0 <= i < |g.steps| ==> g.steps[i].1.kind == SplitKind(Triples(stepCount), stepCount, parallelism, i)
  }

  method BuildLinearGraph(stepCount: int) returns (r: Built)
    ensures r.Err? <==> stepCount < 2
    ensures r.Err? ==> r.error == TooFewSteps
    ensures r.Ok? ==> Benchmark(r.graph, stepCount) && IsLinear(r.graph, stepCount)
  {
    if stepCount < 2 {
      return Err(TooFewSteps);
    }
    var d, previous := AddLogs(stepCount);
    var g := Completed(d, [previous], DataInput, LinearShape(stepCount), 0, stepCount);
    r := Ok(g);
  }

  /** The chain of log steps. */
  method AddLogs(stepCount: int) returns (d: Draft, last: Id)
    requires stepCount >= 2
    ensures |d.steps| == stepCount - 1 && Drafted(d, LinearShape(stepCount), [last], 0)
  {
    d := Draft([], [], None);
    var previous: Option<Id> := None;
    ghost var shape := LinearShape(stepCount);
    for index := 1 to stepCount
      invariant |d.steps| == index - 1 && (index > 1 ==> previous.Some?)
      invariant Drafted(d, shape, Optional(previous), 0)
    {
      var id := Log(index);
      var step := Simple(id, LogStep(index));
      DraftGrows(d, shape, Optional(previous), 0, id, step);
      d := Follow(d, previous, id, step);
      previous := Some(id);
    }
    last := previous.value;
  }

  /** Stores a step that follows the previous one, or is the entry point. */
  function Follow(d: Draft, previous: Option<Id>, id: Id, step: Step): (r: Draft)
    requires d.entry.None? <==> previous.None?
    ensures r == Draft(Put(d.steps, id, step), d.plan + EdgesTo(Optional(previous), id),
                       if d.entry.None? then Some(id) else d.entry)
  {
    if previous.None? then
      assert d.plan + EdgesTo([], id) == d.plan;
      Draft(Put(d.steps, id, step), d.plan, Some(id))
    else
      assert EdgesTo([previous.value], id) == [Edge(previous.value, id, None)];
      Draft(Put(d.steps, id, step), d.plan + [Edge(previous.value, id, None)], d.entry)
  }

  /** Adds the finish step after everything pending. */
  method Completed(
    d: Draft, pending: seq<Id>, source: Source, ghost shape: Shape, ghost nested: nat, ghost stepCount: int)
    returns (g: Graph)
    requires Drafted(d, shape, pending, nested) && d.steps != []
    requires shape.place(Finish) == |d.steps| && shape.kind(|d.steps|) == FinishStep(source)
    requires source.OutputsOf? ==> source.step in pending
    requires |d.steps| + 1 + nested == stepCount
    ensures Benchmark(g, stepCount) && |g.steps| == |d.steps| + 1 && HasKinds(g.steps, shape.kind)
  {
    var finish := Simple(Finish, FinishStep(source));
    var plan := ConnectAll(d.plan, pending, Finish);
    g := Graph(Put(d.steps, Finish, finish), d.entry, plan);
    CompletedIsBenchmark(d, pending, source, shape, nested, g);
  }

  lemma CompletedIsBenchmark(d: Draft, pending: seq<Id>, source: Source, shape: Shape, nested: nat, g: Graph)
    requires Drafted(d, shape, pending, nested) && d.steps != []
    requires shape.place(Finish) == |d.steps| && shape.kind(|d.steps|) == FinishStep(source)
    requires source.OutputsOf? ==> source.step in pending
    requires g == Graph(Put(d.steps, Finish, Simple(Finish, FinishStep(source))), d.entry,
                        d.plan + EdgesTo(pending, Finish))
    ensures Benchmark(g, |d.steps| + 1 + nested) && |g.steps| == |d.steps| + 1 && HasKinds(g.steps, shape.kind)
  {
    DraftGrows(d, shape, pending, nested, Finish, Simple(Finish, FinishStep(source)));
    assert |g.steps| == |d.steps| + 1;
    FinishedIsSound(g, shape, nested);
    CompletedIsProper(d, pending, source, shape, nested, g);
  }

  lemma CompletedIsProper(d: Draft, pending: seq<Id>, source: Source, shape: Shape, nested: nat, g: Graph)
    requires Drafted(d, shape, pending, nested) && shape.place(Finish) == |d.steps|
    requires source.OutputsOf? ==> source.step in pending
    requires g == Graph(Put(d.steps, Finish, Simple(Finish, FinishStep(source))), d.entry,
                        d.plan + EdgesTo(pending, Finish))
    ensures Proper(g)
  {
    assert Finish !in Ids(d.steps);
    FollowsSource(d, g.plan, pending, source);
    forall i | 0 <= i < |g.steps|
      ensures RightKind(g.steps[i].0, g.steps[i].1) && ReadsPredecessor(g.plan, g.steps[i].1)
      ensures HasBody(g.steps[i].0, g.steps[i].1)
    {
      if i < |d.steps| {
        assert PlainStep(d.steps[i].0, d.steps[i].1) && d.steps[i].0 == Ids(d.steps)[i];
      }
    }
  }

  lemma FollowsSource(d: Draft, plan: seq<Edge>, pending: seq<Id>, source: Source)
    requires plan == d.plan + EdgesTo(pending, Finish) && (source.OutputsOf? ==> source.step in pending)
    ensures source.OutputsOf? ==> Connected(plan, source.step, Finish)
  {
    if source.OutputsOf? {
      var i :| 0 <= i < |pending| && pending[i] == source.step;
      assert plan[|d.plan| + i] == Edge(source.step, Finish, None);
    }
  }

  lemma FinishedIsSound(g: Graph, shape: Shape, nested: nat)
    requires Drafted(Draft(g.steps, g.plan, g.entryPoint), shape, [Finish], nested)
    ensures Sound(g) && CountSteps(g) == |g.steps| + nested
  {
    CertifiedIsSound(Ids(g.steps), g.plan, shape.place);
    CountIsNested(g);
    forall i | 0 <= i < |g.steps|
      ensures SoundStep(g.steps[i].0, g.steps[i].1)
    {
      PlainIsSound(g.steps[i].0, g.steps[i].1);
    }
  }

  /** A shape that places the diamonds, the tails and the finish step. */
  lemma BranchingShape(diamonds: nat, stepCount: int) returns (shape: Shape)
    requires stepCount >= 3 * diamonds + 1
    ensures DiamondsPlaced(shape, diamonds)
    ensures TailsPlaced(shape, 3 * diamonds, 2 * diamonds, stepCount - 3 * diamonds - 1)
    ensures shape.place(Finish) == stepCount - 1 && shape.kind(stepCount - 1) == FinishStep(DataInput)
    ensures forall i :: shape.kind(i) == BranchingKind(diamonds, stepCount, i)
  {
    shape := Shape((id: Id) => match id
                               case Branch(k) => 3 * (k - 1)
                               case BranchTrue(k) => 3 * (k - 1) + 1
                               case BranchFalse(k) => 3 * (k - 1) + 2
                               case Tail(k) => 3 * diamonds + k - 1
                               case Finish => stepCount - 1
                               case _ => -1,
                   i => BranchingKind(diamonds, stepCount, i));
    forall k: nat | 1 <= k <= diamonds
      ensures DiamondPlaced(shape, k)
    {
      KindsInDiamond(diamonds, stepCount, k);
    }
    forall k: nat | 1 <= k <= stepCount - 3 * diamonds - 1
      ensures shape.place(Tail(k)) == 3 * diamonds + k - 1
      ensures shape.kind(3 * diamonds + k - 1) == LogStep(2 * diamonds + k)
    {
      KindOfTail(diamonds, stepCount, k);
    }
  }

  lemma KindsInDiamond(diamonds: nat, stepCount: int, k: nat)
    requires 1 <= k <= diamonds
    ensures BranchingKind(diamonds, stepCount, 3 * (k - 1)) == ConditionalStep
    ensures BranchingKind(diamonds, stepCount, 3 * (k - 1) + 1) == LogStep(k * 2 - 1)
    ensures BranchingKind(diamonds, stepCount, 3 * (k - 1) + 2) == LogStep(k * 2)
  {
    var j := k - 1;
    assert (3 * j) % 3 == 0;
    assert (3 * j + 1) / 3 == j && (3 * j + 1) % 3 == 1;
    assert (3 * j + 2) / 3 == j && (3 * j + 2) % 3 == 2;
  }

  lemma KindOfTail(diamonds: nat, stepCount: int, k: nat)
    requires 1 <= k <= stepCount - 3 * diamonds - 1
    ensures BranchingKind(diamonds, stepCount, 3 * diamonds + k - 1) == LogStep(2 * diamonds + k)
  {
  }

  ghost predicate DiamondsPlaced(shape: Shape, diamonds: nat) {
    forall k: nat :: 1 <= k <= diamonds ==> DiamondPlaced(shape, k)
  }

  ghost predicate DiamondPlaced(shape: Shape, k: nat) {
    && k >= 1 && shape.place(Branch(k)) == 3 * (k - 1)
    && shape.place(BranchTrue(k)) == 3 * (k - 1) + 1 && shape.place(BranchFalse(k)) == 3 * (k - 1) + 2
    && DiamondKinds(shape.kind, 3 * (k - 1), k)
  }

  /** Conditions each followed by two log steps, then more log steps, then the finish step; the log steps
      are numbered from one. */
  function BranchingKind(diamonds: nat, stepCount: int, i: int): Kind {
    if 0 <= i < 3 * diamonds then
      if i % 3 == 0 then ConditionalStep else LogStep(i / 3 * 2 + i % 3)
    else if 0 <= i < stepCount - 1 then LogStep(i + 1 - diamonds)
    else FinishStep(DataInput)
  }

  /** A condition with its two branches, joined to what is pending. */
  lemma GrowDiamond(
    ids: seq<Id>, plan: seq<Edge>, pos: Id -> int, pending: seq<Id>, c: Id, t: Id, f: Id, e1: Edge, e2: Edge)
    requires Growing(ids, plan, pos, pending) && (ids == [] <==> pending == [])
    requires pos(c) == |ids| && pos(t) == |ids| + 1 && pos(f) == |ids| + 2
    requires e1.from == c && e1.to == t && e2.from == c && e2.to == f
    ensures c !in ids && t !in ids + [c] && f !in ids + [c] + [t]
    ensures Growing(ids + [c] + [t] + [f], plan + EdgesTo(pending, c) + [e1] + [e2], pos, [t, f])
  {
    GrowFromPending(ids, plan, pos, pending, c);
    assert [e1][0] == e1 && [e2][0] == e2;
    assert HasOut([e1], c);
    Grow(ids + [c], plan + EdgesTo(pending, c), pos, [c], t, [e1], [t]);
    Grow(ids + [c] + [t], plan + EdgesTo(pending, c) + [e1], pos, [t], f, [e2], [t, f]);
  }

  function Max(a: int, b: int): int { if a < b then b else a }

  /** How many groups of three steps fit beside the finish step. */
  function Triples(stepCount: int): (count: nat)
    requires stepCount >= 4
    ensures count >= 1 && 0 <= stepCount - count * 3 - 1 < 3
  {
    Max(1, (stepCount - 1) / 3)
  }

  method BuildBranchingGraph(stepCount: int) returns (r: Built)
    ensures r.Err? <==> stepCount < 4
    ensures r.Err? ==> r.error == TooFewSteps
    ensures r.Ok? ==> Benchmark(r.graph, stepCount) && IsBranching(r.graph, stepCount)
  {
    if stepCount < 4 {
      return Err(TooFewSteps);
    }
    var diamonds := Triples(stepCount);
    var tails := stepCount - diamonds * 3 - 1;
    ghost var shape := BranchingShape(diamonds, stepCount);
    var d, pending := AddDiamonds(diamonds, shape);
    d, pending := AddTails(d, pending, 3 * diamonds, 2 * diamonds, tails, shape, 0);
    var g := Completed(d, pending, DataInput, shape, 0, stepCount);
    r := Ok(g);
  }

  ghost predicate TailsPlaced(shape: Shape, placed: nat, logs: nat, tails: nat) {
    forall k: nat :: 1 <= k <= tails ==>
      shape.place(Tail(k)) == placed + k - 1 && shape.kind(placed + k - 1) == LogStep(logs + k)
  }

  /** The chain of log steps that makes up the requested number. */
  method AddTails(
    d0: Draft, pending0: seq<Id>, ghost placed: nat, logs: nat, tails: nat, ghost shape: Shape, ghost nested: nat)
    returns (d: Draft, pending: seq<Id>)
    requires Drafted(d0, shape, pending0, nested) && |d0.steps| == placed > 0
    requires TailsPlaced(shape, placed, logs, tails)
    ensures |d.steps| == placed + tails && Drafted(d, shape, pending, nested)
    ensures pending == if tails == 0 then pending0 else [Tail(tails)]
  {
    d, pending := d0, pending0;
    for index := 1 to tails + 1
      invariant |d.steps| == placed + index - 1 && Drafted(d, shape, pending, nested)
      invariant pending == if index == 1 then pending0 else [Tail(index - 1)]
    {
      assert shape.place(Tail(index)) == |d.steps|;
      d := AddTail(d, pending, index, logs + index, shape, nested);
      pending := [Tail(index)];
    }
  }

  method AddTail(d: Draft, pending: seq<Id>, index: nat, log: nat, ghost shape: Shape, ghost nested: nat)
    returns (r: Draft)
    requires Drafted(d, shape, pending, nested) && d.steps != []
    requires shape.place(Tail(index)) == |d.steps| && shape.kind(|d.steps|) == LogStep(log)
    ensures Drafted(r, shape, [Tail(index)], nested) && |r.steps| == |d.steps| + 1
  {
    var id := Tail(index);
    var step := Simple(id, LogStep(log));
    DraftGrows(d, shape, pending, nested, id, step);
    var plan := ConnectAll(d.plan, pending, id);
    r := d.(steps := Put(d.steps, id, step), plan := plan);
  }

  method AddDiamonds(diamonds: nat, ghost shape: Shape) returns (d: Draft, pending: seq<Id>)
    requires diamonds >= 1 && DiamondsPlaced(shape, diamonds)
    ensures |d.steps| == 3 * diamonds && Drafted(d, shape, pending, 0)
  {
    d, pending := Draft([], [], None), [];
    for index := 1 to diamonds + 1
      invariant |d.steps| == 3 * (index - 1) && Drafted(d, shape, pending, 0)
    {
      assert DiamondPlaced(shape, index);
      d := AddDiamond(d, pending, index, shape);
      pending := [BranchTrue(index), BranchFalse(index)];
    }
  }

  ghost predicate DiamondKinds(kind: int -> Kind, at: nat, index: nat) {
    && index >= 1 && kind(at) == ConditionalStep
    && kind(at + 1) == LogStep(index * 2 - 1) && kind(at + 2) == LogStep(index * 2)
  }

  method AddDiamond(d: Draft, pending: seq<Id>, index: nat, ghost shape: Shape) returns (r: Draft)
    requires index >= 1 && Drafted(d, shape, pending, 0) && |d.steps| == 3 * (index - 1)
    requires shape.place(Branch(index)) == |d.steps| && shape.place(BranchTrue(index)) == |d.steps| + 1
    requires shape.place(BranchFalse(index)) == |d.steps| + 2 && DiamondKinds(shape.kind, |d.steps|, index)
    ensures Drafted(r, shape, [BranchTrue(index), BranchFalse(index)], 0) && |r.steps| == |d.steps| + 3
  {
    var c, t, f := Branch(index), BranchTrue(index), BranchFalse(index);
    var onTrue, onFalse := Edge(c, t, Some(true)), Edge(c, f, Some(false));
    DraftGrowsDiamond(d, shape, pending, c, t, f, onTrue, onFalse, index);
    var steps := PutDiamond(d.steps, c, t, f, index);
    var plan := d.plan;
    if index == 1 {
      assert plan + EdgesTo(pending, c) == plan;
    } else {
      plan := ConnectAll(plan, pending, c);
    }
    plan := plan + [onTrue] + [onFalse];
    r := Draft(steps, plan, if index == 1 then Some(c) else d.entry);
  }

  lemma DraftGrowsDiamond(
    d: Draft, shape: Shape, pending: seq<Id>, c: Id, t: Id, f: Id, onTrue: Edge, onFalse: Edge, index: nat)
    requires index >= 1 && c == Branch(index) && t == BranchTrue(index) && f == BranchFalse(index)
    requires onTrue == Edge(c, t, Some(true)) && onFalse == Edge(c, f, Some(false))
    requires Drafted(d, shape, pending, 0)
    requires shape.place(c) == |d.steps| && shape.place(t) == |d.steps| + 1 && shape.place(f) == |d.steps| + 2
    requires DiamondKinds(shape.kind, |d.steps|, index)
    ensures c !in Ids(d.steps) && t !in Ids(d.steps) + [c] && f !in Ids(d.steps) + [c] + [t]
    ensures var steps := PutDiamond(d.steps, c, t, f, index);
            && |steps| == |d.steps| + 3
            && Drafted(Draft(steps, d.plan + EdgesTo(pending, c) + [onTrue] + [onFalse],
                             if d.entry.None? then Some(c) else d.entry),
                       shape, [t, f], 0)
  {
    GrowDiamond(Ids(d.steps), d.plan, shape.place, pending, c, t, f, onTrue, onFalse);
    DiamondIsLabelled(d.plan, pending, onTrue, onFalse);
    var steps := PutDiamond(d.steps, c, t, f, index);
    assert steps[0].0 == Ids(steps)[0] && |Ids(steps)| == |d.steps| + 3;
    DiamondHasKinds(d.steps, steps, shape.kind, index);
  }

  lemma DiamondHasKinds(steps: seq<(Id, Step)>, r: seq<(Id, Step)>, kind: int -> Kind, index: nat)
    requires HasKinds(steps, kind) && DiamondKinds(kind, |steps|, index) && |r| == |steps| + 3
    requires forall i :: 0 <= i < |steps| ==> r[i] == steps[i]
    requires r[|steps|].1.kind == ConditionalStep
    requires r[|steps| + 1].1.kind == LogStep(index * 2 - 1) && r[|steps| + 2].1.kind == LogStep(index * 2)
    ensures HasKinds(r, kind)
  {
  }

  lemma DiamondIsLabelled(plan: seq<Edge>, pending: seq<Id>, onTrue: Edge, onFalse: Edge)
    requires Labelled(plan) && (forall i :: 0 <= i < |pending| ==> !pending[i].Branch?)
    requires RightLabel(onTrue) && RightLabel(onFalse)
    ensures Labelled(plan + EdgesTo(pending, onTrue.from) + [onTrue] + [onFalse])
  {
  }

  function PutDiamond(steps: seq<(Id, Step)>, c: Id, t: Id, f: Id, index: nat): (r: seq<(Id, Step)>)
    requires index >= 1 && StepsSoFar(steps, 0) && c.Branch? && t.BranchTrue? && f.BranchFalse?
    requires c !in Ids(steps) && t !in Ids(steps) + [c] && f !in Ids(steps) + [c] + [t]
    ensures Ids(r) == Ids(steps) + [c] + [t] + [f] && StepsSoFar(r, 0)
    ensures forall i :: 0 <= i < |steps| ==> r[i] == steps[i]
    ensures r[|steps|].1.kind == ConditionalStep
    ensures r[|steps| + 1].1.kind == LogStep(index * 2 - 1) && r[|steps| + 2].1.kind == LogStep(index * 2)
  {
    var a, b, d := Simple(c, ConditionalStep), Simple(t, LogStep(index * 2 - 1)), Simple(f, LogStep(index * 2));
    StepAdded(steps, 0, c, a);
    var one := Put(steps, c, a);
    StepAdded(one, 0, t, b);
    var two := Put(one, t, b);
    StepAdded(two, 0, f, d);
    Put(two, f, d)
  }

  // ---------------------------------------------------------------- split graphs

  function SplitSubgraph(index: nat): Graph {
    var log := SplitLog(index);
    Graph([(log, Simple(log, LogStep(index))), (Finish, Simple(Finish, FinishStep(DataItem)))],
          Some(log), [Edge(log, Finish, None)])
  }

  /** The body of a Split step is itself a sound graph, of two steps. */
  lemma SubgraphIsSound(index: nat)
    ensures Sound(SplitSubgraph(index))
  {
    var log, g := SplitLog(index), SplitSubgraph(index);
    assert Ids(g.steps) == [log, Finish];
    SubgraphShape(log);
  }

  lemma SubgraphShape(log: Id)
    requires log != Finish
    ensures SoundShape([log, Finish], [Edge(log, Finish, None)], log)
  {
    var ids, plan, pos := [log, Finish], [Edge(log, Finish, None)], (id: Id) => if id == log then 0 else 1;
    assert plan[0].from == log && plan[0].to == Finish;
    assert HasIn(plan, ids[1]) && HasOut(plan, ids[0]);
    CertifiedIsSound(ids, plan, pos);
  }

  lemma SubgraphCount(index: nat)
    ensures CountSteps(SplitSubgraph(index)) == 2
  {
    var steps := SplitSubgraph(index).steps;
    NestedAppend([], steps[0]);
    NestedAppend([steps[0]], steps[1]);
    assert [] + [steps[0]] == [steps[0]] && [steps[0]] + [steps[1]] == steps;
    CountIsNested(SplitSubgraph(index));
  }

  /** A shape that places the Split steps, the tails and the finish step. */
  lemma SplitShape(splits: nat, stepCount: int, parallelism: int) returns (shape: Shape)
    requires stepCount >= 3 * splits + 1
    ensures SplitsPlaced(shape, splits, parallelism)
    ensures TailsPlaced(shape, splits, splits, stepCount - 3 * splits - 1)
    ensures shape.place(Finish) == stepCount - 2 * splits - 1
    ensures var tails := stepCount - 3 * splits - 1;
            shape.kind(splits + tails) == FinishStep(OutputsOf(if tails > 0 then Tail(tails) else Split(splits)))
    ensures forall i :: shape.kind(i) == SplitKind(splits, stepCount, parallelism, i)
  {
    shape := Shape((id: Id) => match id
                               case Split(k) => k - 1
                               case Tail(k) => splits + k - 1
                               case Finish => stepCount - 2 * splits - 1
                               case _ => -1,
                   i => SplitKind(splits, stepCount, parallelism, i));
  }

  ghost predicate SplitsPlaced(shape: Shape, splits: nat, parallelism: int) {
    forall k: nat :: 1 <= k <= splits ==> shape.place(Split(k)) == k - 1 && shape.kind(k - 1) == SplitStep(parallelism)
  }

  /** Split steps of the given parallelism, then log steps numbered on, then a finish step that returns the
      outputs of the step before it. */
  function SplitKind(splits: nat, stepCount: int, parallelism: int, i: int): Kind {
    var tails := stepCount - 3 * splits - 1;
    if 0 <= i < splits then SplitStep(parallelism)
    else if 0 <= i < splits + tails then LogStep(i + 1)
    else FinishStep(OutputsOf(if tails > 0 then Tail(tails) else Split(splits)))
  }

  method BuildSplitGraph(stepCount: int, splitParallelism: int) returns (r: Built)
    ensures r.Err? <==> stepCount < 4
    ensures r.Err? ==> r.error == TooFewSteps
    ensures r.Ok? ==> Benchmark(r.graph, stepCount) && IsSplit(r.graph, stepCount, splitParallelism)
  {
    if stepCount < 4 {
      return Err(TooFewSteps);
    }
    var splits := Triples(stepCount);
    var tails := stepCount - splits * 3 - 1;
    ghost var shape := SplitShape(splits, stepCount, splitParallelism);
    var d, last := AddSplitsAndTails(splits, splitParallelism, tails, shape);
    var g := Completed(d, [last], OutputsOf(last), shape, 2 * splits, stepCount);
    r := Ok(g);
  }

  method AddSplitsAndTails(splits: nat, splitParallelism: int, tails: nat, ghost shape: Shape)
    returns (d: Draft, last: Id)
    requires splits >= 1 && SplitsPlaced(shape, splits, splitParallelism) && TailsPlaced(shape, splits, splits, tails)
    ensures |d.steps| == splits + tails && Drafted(d, shape, [last], 2 * splits)
    ensures last == if tails > 0 then Tail(tails) else Split(splits)
  {
    d, last := AddSplits(splits, splitParallelism, shape);
    var pending;
    d, pending := AddTails(d, [last], splits, splits, tails, shape, 2 * splits);
    last := pending[0];
    assert pending == [last];
  }

  method AddSplits(splits: nat, splitParallelism: int, ghost shape: Shape) returns (d: Draft, last: Id)
    requires splits >= 1 && SplitsPlaced(shape, splits, splitParallelism)
    ensures |d.steps| == splits && Drafted(d, shape, [last], 2 * splits)
    ensures last == Split(splits)
  {
    d := Draft([], [], None);
    var previous: Option<Id> := None;
    for index := 1 to splits + 1
      invariant |d.steps| == index - 1 && (index > 1 ==> previous.Some?)
      invariant Drafted(d, shape, Optional(previous), 2 * (index - 1))
      invariant index > 1 ==> previous == Some(Split(index - 1))
    {
      var id := Split(index);
      var step := Step(id, SplitStep(splitParallelism), Some(SplitSubgraph(index)), None);
      SubgraphCount(index);
      DraftGrows(d, shape, Optional(previous), 2 * (index - 1), id, step);
      d := Follow(d, previous, id, step);
      previous := Some(id);
    }
    last := previous.value;
  }

  /** Every supported shape is built whenever there are enough steps; the final count never disagrees. */
  method BuildWorkflow(shape: string, stepCount: int, splitParallelism: int) returns (r: Built)
    ensures r.Ok? <==>
              (shape in {"linear", "payload"} && stepCount >= 2) || (shape in {"branching", "split"} && stepCount >= 4)
    ensures r.Err? ==> r.error != WrongCount
    ensures r.Ok? ==> Benchmark(r.graph, stepCount)
    ensures r.Ok? && shape in {"linear", "payload"} ==> IsLinear(r.graph, stepCount)
    ensures r.Ok? && shape == "branching" ==> IsBranching(r.graph, stepCount)
    ensures r.Ok? && shape == "split" ==> IsSplit(r.graph, stepCount, splitParallelism)
  {
    if shape == "linear" || shape == "payload" {
      r := BuildLinearGraph(stepCount);
    } else if shape == "branching" {
      r := BuildBranchingGraph(stepCount);
    } else if shape == "split" {
      r := BuildSplitGraph(stepCount, splitParallelism);
    } else {
      return Err(UnsupportedShape);
    }
    if r.Err? {
      return;
    }
    var actual := CountStepsOf(r.graph);
    if actual != stepCount {
      return Err(WrongCount);
    }
  }
}
