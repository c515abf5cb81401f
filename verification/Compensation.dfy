/** Saga compensation: triggering an instance's compensatable checkpoints and completing them.

    `CompensationManager` runs each call on its own. Below it, one trigger and any number of
    completing workers run as sequences of separate persistence steps that interleave in any order
    and may each be cut short by a persistence error. Every persistence call is atomic; the pending
    count counts the compensatable checkpoints that are neither completed nor failed. */
module Compensation {
  import opened Common

  /** `Unset` is a checkpoint whose state column is NULL. */
  datatype CompensationState = Unset | NoCompensation | Pending | Triggered | Completed | Failed

  type Id = string

  /** The compensatable checkpoints, highest compensation order first, with their states, and the
      instance-level state. */
  datatype Store = Store(
    order: seq<Id>, states: map<Id, CompensationState>, instance: Option<CompensationState>,
    attempts: seq<(Id, bool)>)

  ghost predicate WellFormed(st: Store) {
    && (forall i, j :: 0 <= i < j < |st.order| ==> st.order[i] != st.order[j])
    && (forall id :: id in st.order <==> id in st.states)
  }

  predicate Done(c: CompensationState) { c.Completed? || c.Failed? }

  function Outstanding(st: Store): set<Id> { set id | id in st.states && !Done(st.states[id]) }

  predicate AllSucceeded(st: Store) { forall id :: id in st.states ==> st.states[id].Completed? }

  function SetState(st: Store, id: Id, c: CompensationState): Store {
    if id in st.states then st.(states := st.states[id := c]) else st
  }

  function OutcomeOf(success: bool): CompensationState { if success then Completed else Failed }

  function Final(st: Store): CompensationState { OutcomeOf(AllSucceeded(st)) }

  // ---------------------------------------------------------------- status

  datatype Status = Status(state: CompensationState, total: nat, completed: nat, failed: nat, checkpoints: seq<Id>)

  function CountState(st: Store, ids: seq<Id>, c: CompensationState): nat
    requires forall id :: id in ids ==> id in st.states
  {
    if ids == [] then 0
    else CountState(st, ids[..|ids| - 1], c) + (if st.states[ids[|ids| - 1]] == c then 1 else 0)
  }

  lemma {:induction false} CountIsZeroIff(st: Store, ids: seq<Id>, c: CompensationState)
    requires forall id :: id in ids ==> id in st.states
    ensures CountState(st, ids, c) == 0 <==> forall id :: id in ids ==> st.states[id] != c
  {
    if ids == [] {
    } else {
      var front, last := ids[..|ids| - 1], ids[|ids| - 1];
      CountIsZeroIff(st, front, c);
      assert ids == front + [last];
      assert forall id :: id in ids <==> id in front || id == last;
    }
  }

  /** How many of the checkpoints have a state. */
  function CountSet(st: Store, ids: seq<Id>): nat
    requires forall id :: id in ids ==> id in st.states
  {
    if ids == [] then 0
    else CountSet(st, ids[..|ids| - 1]) + (if st.states[ids[|ids| - 1]].Unset? then 0 else 1)
  }

  /** The checkpoints in a state, and those that have one. */
  ghost function Those(st: Store, ids: seq<Id>, c: CompensationState): set<Id>
    requires forall id :: id in ids ==> id in st.states
  {
    set id | id in ids && st.states[id] == c
  }

  ghost function ThoseSet(st: Store, ids: seq<Id>): set<Id>
    requires forall id :: id in ids ==> id in st.states
  {
    set id | id in ids && !st.states[id].Unset?
  }

  predicate Different(ids: seq<Id>) { forall i, j :: 0 <= i < j < |ids| ==> ids[i] != ids[j] }

  /** The counters count checkpoints, each once. */
  lemma {:induction false} CountIsSize(st: Store, ids: seq<Id>, c: CompensationState)
    requires (forall id :: id in ids ==> id in st.states) && Different(ids)
    ensures CountState(st, ids, c) == |Those(st, ids, c)|
  {
    if ids == [] {
    } else {
      var front, last := ids[..|ids| - 1], ids[|ids| - 1];
      CountIsSize(st, front, c);
      assert ids == front + [last];
      ThoseGrow(st, front, last, c);
    }
  }

  lemma ThoseGrow(st: Store, ids: seq<Id>, last: Id, c: CompensationState)
    requires (forall id :: id in ids + [last] ==> id in st.states) && Different(ids + [last])
    ensures |Those(st, ids + [last], c)| == |Those(st, ids, c)| + (if st.states[last] == c then 1 else 0)
  {
    NotBefore(ids, last);
    assert last in ids + [last];
    var before, after := Those(st, ids, c), Those(st, ids + [last], c);
    forall id
      ensures id in after <==> id in before || (id == last && st.states[last] == c)
    {
    }
    OneMore(before, after, last, st.states[last] == c);
  }

  lemma ThoseSetGrow(st: Store, ids: seq<Id>, last: Id)
    requires (forall id :: id in ids + [last] ==> id in st.states) && Different(ids + [last])
    ensures |ThoseSet(st, ids + [last])| == |ThoseSet(st, ids)| + (if st.states[last].Unset? then 0 else 1)
  {
    NotBefore(ids, last);
    assert last in ids + [last];
    var before, after := ThoseSet(st, ids), ThoseSet(st, ids + [last]);
    forall id
      ensures id in after <==> id in before || (id == last && !st.states[last].Unset?)
    {
    }
    OneMore(before, after, last, !st.states[last].Unset?);
  }

  lemma OneMore(before: set<Id>, after: set<Id>, last: Id, joins: bool)
    requires last !in before && forall id :: id in after <==> id in before || (id == last && joins)
    ensures |after| == |before| + (if joins then 1 else 0)
  {
    assert after == if joins then before + {last} else before;
  }

  lemma NotBefore(ids: seq<Id>, last: Id)
    requires Different(ids + [last])
    ensures last !in ids
  {
    assert forall i :: 0 <= i < |ids| ==> (ids + [last])[i] == ids[i] && (ids + [last])[i] != (ids + [last])[|ids|];
  }

  lemma {:induction false} CountSetIsSize(st: Store, ids: seq<Id>)
    requires (forall id :: id in ids ==> id in st.states) && Different(ids)
    ensures CountSet(st, ids) == |ThoseSet(st, ids)|
  {
    if ids == [] {
    } else {
      var front, last := ids[..|ids| - 1], ids[|ids| - 1];
      CountSetIsSize(st, front);
      assert ids == front + [last];
      ThoseSetGrow(st, front, last);
    }
  }

  lemma CountsAreSizes(st: Store)
    requires WellFormed(st)
    ensures CountSet(st, st.order) == |ThoseSet(st, st.order)|
    ensures CountState(st, st.order, Completed) == |Those(st, st.order, Completed)|
    ensures CountState(st, st.order, Failed) == |Those(st, st.order, Failed)|
  {
    CountSetIsSize(st, st.order);
    CountIsSize(st, st.order, Completed);
    CountIsSize(st, st.order, Failed);
  }

  lemma {:induction false} CountOfSet(st: Store, ids: seq<Id>)
    requires forall id :: id in ids ==> id in st.states
    ensures CountState(st, ids, Completed) <= CountSet(st, ids)
    ensures CountSet(st, ids) == 0 <==> forall id :: id in ids ==> st.states[id].Unset?
    ensures CountState(st, ids, Completed) == CountSet(st, ids)
            <==> forall id :: id in ids ==> st.states[id].Unset? || st.states[id].Completed?
  {
    if ids == [] {
    } else {
      var front, last := ids[..|ids| - 1], ids[|ids| - 1];
      CountOfSet(st, front);
      assert ids == front + [last];
      assert forall id :: id in ids <==> id in front || id == last;
    }
  }

  /** The store a completing call starts from: every other checkpoint is completed, and this one is about
      to be. */
  predicate OthersCompleted(st: Store, id: Id, success: bool) {
    (forall w :: w in st.states && w != id ==> st.states[w].Completed?) && (id in st.states ==> success)
  }

  /** Whether a call that runs alone returns its documented meaning, decided before the call: the flag
      tells whether nothing is outstanding exactly when every other checkpoint is completed and this one
      succeeds. */
  lemma FlagIsHonestIff(st: Store, id: Id, success: bool)
    ensures var after := SetState(st, id, OutcomeOf(success));
            var flag := Outstanding(after) == {} ==> AllSucceeded(after);
            (flag <==> Outstanding(after) == {}) <==> OthersCompleted(st, id, success)
  {
    var after := SetState(st, id, OutcomeOf(success));
    assert forall w :: w in st.states ==> w in after.states && (w != id ==> after.states[w] == st.states[w]);
    assert id in st.states ==> after.states[id] == OutcomeOf(success);
    assert AllSucceeded(after) <==> OthersCompleted(st, id, success);
  }

  // ---------------------------------------------------------------- one call at a time

  class CompensationManager {
    var store: Store

    constructor(store: Store)
      ensures this.store == store
    {
      this.store := store;
    }

    /** `budget` is how many persistence calls succeed before one fails; `None` is that failure. Every
        compensatable checkpoint is marked and returned, in order; with none, nothing changes. A failure
        leaves a marked prefix. */
    method TriggerCompensation(budget: nat) returns (triggered: Option<seq<Id>>)
      requires WellFormed(store)
      modifies this
      ensures var order := old(store).order;
              && triggered == (if budget >= (if order == [] then 1 else |order| + 2) then Some(order) else None)
              && store.order == order && WellFormed(store) && store.attempts == old(store).attempts
              && (order == [] || budget < 2 ==> store == old(store))
              && (order != [] && budget >= 2 ==>
                    && store.instance == Some(Triggered)
                    && (forall i :: 0 <= i < |order| ==>
                          store.states[order[i]]
                          == if i < budget - 2 then Triggered else old(store).states[order[i]]))
    {
      if budget == 0 {
        return None;
      }
      var checkpoints := store.order;
      if checkpoints == [] {
        return Some([]);
      }
      if budget == 1 {
        return None;
      }
      store := store.(instance := Some(Triggered));
      for i := 0 to |checkpoints|
        invariant i <= budget - 2
        invariant store.order == checkpoints && WellFormed(store)
        invariant store.instance == Some(Triggered) && store.attempts == old(store).attempts
        invariant forall k :: 0 <= k < |checkpoints| ==>
                    store.states[checkpoints[k]] == if k < i then Triggered else old(store).states[checkpoints[k]]
      {
        if budget == i + 2 {
          return None;
        }
        assert checkpoints[i] in store.order;
        store := SetState(store, checkpoints[i], Triggered);
      }
      return Some(checkpoints);
    }

    /** The checkpoint gets its outcome; if that leaves none outstanding the instance gets the overall
        outcome, which is then also the returned flag; otherwise the call returns true. A failure of the
        `budget + 1`st persistence call leaves what the calls before it did. */
    method CompleteCheckpointCompensation(id: Id, success: bool, budget: nat) returns (result: Option<bool>)
      requires WellFormed(store)
      modifies this
      ensures WellFormed(store) && store.order == old(store).order
      ensures store.states
              == if budget < 1 then old(store).states else SetState(old(store), id, OutcomeOf(success)).states
      ensures store.attempts == old(store).attempts + (if budget < 2 then [] else [(id, success)])
      ensures result.None? <==> budget < (if Outstanding(store) == {} then 5 else 3)
      ensures store.instance
              == if Outstanding(store) == {} && budget >= 5 then Some(Final(store)) else old(store).instance
      ensures result.Some? ==> result.value == (Outstanding(store) == {} ==> AllSucceeded(store))
      ensures result.Some? ==>
                ((result.value <==> Outstanding(store) == {}) <==> OthersCompleted(old(store), id, success))
    {
      FlagIsHonestIff(store, id, success);
      if budget < 1 {
        return None;
      }
      store := SetState(store, id, OutcomeOf(success));
      if budget < 2 {
        return None;
      }
      store := store.(attempts := store.attempts + [(id, success)]);
      if budget < 3 {
        return None;
      }
      var remaining := |Outstanding(store)|;
      if remaining == 0 {
        if budget < 4 {
          return None;
        }
        var allSucceeded := AllSucceeded(store);
        if budget < 5 {
          return None;
        }
        store := store.(instance := Some(OutcomeOf(allSucceeded)));
        return Some(allSucceeded);
      }
      return Some(true);
    }

    method GetCompensationStatus() returns (status: Status)
      requires WellFormed(store)
      ensures status.checkpoints == store.order
      ensures status.total == |ThoseSet(store, store.order)|
      ensures status.completed == |Those(store, store.order, Completed)|
      ensures status.failed == |Those(store, store.order, Failed)|
      ensures status.state == OverallState(store)
    {
      var total, triggered, completed, failed := 0, 0, 0, 0;
      for i := 0 to |store.order|
        invariant total == CountSet(store, store.order[..i])
        invariant triggered == CountState(store, store.order[..i], Triggered)
        invariant completed == CountState(store, store.order[..i], Completed)
        invariant failed == CountState(store, store.order[..i], Failed)
      {
        assert store.order[..i + 1][..i] == store.order[..i];
        if !store.states[store.order[i]].Unset? {
          total := total + 1;
          match store.states[store.order[i]] {
            case Triggered => triggered := triggered + 1;
            case Completed => completed := completed + 1;
            case Failed => failed := failed + 1;
            case _ =>
          }
        }
      }
      assert store.order[..|store.order|] == store.order;
      CountsGiveOverallState(store);
      CountsAreSizes(store);
      status := Status(StateOfCounts(total, triggered, completed, failed), total, completed, failed, store.order);
    }
  }

  /** What the reported state means, among the checkpoints that have a state: everything completed,
      else something failed, else something triggered. */
  ghost function OverallState(st: Store): CompensationState {
    if forall id :: id in st.states ==> st.states[id].Unset? then NoCompensation
    else if forall id :: id in st.states ==> st.states[id].Unset? || st.states[id].Completed? then Completed
    else if exists id :: id in st.states && st.states[id].Failed? then Failed
    else if exists id :: id in st.states && st.states[id].Triggered? then Triggered
    else Pending
  }

  function StateOfCounts(total: nat, triggered: nat, completed: nat, failed: nat): CompensationState {
    if total == 0 then NoCompensation
    else if completed == total then Completed
    else if failed > 0 then Failed
    else if triggered > 0 then Triggered
    else Pending
  }

  lemma CountsGiveOverallState(st: Store)
    requires WellFormed(st)
    ensures OverallState(st) == StateOfCounts(CountSet(st, st.order), CountState(st, st.order, Triggered),
                                              CountState(st, st.order, Completed), CountState(st, st.order, Failed))
  {
    CountIsZeroIff(st, st.order, Triggered);
    CountIsZeroIff(st, st.order, Failed);
    CountOfSet(st, st.order);
  }

  // ---------------------------------------------------------------- interleaved workers

  /** Where a worker's call of `complete_checkpoint_compensation` is; `Returned` remembers whether its
      count was zero. */
  datatype Place = Marked | Logged | SawZero | Judged(all: bool) | Returned(value: bool, zero: bool) | Aborted

  datatype Worker = Worker(success: bool, place: Place)

  /** The trigger has not begun, has marked the first `k` checkpoints, or has returned. */
  datatype TriggerPlace = NotYet | Marking(k: nat) | Finished

  datatype State = State(store: Store, trigger: TriggerPlace, workers: map<Id, Worker>)

  datatype Action =
    | TriggerStart
    | TriggerMark
    | TriggerReturn
    | Mark(id: Id, success: bool)
    | Log(id: Id)
    | Count(id: Id)
    | Judge(id: Id)
    | Finish(id: Id)
    | Abort(id: Id)

  predicate At(s: State, id: Id, p: Place) { id in s.workers && s.workers[id].place == p }

  function Move(s: State, id: Id, p: Place): State
    requires id in s.workers
  {
    s.(workers := s.workers[id := s.workers[id].(place := p)])
  }

  function AfterMark(s: State, id: Id, success: bool): State {
    State(SetState(s.store, id, OutcomeOf(success)), s.trigger, s.workers[id := Worker(success, Marked)])
  }

  /** An action that is not possible in a state changes nothing. Each checkpoint has one worker, which
      starts after the trigger returned it. */
  function Step(s: State, a: Action): State {
    match a
    case TriggerStart =>
      if !s.trigger.NotYet? then s
      else if s.store.order == [] then s.(trigger := Finished)
      else s.(store := s.store.(instance := Some(Triggered)), trigger := Marking(0))
    case TriggerMark =>
      if !s.trigger.Marking? || s.trigger.k >= |s.store.order| then s
      else s.(store := SetState(s.store, s.store.order[s.trigger.k], Triggered), trigger := Marking(s.trigger.k + 1))
    case TriggerReturn =>
      if s.trigger.Marking? && s.trigger.k >= |s.store.order| then s.(trigger := Finished) else s
    case Mark(id, success) =>
      if !s.trigger.Finished? || id !in s.store.order || id in s.workers then s
      else AfterMark(s, id, success)
    case Log(id) =>
      if !At(s, id, Marked) then s
      else
        var logged := s.store.(attempts := s.store.attempts + [(id, s.workers[id].success)]);
        Move(s.(store := logged), id, Logged)
    case Count(id) =>
      if !At(s, id, Logged) then s
      else Move(s, id, if |Outstanding(s.store)| == 0 then SawZero else Place.Returned(true, false))
    case Judge(id) =>
      if !At(s, id, SawZero) then s else Move(s, id, Judged(AllSucceeded(s.store)))
    case Finish(id) =>
      if id !in s.workers || !s.workers[id].place.Judged? then s
      else
        var all := s.workers[id].place.all;
        Move(s.(store := s.store.(instance := Some(OutcomeOf(all)))), id, Place.Returned(all, true))
    case Abort(id) =>
      if id !in s.workers || s.workers[id].place.Returned? then s else Move(s, id, Aborted)
  }

  function Run(s: State, actions: seq<Action>): State
    decreases actions
  {
    if actions == [] then s else Run(Step(s, actions[0]), actions[1..])
  }

  ghost predicate Initial(s: State) {
    && WellFormed(s.store) && s.store.instance.None?
    && (forall id :: id in s.store.states ==> !Done(s.store.states[id]))
    && s.trigger.NotYet? && s.workers == map[]
  }

  // ---------------------------------------------------------------- the invariant

  predicate PastZero(p: Place) { p.SawZero? || p.Judged? || (p.Returned? && p.zero) }

  predicate Working(p: Place) { p.Marked? || p.Logged? || p.SawZero? || p.Judged? }

  ghost predicate Finalised(s: State) {
    s.store.instance == Some(Completed) || s.store.instance == Some(Failed)
  }

  /** Checkpoints have the outcome of their worker, and are outstanding until they have one. */
  ghost predicate Outcomes(s: State) {
    && (forall id :: id in s.workers ==> id in s.store.states)
    && (forall id :: id in s.store.states ==>
          if id in s.workers then s.store.states[id] == OutcomeOf(s.workers[id].success)
          else !Done(s.store.states[id]))
    && (!s.trigger.Finished? ==> s.workers == map[])
    && (s.trigger.NotYet? ==> s.store.instance.None?)
    && (s.store.order != [] && !s.trigger.NotYet? ==> s.store.instance.Some?)
    && (forall c :: s.store.instance == Some(c) ==> c.Triggered? || c.Completed? || c.Failed?)
  }

  /** Nobody saw zero too early, and what was judged then is still so. */
  ghost predicate Judgements(s: State) {
    && (forall id :: id in s.workers && PastZero(s.workers[id].place) ==> Outstanding(s.store) == {})
    && (forall id :: id in s.workers && s.workers[id].place.Judged? ==>
          s.workers[id].place.all == AllSucceeded(s.store))
    && (forall id :: id in s.workers && s.workers[id].place.Returned? ==>
          s.workers[id].place.value == if s.workers[id].place.zero then AllSucceeded(s.store) else true)
    && (Finalised(s) ==> Outstanding(s.store) == {} && s.store.instance == Some(Final(s.store)))
  }

  /** The last one out turns off the light: with nothing outstanding, the instance is final, or some
      worker is on its way to making it so, or was cut short. */
  ghost predicate SomeoneFinishes(s: State) {
    Outstanding(s.store) == {} && s.store.order != [] ==>
      || Finalised(s)
      || exists id :: id in s.workers && (Working(s.workers[id].place) || s.workers[id].place.Aborted?)
  }

  /** The instance became final through a worker that saw zero and finished. */
  ghost predicate FinalisedByWorker(s: State) {
    Finalised(s) <==> exists id :: id in s.workers && s.workers[id].place.Returned? && s.workers[id].place.zero
  }

  ghost predicate Inv(s: State) {
    WellFormed(s.store) && Outcomes(s) && Judgements(s) && SomeoneFinishes(s) && FinalisedByWorker(s)
  }

  /** A worker step after the mark: it moves on, perhaps setting the instance or logging. */
  function Moved(s: State, id: Id, p: Place, instance: Option<CompensationState>, attempts: seq<(Id, bool)>): State
    requires id in s.workers
  {
    Move(s.(store := s.store.(instance := instance, attempts := attempts)), id, p)
  }

  ghost predicate GoodMove(s: State, id: Id, p: Place, instance: Option<CompensationState>) {
    && id in s.workers && !s.workers[id].place.Returned?
    && (if p.Returned? && p.zero then instance == Some(Final(s.store)) && p.value == AllSucceeded(s.store)
        else instance == s.store.instance)
    && (p.Returned? && !p.zero ==> p.value && Outstanding(s.store) != {})
    && (PastZero(p) ==> Outstanding(s.store) == {})
    && (p.Judged? ==> p.all == AllSucceeded(s.store))
  }

  lemma MoveKeepsOutcomes(s: State, id: Id, p: Place, instance: Option<CompensationState>, attempts: seq<(Id, bool)>)
    requires Inv(s) && GoodMove(s, id, p, instance)
    ensures var s' := Moved(s, id, p, instance, attempts);
            WellFormed(s'.store) && Outcomes(s')
  {
  }

  lemma MoveKeepsJudgements(s: State, id: Id, p: Place, instance: Option<CompensationState>, attempts: seq<(Id, bool)>)
    requires Inv(s) && GoodMove(s, id, p, instance)
    ensures Judgements(Moved(s, id, p, instance, attempts))
  {
    var s' := Moved(s, id, p, instance, attempts);
    assert s'.store.states == s.store.states && s'.store.order == s.store.order;
    assert Outstanding(s'.store) == Outstanding(s.store);
    assert AllSucceeded(s'.store) == AllSucceeded(s.store);
  }

  lemma MoveKeepsFinish(s: State, id: Id, p: Place, instance: Option<CompensationState>, attempts: seq<(Id, bool)>)
    requires Inv(s) && GoodMove(s, id, p, instance)
    ensures var s' := Moved(s, id, p, instance, attempts);
            SomeoneFinishes(s') && FinalisedByWorker(s')
  {
    var s' := Moved(s, id, p, instance, attempts);
    assert Outstanding(s'.store) == Outstanding(s.store);
    assert s'.workers[id].place == p;
    if Finalised(s) {
      var w :| w in s.workers && s.workers[w].place.Returned? && s.workers[w].place.zero;
      assert s'.workers[w] == s.workers[w];
    }
    if Finalised(s') && !Finalised(s) {
      assert s'.workers[id].place.Returned? && s'.workers[id].place.zero;
    }
    if Outstanding(s.store) == {} && !Finalised(s') {
      assert Working(s'.workers[id].place) || s'.workers[id].place.Aborted?;
    }
  }

  lemma MoveKeepsInv(s: State, id: Id, p: Place, instance: Option<CompensationState>, attempts: seq<(Id, bool)>)
    requires Inv(s) && GoodMove(s, id, p, instance)
    ensures Inv(Moved(s, id, p, instance, attempts))
  {
    MoveKeepsOutcomes(s, id, p, instance, attempts);
    MoveKeepsJudgements(s, id, p, instance, attempts);
    MoveKeepsFinish(s, id, p, instance, attempts);
  }

  ghost predicate MayMark(s: State, id: Id) {
    s.trigger.Finished? && id in s.store.order && id !in s.workers
  }

  lemma MarkKeepsOutcomes(s: State, id: Id, success: bool)
    requires Inv(s) && MayMark(s, id)
    ensures WellFormed(AfterMark(s, id, success).store) && Outcomes(AfterMark(s, id, success))
  {
  }

  lemma MarkKeepsJudgements(s: State, id: Id, success: bool)
    requires Inv(s) && MayMark(s, id)
    ensures Judgements(AfterMark(s, id, success)) && FinalisedByWorker(AfterMark(s, id, success))
  {
    var s' := AfterMark(s, id, success);
    assert id in Outstanding(s.store);
    assert !Finalised(s') && s'.workers[id].place == Marked;
    assert forall w :: w in s'.workers ==> w == id || s'.workers[w] == s.workers[w];
  }

  lemma MarkKeepsInv(s: State, id: Id, success: bool)
    requires Inv(s) && MayMark(s, id)
    ensures Inv(AfterMark(s, id, success))
  {
    MarkKeepsOutcomes(s, id, success);
    MarkKeepsJudgements(s, id, success);
    assert Working(AfterMark(s, id, success).workers[id].place);
  }

  lemma TriggerKeepsInv(s: State, a: Action)
    requires Inv(s) && (a.TriggerStart? || a.TriggerMark? || a.TriggerReturn?)
    ensures Inv(Step(s, a))
  {
    var s' := Step(s, a);
    if s' != s {
      assert s.workers == map[] && !Finalised(s);
      if a.TriggerMark? {
        assert s.store.order[s.trigger.k] in s.store.order;
      }
      if s.store.order != [] {
        assert s.store.order[0] in s.store.order;
        assert s.store.order[0] in Outstanding(s'.store);
      } else {
        assert s.store.states == map[];
      }
    }
  }

  lemma StepKeepsInv(s: State, a: Action)
    requires Inv(s)
    ensures Inv(Step(s, a))
  {
    if Step(s, a) != s {
      match a
      case TriggerStart => TriggerKeepsInv(s, a);
      case TriggerMark => TriggerKeepsInv(s, a);
      case TriggerReturn => TriggerKeepsInv(s, a);
      case Mark(id, success) => MarkKeepsInv(s, id, success);
      case Log(id) =>
        MoveKeepsInv(s, id, Logged, s.store.instance, s.store.attempts + [(id, s.workers[id].success)]);
      case Count(id) =>
        MoveKeepsInv(s, id, if |Outstanding(s.store)| == 0 then SawZero else Place.Returned(true, false),
                     s.store.instance, s.store.attempts);
      case Judge(id) => MoveKeepsInv(s, id, Judged(AllSucceeded(s.store)), s.store.instance, s.store.attempts);
      case Finish(id) =>
        MoveKeepsInv(s, id, Place.Returned(s.workers[id].place.all, true), Some(Final(s.store)), s.store.attempts);
      case Abort(id) => MoveKeepsInv(s, id, Aborted, s.store.instance, s.store.attempts);
    }
  }

  lemma {:induction false} InvHolds(s: State, actions: seq<Action>)
    requires Inv(s)
    ensures Inv(Run(s, actions))
    decreases actions
  {
    if actions == [] {
    } else {
      StepKeepsInv(s, actions[0]);
      InvHolds(Step(s, actions[0]), actions[1..]);
    }
  }

  lemma InitialIsOk(s: State)
    requires Initial(s)
    ensures Inv(s)
  {
    if s.store.order != [] {
      assert s.store.order[0] in s.store.order;
      assert s.store.order[0] in Outstanding(s.store);
    } else {
      assert s.store.states == map[];
    }
  }

  // ---------------------------------------------------------------- theorems

  /** In every interleaving, with or without persistence errors, the instance is completed or failed
      only when no checkpoint is outstanding, and then with the right verdict; the status report
      agrees with it. */
  lemma NeverFinalTooEarly(s0: State, actions: seq<Action>)
    requires Initial(s0)
    ensures var s := Run(s0, actions);
            Finalised(s) ==>
              && Outstanding(s.store) == {}
              && s.store.instance == Some(Final(s.store))
              && (s.store.order != [] ==> OverallState(s.store) == s.store.instance.value)
  {
    InitialIsOk(s0);
    InvHolds(s0, actions);
    var s := Run(s0, actions);
    if Finalised(s) && s.store.order != [] {
      assert s.store.order[0] in s.store.states;
      if !AllSucceeded(s.store) {
        var id :| id in s.store.states && !s.store.states[id].Completed?;
        assert id !in Outstanding(s.store);
      }
    }
  }

  ghost predicate AllReturned(s: State) {
    forall id :: id in s.store.order ==> id in s.workers && s.workers[id].place.Returned?
  }

  /** Once every worker has returned, the instance is completed exactly when every compensation
      succeeded, and failed otherwise. */
  lemma FinalWhenAllReturned(s0: State, actions: seq<Action>)
    requires Initial(s0)
    ensures var s := Run(s0, actions);
            AllReturned(s) && s.store.order != [] ==>
              s.store.instance == Some(OutcomeOf(forall id :: id in s.workers ==> s.workers[id].success))
  {
    InitialIsOk(s0);
    InvHolds(s0, actions);
    var s := Run(s0, actions);
    if AllReturned(s) && s.store.order != [] {
      forall id | id in s.store.states
        ensures id in s.workers && s.workers[id].place.Returned?
      {
        assert id in s.store.order;
      }
      assert Outstanding(s.store) == {};
      assert AllSucceeded(s.store) <==> forall id :: id in s.workers ==> s.workers[id].success;
    }
  }

  /** A call's returned flag is false exactly when it found nothing outstanding and something failed.
      The documented meaning, "all compensations are now done", is what the call returns exactly when
      nothing was outstanding and everything succeeded. */
  lemma ReturnedFlag(s0: State, actions: seq<Action>, id: Id)
    requires Initial(s0)
    ensures var s := Run(s0, actions);
            id in s.workers && s.workers[id].place.Returned? ==>
              var Returned(value, zero) := s.workers[id].place;
              && (!value <==> zero && exists w :: w in s.workers && !s.workers[w].success)
              && ((value <==> zero) <==> zero && AllSucceeded(s.store))
  {
    InitialIsOk(s0);
    InvHolds(s0, actions);
    var s := Run(s0, actions);
    if id in s.workers && s.workers[id].place.Returned? && s.workers[id].place.zero {
      if !AllSucceeded(s.store) {
        var w :| w in s.store.states && !s.store.states[w].Completed?;
        assert w !in Outstanding(s.store);
        assert w in s.workers && !s.workers[w].success;
      }
    }
  }

  /** Every worker that got past its log call is in the log with its outcome. */
  predicate Recorded(s: State) {
    forall id :: id in s.workers && !s.workers[id].place.Marked? && !s.workers[id].place.Aborted? ==>
      (id, s.workers[id].success) in s.store.attempts
  }

  /** In every run, the log keeps what it had and records every attempt that was counted. */
  lemma {:induction false} AttemptsAreRecorded(s: State, actions: seq<Action>)
    requires Recorded(s)
    ensures Recorded(Run(s, actions)) && s.store.attempts <= Run(s, actions).store.attempts
    decreases actions
  {
    if actions == [] {
    } else {
      RecordedStep(s, actions[0]);
      AttemptsAreRecorded(Step(s, actions[0]), actions[1..]);
    }
  }

  lemma RecordedStep(s: State, a: Action)
    requires Recorded(s)
    ensures Recorded(Step(s, a)) && s.store.attempts <= Step(s, a).store.attempts
  {
    var s' := Step(s, a);
    assert s.store.attempts <= s'.store.attempts;
    assert forall x :: x in s.store.attempts ==> x in s'.store.attempts;
  }

  // ---------------------------------------------------------------- which errors leave it triggered

  /** Only workers of these checkpoints may be cut short by a persistence error. */
  ghost predicate CutOnly(actions: seq<Action>, mayFail: set<Id>) {
    forall a :: a in actions && a.Abort? ==> a.id in mayFail
  }

  ghost predicate AllStopped(s: State) {
    forall id :: id in s.store.order ==>
      id in s.workers && (s.workers[id].place.Returned? || s.workers[id].place.Aborted?)
  }

  /** Every run in which no other worker fails, and in which every worker has stopped, ends final. */
  ghost predicate EndsFinal(s0: State, mayFail: set<Id>) {
    forall actions :: CutOnly(actions, mayFail) && AllStopped(Run(s0, actions)) ==> Finalised(Run(s0, actions))
  }

  /** The instance is sure to end completed or failed exactly when no worker of a triggered checkpoint
      can be cut short: a single one that can be, in any store, is enough to leave it triggered. */
  lemma FinalIffNoneCutShort(s0: State, mayFail: set<Id>)
    requires Initial(s0) && s0.store.order != []
    ensures EndsFinal(s0, mayFail) <==> forall id :: id in s0.store.order ==> id !in mayFail
  {
    if id :| id in s0.store.order && id in mayFail {
      var actions := LeftTriggered(s0, id);
      assert !Finalised(Run(s0, actions));
    } else {
      forall actions | CutOnly(actions, mayFail) && AllStopped(Run(s0, actions))
        ensures Finalised(Run(s0, actions))
      {
        CutShortMayFail(s0, actions, mayFail);
        FinalWhenAllReturned(s0, actions);
      }
    }
  }

  lemma {:induction false} CutShortMayFail(s: State, actions: seq<Action>, mayFail: set<Id>)
    requires CutOnly(actions, mayFail)
    requires forall id :: id in s.workers && s.workers[id].place.Aborted? ==> id in mayFail
    ensures var s' := Run(s, actions);
            && s'.store.order == s.store.order
            && (forall id :: id in s'.workers && s'.workers[id].place.Aborted? ==> id in mayFail)
    decreases actions
  {
    if actions == [] {
    } else {
      assert actions[0] in actions;
      assert forall a :: a in actions[1..] ==> a in actions;
      CutShortMayFail(Step(s, actions[0]), actions[1..], mayFail);
    }
  }

  lemma {:induction false} RunConcat(s: State, a: seq<Action>, b: seq<Action>)
    ensures Run(s, a + b) == Run(Run(s, a), b)
    decreases a
  {
    if a == [] {
      assert a + b == b;
    } else {
      assert (a + b)[1..] == a[1..] + b;
      RunConcat(Step(s, a[0]), a[1..], b);
    }
  }

  lemma RunCons(s: State, a: Action, rest: seq<Action>)
    ensures Run(s, [a] + rest) == Run(Step(s, a), rest)
  {
    assert ([a] + rest)[1..] == rest;
  }

  /** Nothing is cut short, and the checkpoints stay the same. */
  ghost predicate Calm(s: State, actions: seq<Action>) {
    (forall a :: a in actions ==> !a.Abort?) && Run(s, actions).store.order == s.store.order
  }

  /** The trigger marks what it has left and returns. */
  lemma {:induction false} TriggerEnds(s: State, k: nat) returns (actions: seq<Action>)
    requires s.trigger == Marking(k) && k <= |s.store.order|
    ensures Calm(s, actions)
    ensures Run(s, actions).trigger.Finished? && Run(s, actions).workers == s.workers
    decreases |s.store.order| - k
  {
    if k == |s.store.order| {
      actions := [TriggerReturn];
      RunCons(s, TriggerReturn, []);
    } else {
      var rest := TriggerEnds(Step(s, TriggerMark), k + 1);
      actions := [TriggerMark] + rest;
      RunCons(s, TriggerMark, rest);
    }
  }

  /** Everyone who started has returned without seeing zero, and `id` has not started. */
  ghost predicate WaitingFor(s: State, id: Id) {
    && s.trigger.Finished? && id in s.store.order && id !in s.workers
    && id in s.store.states && !Done(s.store.states[id])
    && (forall w :: w in s.workers ==> s.workers[w].place == Place.Returned(true, false))
  }

  /** While `id` is outstanding another worker marks, logs, counts and returns. */
  lemma OneMoreReturns(s: State, id: Id, w: Id) returns (actions: seq<Action>)
    requires WaitingFor(s, id) && w in s.store.order && w != id && w !in s.workers
    ensures Calm(s, actions)
    ensures WaitingFor(Run(s, actions), id) && Run(s, actions).workers.Keys == s.workers.Keys + {w}
  {
    actions := [Mark(w, true), Log(w), Count(w)];
    var s1 := Step(s, Mark(w, true));
    var s2 := Step(s1, Log(w));
    RunCons(s2, Count(w), []);
    RunCons(s1, Log(w), [Count(w)]);
    RunCons(s, Mark(w, true), [Log(w), Count(w)]);
    assert id in Outstanding(s2.store);
    assert s2.workers == s.workers[w := Worker(true, Logged)];
    assert Step(s2, Count(w)).workers == s.workers[w := Worker(true, Place.Returned(true, false))];
  }

  lemma {:induction false} OthersReturn(s: State, id: Id, k: nat) returns (actions: seq<Action>)
    requires WaitingFor(s, id) && k <= |s.store.order|
    ensures Calm(s, actions)
    ensures WaitingFor(Run(s, actions), id) && s.workers.Keys <= Run(s, actions).workers.Keys
    ensures forall i :: k <= i < |s.store.order| && s.store.order[i] != id ==>
              s.store.order[i] in Run(s, actions).workers
    decreases |s.store.order| - k
  {
    if k == |s.store.order| {
      actions := [];
    } else {
      var w := s.store.order[k];
      var first := [];
      if w != id && w !in s.workers {
        first := OneMoreReturns(s, id, w);
      }
      var rest := OthersReturn(Run(s, first), id, k + 1);
      actions := first + rest;
      RunConcat(s, first, rest);
    }
  }

  /** In every store, all workers but one can return while that one has not started. */
  lemma OthersReturnFirst(s0: State, id: Id) returns (actions: seq<Action>)
    requires Initial(s0) && id in s0.store.order
    ensures Calm(s0, actions)
    ensures var s := Run(s0, actions);
            Inv(s) && WaitingFor(s, id) && forall w :: w in s.store.order && w != id ==> w in s.workers
  {
    InitialIsOk(s0);
    var trigger := TriggerEnds(Step(s0, TriggerStart), 0);
    var begin := [TriggerStart] + trigger;
    RunCons(s0, TriggerStart, trigger);
    InvHolds(s0, begin);
    var s2 := Run(s0, begin);
    assert WaitingFor(s2, id);
    var others := OthersReturn(s2, id, 0);
    actions := begin + others;
    RunConcat(s0, begin, others);
    InvHolds(s0, actions);
  }

  /** In every store, a failed compensation that comes last finds all compensations done, and its call
      returns false. */
  lemma DoneButFalse(s0: State, id: Id) returns (actions: seq<Action>)
    requires Initial(s0) && id in s0.store.order
    ensures Calm(s0, actions)
    ensures var s := Run(s0, actions); Outstanding(s.store) == {} && At(s, id, Place.Returned(false, true))
  {
    var begin := OthersReturnFirst(s0, id);
    var s := Run(s0, begin);
    var mark, judge := [Mark(id, false), Log(id)], [Count(id), Judge(id), Finish(id)];
    OthersAreDone(s, id);
    FailsLast(s, id, mark);
    JudgesFailure(Run(s, mark), id, judge);
    RunConcat(s, mark, judge);
    actions := begin + (mark + judge);
    RunConcat(s0, begin, mark + judge);
  }

  lemma OthersAreDone(s: State, id: Id)
    requires Inv(s) && forall w :: w in s.store.order && w != id ==> w in s.workers
    ensures forall w :: w in s.store.states && w != id ==> Done(s.store.states[w])
  {
    assert forall w :: w in s.store.states ==> w in s.store.order;
  }

  lemma FailsLast(s: State, id: Id, mark: seq<Action>)
    requires WaitingFor(s, id) && forall w :: w in s.store.states && w != id ==> Done(s.store.states[w])
    requires mark == [Mark(id, false), Log(id)]
    ensures var s' := Run(s, mark);
            && At(s', id, Logged) && Outstanding(s'.store) == {} && !AllSucceeded(s'.store)
            && s'.store.order == s.store.order
  {
    var s1 := Step(s, mark[0]);
    RunCons(s, mark[0], [mark[1]]);
    RunCons(s1, mark[1], []);
    assert s1.store.states == s.store.states[id := Failed];
    assert At(s1, id, Marked);
    assert id in Run(s, mark).store.states && Run(s, mark).store.states[id] == Failed;
  }

  lemma JudgesFailure(s: State, id: Id, judge: seq<Action>)
    requires At(s, id, Logged) && Outstanding(s.store) == {} && !AllSucceeded(s.store)
    requires judge == [Count(id), Judge(id), Finish(id)]
    ensures var s' := Run(s, judge);
            Outstanding(s'.store) == {} && At(s', id, Place.Returned(false, true)) && s'.store.order == s.store.order
  {
    var s1 := Step(s, judge[0]);
    var s2 := Step(s1, judge[1]);
    RunCons(s, judge[0], [judge[1], judge[2]]);
    RunCons(s1, judge[1], [judge[2]]);
    RunCons(s2, judge[2], []);
    assert s2.workers[id].place == Judged(false);
  }

  /** For every store and every worker of it: the others return while it is outstanding, and it is cut
      short right after its mark. Nothing is outstanding, nobody is left to say so, and so it stays. */
  lemma LeftTriggered(s0: State, id: Id) returns (actions: seq<Action>)
    requires Initial(s0) && id in s0.store.order
    ensures CutOnly(actions, {id})
    ensures var s := Run(s0, actions);
            AllStopped(s) && Outstanding(s.store) == {} && s.store.instance == Some(Triggered)
    ensures forall more :: Run(Run(s0, actions), more).store == Run(s0, actions).store
  {
    var begin := OthersReturnFirst(s0, id);
    var last := [Mark(id, true), Abort(id)];
    actions := begin + last;
    RunConcat(s0, begin, last);
    LastIsCutShort(Run(s0, begin), id);
    InitialIsOk(s0);
    InvHolds(s0, actions);
    StoppedIsTriggered(Run(s0, actions));
    forall more
      ensures Run(Run(s0, actions), more).store == Run(s0, actions).store
    {
      StoppedForGood(Run(s0, actions), more);
    }
  }

  /** All have stopped, and none of them saw zero. */
  ghost predicate StoppedBlind(s: State) {
    && s.trigger.Finished? && s.store.order != []
    && (forall w :: w in s.store.order ==>
          w in s.workers && (s.workers[w].place == Place.Returned(true, false) || s.workers[w].place.Aborted?))
  }

  lemma LastIsCutShort(s: State, id: Id)
    requires WaitingFor(s, id) && forall w :: w in s.store.order && w != id ==> w in s.workers
    ensures StoppedBlind(Run(s, [Mark(id, true), Abort(id)]))
  {
    var s1 := Step(s, Mark(id, true));
    RunCons(s, Mark(id, true), [Abort(id)]);
    RunCons(s1, Abort(id), []);
    assert Step(s1, Abort(id)).workers == s.workers[id := Worker(true, Aborted)];
  }

  /** When all have stopped nothing is written any more. */
  lemma {:induction false} StoppedForGood(s: State, more: seq<Action>)
    requires Inv(s) && StoppedBlind(s)
    ensures Run(s, more).store == s.store
    decreases more
  {
    if more == [] {
    } else {
      StoppedStep(s, more[0]);
      StepKeepsInv(s, more[0]);
      StoppedForGood(Step(s, more[0]), more[1..]);
    }
  }

  lemma StoppedStep(s: State, a: Action)
    requires Inv(s) && StoppedBlind(s)
    ensures StoppedBlind(Step(s, a)) && Step(s, a).store == s.store
  {
    assert forall w :: w in s.workers ==> w in s.store.order;
  }

  lemma StoppedIsTriggered(s: State)
    requires Inv(s) && StoppedBlind(s)
    ensures AllStopped(s) && Outstanding(s.store) == {} && s.store.instance == Some(Triggered)
  {
    assert s.store.order[0] in s.store.order;
    forall id | id in s.store.states
      ensures Done(s.store.states[id]) && id in s.workers && !PastZero(s.workers[id].place)
    {
      assert id in s.store.order;
    }
    assert !Finalised(s);
  }
}
