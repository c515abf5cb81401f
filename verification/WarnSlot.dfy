/** `claim_warn_slot`: a lock-free throttle in which any number of threads load an atomic
    timestamp and then try to swap it for their own clock reading.

    The load and the compare-and-swap are two separate atomic steps; a run is any sequence
    of such steps by any threads with any clock readings. The load is relaxed: it may see any
    value the cell has held so far. The swap compares with the newest. */
module WarnSlot {
  const MIN_I64: int := -0x8000_0000_0000_0000
  const MAX_I64: int := 0x7fff_ffff_ffff_ffff

  type I64 = x: int | MIN_I64 <= x <= MAX_I64 witness 0

  function SaturatingSub(a: I64, b: I64): I64 {
    if a - b < MIN_I64 then MIN_I64 else if a - b > MAX_I64 then MAX_I64 else a - b
  }

  /** A call that has done its load: the value it saw, its clock reading, and which of the
      cell's successive values that was. */
  datatype Pending = Pending(last: I64, now: I64, seen: nat)

  /** Every value the atomic cell has held, oldest first, and the calls in flight by thread.
      All but the first value are readings of winning calls. */
  datatype State = State(cells: seq<I64>, calls: map<nat, Pending>)

  datatype Action = Load(thread: nat, now: I64, seen: nat) | Swap(thread: nat)

  predicate Elapsed(p: Pending, interval: I64) { SaturatingSub(p.now, p.last) >= interval }

  predicate Wins(s: State, p: Pending, interval: I64)
    requires s.cells != []
  {
    Elapsed(p, interval) && s.cells[|s.cells| - 1] == p.last
  }

  /** An action that a thread is not ready for changes nothing. */
  function Step(s: State, interval: I64, a: Action): (s': State)
    requires s.cells != []
    ensures s'.cells != []
  {
    match a
    case Load(t, now, seen) =>
      if t in s.calls || seen >= |s.cells| then s
      else s.(calls := s.calls[t := Pending(s.cells[seen], now, seen)])
    case Swap(t) =>
      if t !in s.calls then s
      else
        var p := s.calls[t];
        State(if Wins(s, p, interval) then s.cells + [p.now] else s.cells, s.calls - {t})
  }

  function Run(initial: I64, interval: I64, actions: seq<Action>): (s: State)
    ensures s.cells != []
  {
    if actions == [] then State([initial], map[])
    else Step(Run(initial, interval, actions[..|actions| - 1]), interval, actions[|actions| - 1])
  }

  /** Each value passes the interval test against the one before it. */
  ghost predicate Elapsing(cells: seq<I64>, interval: I64) {
    forall i, j :: 0 <= i < j == i + 1 < |cells| ==> SaturatingSub(cells[j], cells[i]) >= interval
  }

  lemma ElapsingGrows(cells: seq<I64>, interval: I64, now: I64)
    requires cells != [] && Elapsing(cells, interval) && SaturatingSub(now, cells[|cells| - 1]) >= interval
    ensures Elapsing(cells + [now], interval)
  {
  }

  ghost predicate Inv(s: State, interval: I64) {
    && s.cells != []
    && Elapsing(s.cells, interval)
    && (forall t :: t in s.calls ==>
          s.calls[t].seen < |s.cells| && s.calls[t].last == s.cells[s.calls[t].seen])
  }

  lemma StepKeepsInv(s: State, interval: I64, a: Action)
    requires Inv(s, interval)
    ensures Inv(Step(s, interval, a), interval)
  {
    if a.Swap? {
      SwapKeepsInv(s, interval, a.thread);
    }
  }

  lemma SwapKeepsInv(s: State, interval: I64, t: nat)
    requires Inv(s, interval)
    ensures Inv(Step(s, interval, Swap(t)), interval)
  {
    if t in s.calls && Wins(s, s.calls[t], interval) {
      ElapsingGrows(s.cells, interval, s.calls[t].now);
    }
  }

  lemma {:induction false} InvHolds(initial: I64, interval: I64, actions: seq<Action>)
    ensures Inv(Run(initial, interval, actions), interval)
  {
    if actions == [] {
    } else {
      InvHolds(initial, interval, actions[..|actions| - 1]);
      StepKeepsInv(Run(initial, interval, actions[..|actions| - 1]), interval, actions[|actions| - 1]);
    }
  }

  /** The saturating comparison is the exact one for every pair of readings, except for the
      single interval `i64::MIN`, which saturation always satisfies. */
  lemma SaturationIsExactIff(interval: I64)
    ensures (forall a: I64, b: I64 :: SaturatingSub(a, b) >= interval <==> a - b >= interval)
            <==> interval > MIN_I64
  {
    if interval == MIN_I64 {
      var lo: I64, hi: I64 := MIN_I64, MAX_I64;
      assert SaturatingSub(lo, hi) >= interval && !(lo - hi >= interval);
    }
  }

  ghost predicate Spaced(ws: seq<I64>, interval: int) {
    forall i, j :: 0 <= i < j == i + 1 < |ws| ==> ws[j] - ws[i] >= interval
  }

  /** In every interleaving, successive values of the cell, and so successive winning
      readings, are at least `interval` apart. */
  lemma {:induction false} WinnersAreSpaced(initial: I64, interval: I64, actions: seq<Action>)
    requires interval > MIN_I64
    ensures Spaced(Run(initial, interval, actions).cells, interval)
  {
    InvHolds(initial, interval, actions);
    SaturationIsExactIff(interval);
  }

  // ---------------------------------------------------------------- how many calls can win

  function CountIn(ws: seq<I64>, lo: int, hi: int): nat {
    if ws == [] then 0 else (if lo <= ws[0] <= hi then 1 else 0) + CountIn(ws[1..], lo, hi)
  }

  lemma {:induction false} SpacedIsAbove(ws: seq<I64>, interval: int, i: nat, k: nat)
    requires interval > 0 && Spaced(ws, interval) && i < k < |ws|
    ensures ws[k] >= ws[i] + interval
    decreases k
  {
    assert ws[k] - ws[k - 1] >= interval;
    if i == k - 1 {
    } else {
      SpacedIsAbove(ws, interval, i, k - 1);
    }
  }

  lemma TailIsSpaced(ws: seq<I64>, interval: int)
    requires Spaced(ws, interval) && ws != []
    ensures Spaced(ws[1..], interval)
  {
  }

  lemma {:induction false} CountFromHigher(ws: seq<I64>, lo: int, lo': int, hi: int)
    requires lo <= lo' && forall k :: 0 <= k < |ws| ==> ws[k] >= lo'
    ensures CountIn(ws, lo, hi) == CountIn(ws, lo', hi)
  {
    if ws == [] {
    } else {
      assert ws[0] >= lo';
      CountFromHigher(ws[1..], lo, lo', hi);
    }
  }

  lemma MultiplyIsMonotone(d: int, a: int, b: int)
    ensures d > 0 && a < b ==> d * a + d <= d * b
  {
    if d > 0 && a < b {
      assert d * (b - a - 1) >= 0;
      assert d * (b - a - 1) == d * b - d * a - d;
    }
  }

  lemma DivideIsMonotone(y: int, x: int, d: int)
    requires d > 0 && y <= x
    ensures y / d <= x / d
  {
    MultiplyIsMonotone(d, x / d, y / d);
  }

  lemma DivideLess(x: int, d: int)
    requires d > 0
    ensures (x - d) / d == x / d - 1
  {
    MultiplyIsMonotone(d, (x - d) / d + 1, x / d);
    MultiplyIsMonotone(d, x / d, (x - d) / d + 1);
  }

  lemma {:induction false} SpacedCount(ws: seq<I64>, interval: int, lo: int, hi: int)
    requires interval > 0 && Spaced(ws, interval)
    ensures CountIn(ws, lo, hi) <= if lo <= hi then (hi - lo) / interval + 1 else 0
  {
    if lo <= hi {
      DivideIsMonotone(0, hi - lo, interval);
    }
    if ws == [] {
    } else {
      TailIsSpaced(ws, interval);
      if lo <= ws[0] <= hi {
        var next := ws[0] + interval;
        forall k | 0 <= k < |ws[1..]| ensures ws[1..][k] >= next {
          SpacedIsAbove(ws, interval, 0, k + 1);
        }
        CountFromHigher(ws[1..], lo, next, hi);
        SpacedCount(ws[1..], interval, next, hi);
        DivideLess(hi - ws[0], interval);
        DivideIsMonotone(hi - ws[0], hi - lo, interval);
        assert hi - next == hi - ws[0] - interval;
      } else {
        SpacedCount(ws[1..], interval, lo, hi);
      }
    }
  }

  /** A range of readings of width `width` holds at most width/interval + 1 winners. */
  lemma WinnersPerRange(initial: I64, interval: I64, actions: seq<Action>, lo: int, width: nat)
    requires interval > 0
    ensures CountIn(Run(initial, interval, actions).cells[1..], lo, lo + width) <= width / interval + 1
  {
    var cells := Run(initial, interval, actions).cells;
    WinnersAreSpaced(initial, interval, actions);
    TailIsSpaced(cells, interval);
    SpacedCount(cells[1..], interval, lo, lo + width);
  }

  // ---------------------------------------------------------------- who wins a race

  /** With a positive interval a call wins exactly when the interval has elapsed since the
      value it saw and no call has won since that value: a lost race always means that somebody
      else warned, and the cell never returns to an old value. */
  lemma RaceHasOneWinner(initial: I64, interval: I64, actions: seq<Action>, t: nat)
    requires interval > 0
    requires t in Run(initial, interval, actions).calls
    ensures var s := Run(initial, interval, actions);
            var p := s.calls[t];
            Wins(s, p, interval) <==> Elapsed(p, interval) && p.seen == |s.cells| - 1
  {
    InvHolds(initial, interval, actions);
    WinnersAreSpaced(initial, interval, actions);
    ValueSeenOnce(Run(initial, interval, actions).cells, interval, Run(initial, interval, actions).calls[t].seen);
  }

  /** The newest value was never held before. */
  lemma ValueSeenOnce(ws: seq<I64>, interval: int, i: nat)
    requires interval > 0 && Spaced(ws, interval) && i < |ws|
    ensures ws[|ws| - 1] == ws[i] <==> i == |ws| - 1
  {
    if i < |ws| - 1 {
      SpacedIsAbove(ws, interval, i, |ws| - 1);
    }
  }

  /** In every reachable state a swap appends its reading exactly when the interval has passed since the
      value it saw and that value is still the newest; otherwise the cell stays. */
  lemma SwapWinsIff(initial: I64, interval: I64, actions: seq<Action>, t: nat)
    requires interval > 0 && t in Run(initial, interval, actions).calls
    ensures var s := Run(initial, interval, actions);
            var p := s.calls[t];
            Step(s, interval, Swap(t))
            == State(if p.now - p.last >= interval && p.seen == |s.cells| - 1 then s.cells + [p.now] else s.cells,
                     s.calls - {t})
  {
    RaceHasOneWinner(initial, interval, actions, t);
    SaturationIsExactIff(interval);
  }

  /** A call on its own wins exactly when the interval has passed. */
  lemma LoneCall(initial: I64, interval: I64, t: nat, now: I64)
    requires interval > MIN_I64
    ensures Run(initial, interval, [Load(t, now, 0), Swap(t)]).cells
            == if now - initial >= interval then [initial, now] else [initial]
  {
    var load, swap := Load(t, now, 0), Swap(t);
    SaturationIsExactIff(interval);
    assert [load, swap][..1] == [load] && [load][..0] == [];
    assert Run(initial, interval, []) == State([initial], map[]);
    assert Run(initial, interval, [load]) == Step(State([initial], map[]), interval, load);
    assert [initial] + [now] == [initial, now];
  }

  /** After every run, a call that sees the newest value and meets no other wins exactly when the interval
      has passed since that value: nobody is shut out. */
  lemma NextCallWins(initial: I64, interval: I64, actions: seq<Action>, t: nat, now: I64)
    requires interval > 0 && t !in Run(initial, interval, actions).calls
    ensures var s := Run(initial, interval, actions);
            var newest := s.cells[|s.cells| - 1];
            Run(initial, interval, actions + [Load(t, now, |s.cells| - 1)] + [Swap(t)]).cells
            == if now - newest >= interval then s.cells + [now] else s.cells
  {
    var s := Run(initial, interval, actions);
    var load := Load(t, now, |s.cells| - 1);
    RunSnoc(initial, interval, actions, load);
    RunSnoc(initial, interval, actions + [load], Swap(t));
    SwapWinsIff(initial, interval, actions + [load], t);
  }

  lemma RunSnoc(initial: I64, interval: I64, actions: seq<Action>, a: Action)
    ensures Run(initial, interval, actions + [a]) == Step(Run(initial, interval, actions), interval, a)
  {
    assert (actions + [a])[..|actions|] == actions;
  }
}
