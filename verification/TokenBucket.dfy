/** The Redis token bucket behind `check_rate_limit`: a stored hash
    (tokens, last_refill) that is refilled lazily on each call.

    Tokens are exact reals and clock readings are unbounded integers; one call of the
    script is one atomic step. */
module TokenBucket {
  import opened Common

  datatype Config = Config(rps: nat, burst: nat)

  datatype Bucket = Bucket(tokens: real, lastRefill: int)

  datatype Verdict = Admitted | RetryAfter(ms: int)

  datatype Backend = Unavailable | ScriptError | Ready

  // ---------------------------------------------------------------- the script

  function Min(a: real, b: real): real { if a <= b then a else b }

  function Ceil(x: real): int { -((-x).Floor) }

  /** Tokens earned over `ms` milliseconds. */
  function Gain(c: Config, ms: int): real { (ms as real / 1000.0) * c.rps as real }

  /** The two `hget` calls with their defaults. */
  function Loaded(stored: Option<Bucket>, c: Config, now: int): Bucket {
    match stored
    case Some(b) => b
    case None => Bucket(c.burst as real, now)
  }

  function Refilled(b: Bucket, c: Config, now: int): real {
    var elapsed := now - b.lastRefill;
    if elapsed > 0 then Min(c.burst as real, b.tokens + Gain(c, elapsed)) else b.tokens
  }

  function WaitMs(c: Config, tokens: real): int
    requires c.rps > 0
  {
    Ceil((1.0 - tokens) / c.rps as real * 1000.0)
  }

  /** The new hash and the script's return value: 1, or minus the wait. */
  function Script(stored: Option<Bucket>, c: Config, now: int): (Bucket, int)
    requires c.rps > 0
  {
    var tokens := Refilled(Loaded(stored, c, now), c, now);
    if tokens >= 1.0 then (Bucket(tokens - 1.0, now), 1)
    else (Bucket(tokens, now), -WaitMs(c, tokens))
  }

  /** How `check_rate_limit` reads the script's return value. */
  function Decode(v: int): Verdict { if v > 0 then Admitted else RetryAfter(-v) }

  class RateLimiter {
    var buckets: map<string, Bucket>

    constructor()
      ensures buckets == map[]
    {
      buckets := map[];
    }

    /** A missing or malformed configuration (`None`), a zero rate, a missing backend and
        a script error all let the request through and touch nothing. */
    method CheckRateLimit(connection: string, config: Option<Config>, now: int, backend: Backend)
      returns (verdict: Verdict)
      modifies this
      ensures config.None? || config.value.rps == 0 || !backend.Ready? ==>
                verdict == Admitted && buckets == old(buckets)
      ensures config.Some? && config.value.rps > 0 && backend.Ready? ==>
                var stored := if connection in old(buckets) then Some(old(buckets)[connection]) else None;
                && verdict == Decode(Script(stored, config.value, now).1)
                && buckets == old(buckets)[connection := Script(stored, config.value, now).0]
    {
      if config.None? || config.value.rps == 0 || !backend.Ready? {
        return Admitted;
      }
      var c := config.value;
      var tokens, lastRefill := c.burst as real, now;
      if connection in buckets {
        tokens, lastRefill := buckets[connection].tokens, buckets[connection].lastRefill;
      }
      var elapsed := now - lastRefill;
      if elapsed > 0 {
        tokens := Min(c.burst as real, tokens + Gain(c, elapsed));
      }
      var reply: int;
      if tokens >= 1.0 {
        tokens := tokens - 1.0;
        reply := 1;
      } else {
        reply := -WaitMs(c, tokens);
      }
      buckets := buckets[connection := Bucket(tokens, now)];
      verdict := Decode(reply);
    }
  }

  // ---------------------------------------------------------------- runs on one key

  predicate Admits(stored: Option<Bucket>, c: Config, now: int)
    requires c.rps > 0
  {
    Decode(Script(stored, c, now).1).Admitted?
  }

  /** The admit/deny decisions of a sequence of calls. */
  function Decisions(stored: Option<Bucket>, c: Config, nows: seq<int>): (ds: seq<bool>)
    requires c.rps > 0
    ensures |ds| == |nows|
    decreases nows
  {
    if nows == [] then []
    else [Admits(stored, c, nows[0])] + Decisions(Some(Script(stored, c, nows[0]).0), c, nows[1..])
  }

  function After(stored: Option<Bucket>, c: Config, nows: seq<int>): Option<Bucket>
    requires c.rps > 0
    decreases nows
  {
    if nows == [] then stored else After(Some(Script(stored, c, nows[0]).0), c, nows[1..])
  }

  function Admissions(ds: seq<bool>): nat {
    if ds == [] then 0 else (if ds[0] then 1 else 0) + Admissions(ds[1..])
  }

  /** Total forward clock movement along the readings, starting from `last`. */
  function Forward(last: int, nows: seq<int>): nat
    decreases nows
  {
    if nows == [] then 0
    else (if nows[0] > last then nows[0] - last else 0) + Forward(nows[0], nows[1..])
  }

  predicate NonDecreasing(last: int, nows: seq<int>)
    decreases nows
  {
    nows == [] || (last <= nows[0] && NonDecreasing(nows[0], nows[1..]))
  }

  ghost predicate InRange(stored: Option<Bucket>, c: Config) {
    stored.Some? ==> 0.0 <= stored.value.tokens <= c.burst as real
  }

  // ---------------------------------------------------------------- arithmetic of the refill

  lemma GainLaws(c: Config, a: int, b: int)
    ensures Gain(c, a + b) == Gain(c, a) + Gain(c, b)
    ensures 0 <= a ==> 0.0 <= Gain(c, a)
  {
  }

  /** Refilling at `now` and then at a later `n` is refilling once at `n`. */
  lemma RefillTwice(b: Bucket, c: Config, now: int, n: int)
    requires b.tokens <= c.burst as real
    requires b.lastRefill <= now <= n
    ensures Refilled(Bucket(Refilled(b, c, now), now), c, n) == Refilled(b, c, n)
  {
  }

  lemma RefillInRange(b: Bucket, c: Config, now: int)
    requires 0.0 <= b.tokens <= c.burst as real
    ensures b.tokens <= Refilled(b, c, now) <= c.burst as real
    ensures Refilled(b, c, now) <= b.tokens + Gain(c, if now > b.lastRefill then now - b.lastRefill else 0)
  {
  }

  /** Every call keeps the stored tokens within 0..burst, whatever the clock does. */
  lemma {:induction false} TokensStayInRange(stored: Option<Bucket>, c: Config, nows: seq<int>)
    requires c.rps > 0 && InRange(stored, c)
    ensures InRange(After(stored, c, nows), c)
    decreases nows
  {
    if nows == [] {
    } else {
      RefillInRange(Loaded(stored, c, nows[0]), c, nows[0]);
      TokensStayInRange(Some(Script(stored, c, nows[0]).0), c, nows[1..]);
    }
  }

  // ---------------------------------------------------------------- the wait is exact

  lemma CeilIsLeast(x: real, k: int)
    ensures k >= Ceil(x) <==> k as real >= x
  {
  }

  /** `WaitMs` is the least number of milliseconds that earns the missing part of a token. */
  lemma WaitIsLeast(c: Config, tokens: real, k: int)
    requires c.rps > 0
    ensures k >= WaitMs(c, tokens) <==> tokens + Gain(c, k) >= 1.0
  {
    var r, need := c.rps as real, 1.0 - tokens;
    var x := need / r * 1000.0;
    assert x * (r / 1000.0) == need by {
      assert need / r * r == need;
      assert x * (r / 1000.0) == (need / r * r) * 1000.0 / 1000.0;
    }
    assert Gain(c, k) == k as real * (r / 1000.0);
    var q := r / 1000.0;
    assert q > 0.0;
    CeilIsLeast(x, k);
    if k as real >= x {
      assert (k as real - x) * q >= 0.0;
      assert k as real * q == x * q + (k as real - x) * q;
    } else {
      assert (x - k as real) * q > 0.0;
      assert x * q == k as real * q + (x - k as real) * q;
    }
  }

  /** After a denial at `now` with wait `w` and no other call on the key, a call at any
      reading `n` is admitted exactly when `n >= now + w` (never, for a bucket of size 0);
      the wait lies in 1..ceil(1000/rps), so the sign encoding is unambiguous. */
  lemma WaitIsExact(stored: Option<Bucket>, c: Config, now: int, n: int)
    requires c.rps > 0 && InRange(stored, c)
    requires !Admits(stored, c, now)
    ensures var (denied, reply) := Script(stored, c, now);
            var w := -reply;
            && Decode(reply) == RetryAfter(w)
            && 1 <= w <= Ceil(1000.0 / c.rps as real)
            && (Admits(Some(denied), c, n) <==> c.burst >= 1 && n >= now + w)
  {
    var b := Loaded(stored, c, now);
    RefillInRange(b, c, now);
    var t := Refilled(b, c, now);
    assert t < 1.0;
    WaitIsBounded(c, t);
    NextIsAdmittedIff(c, t, now, n);
    DecisionIsThreshold(Some(Bucket(t, now)), c, n);
    assert Script(stored, c, now) == (Bucket(t, now), -WaitMs(c, t));
  }

  lemma WaitIsBounded(c: Config, t: real)
    requires c.rps > 0 && 0.0 <= t < 1.0
    ensures 1 <= WaitMs(c, t) <= Ceil(1000.0 / c.rps as real)
  {
    var most := Ceil(1000.0 / c.rps as real);
    assert Gain(c, 0) == 0.0;
    WaitIsLeast(c, t, 0);
    assert 1.0 / c.rps as real * 1000.0 == 1000.0 / c.rps as real;
    assert WaitMs(c, 0.0) == most;
    WaitIsLeast(c, 0.0, most);
    WaitIsLeast(c, t, most);
  }

  lemma NextIsAdmittedIff(c: Config, t: real, now: int, n: int)
    requires c.rps > 0 && 0.0 <= t < 1.0 && t <= c.burst as real
    ensures Refilled(Bucket(t, now), c, n) >= 1.0 <==> c.burst >= 1 && n >= now + WaitMs(c, t)
  {
    WaitIsBounded(c, t);
    WaitIsLeast(c, t, n - now);
  }

  // ---------------------------------------------------------------- refinement of an eager bucket

  /** The textbook bucket: rps/1000 tokens are added every millisecond, capped at burst. */
  datatype Eager = Eager(tokens: real, time: int)

  function Tick(e: Eager, c: Config): Eager {
    Eager(Min(c.burst as real, e.tokens + Gain(c, 1)), e.time + 1)
  }

  function Advance(e: Eager, c: Config, now: int): Eager
    decreases now - e.time
  {
    if now <= e.time then e else Advance(Tick(e, c), c, now)
  }

  function Take(e: Eager): Eager { if e.tokens >= 1.0 then e.(tokens := e.tokens - 1.0) else e }

  function EagerDecisions(e: Eager, c: Config, nows: seq<int>): (ds: seq<bool>)
    decreases nows
  {
    if nows == [] then []
    else
      var at := Advance(e, c, nows[0]);
      [at.tokens >= 1.0] + EagerDecisions(Take(at), c, nows[1..])
  }

  lemma {:induction false} AdvanceIsRefill(e: Eager, c: Config, now: int)
    requires e.tokens <= c.burst as real && e.time <= now
    ensures Advance(e, c, now) == Eager(Refilled(Bucket(e.tokens, e.time), c, now), now)
    decreases now - e.time
  {
    if now <= e.time {
    } else {
      var t := Tick(e, c);
      AdvanceIsRefill(t, c, now);
      RefillTwice(Bucket(e.tokens, e.time), c, e.time + 1, now);
      assert Refilled(Bucket(e.tokens, e.time), c, e.time + 1) == t.tokens;
    }
  }

  /** On every non-decreasing sequence of readings the lazy bucket decides exactly as the
      bucket that ticks every millisecond. */
  lemma {:induction false} LazyRefinesEager(b: Bucket, c: Config, nows: seq<int>)
    requires c.rps > 0 && 0.0 <= b.tokens <= c.burst as real
    requires NonDecreasing(b.lastRefill, nows)
    ensures Decisions(Some(b), c, nows) == EagerDecisions(Eager(b.tokens, b.lastRefill), c, nows)
    decreases nows
  {
    if nows == [] {
    } else {
      var now := nows[0];
      AdvanceIsRefill(Eager(b.tokens, b.lastRefill), c, now);
      RefillInRange(b, c, now);
      var b' := Script(Some(b), c, now).0;
      DecisionIsThreshold(Some(b), c, now);
      LazyRefinesEager(b', c, nows[1..]);
    }
  }

  lemma DecisionIsThreshold(stored: Option<Bucket>, c: Config, now: int)
    requires c.rps > 0
    ensures Admits(stored, c, now) <==> Refilled(Loaded(stored, c, now), c, now) >= 1.0
  {
  }

  /** The same from a key that does not exist yet: the eager bucket may have been full since
      any earlier moment `born`. */
  lemma FreshKeyRefinesEager(c: Config, nows: seq<int>, born: int)
    requires c.rps > 0 && NonDecreasing(born, nows)
    ensures Decisions(None, c, nows) == EagerDecisions(Eager(c.burst as real, born), c, nows)
  {
    if nows != [] {
      var full := Bucket(c.burst as real, born);
      GainLaws(c, nows[0] - born, 0);
      assert Refilled(full, c, nows[0]) == c.burst as real;
      DecisionIsThreshold(None, c, nows[0]);
      DecisionIsThreshold(Some(full), c, nows[0]);
      assert Script(None, c, nows[0]) == Script(Some(full), c, nows[0]);
      assert Decisions(None, c, nows) == Decisions(Some(full), c, nows);
      LazyRefinesEager(full, c, nows);
    }
  }

  // ---------------------------------------------------------------- denied calls

  /** With no room for a token nothing is ever admitted. */
  lemma {:induction false} NoRoomNoAdmission(stored: Option<Bucket>, c: Config, nows: seq<int>, i: nat)
    requires c.rps > 0 && c.burst == 0 && InRange(stored, c) && i < |nows|
    ensures !Decisions(stored, c, nows)[i]
    decreases nows
  {
    StepKeepsRange(stored, c, nows[0]);
    if i == 0 {
      DecisionIsThreshold(stored, c, nows[0]);
    } else {
      NoRoomNoAdmission(Some(Script(stored, c, nows[0]).0), c, nows[1..], i - 1);
    }
  }

  lemma NoRoomSameDecisions(s1: Option<Bucket>, s2: Option<Bucket>, c: Config, nows: seq<int>)
    requires c.rps > 0 && c.burst == 0 && InRange(s1, c) && InRange(s2, c)
    ensures Decisions(s1, c, nows) == Decisions(s2, c, nows)
  {
    forall i | 0 <= i < |nows|
      ensures Decisions(s1, c, nows)[i] == Decisions(s2, c, nows)[i]
    {
      NoRoomNoAdmission(s1, c, nows, i);
      NoRoomNoAdmission(s2, c, nows, i);
    }
  }

  lemma TwoDecisions(stored: Option<Bucket>, c: Config, m: int, n: int)
    requires c.rps > 0
    ensures Decisions(stored, c, [m, n]) == [Admits(stored, c, m), Admits(Some(Script(stored, c, m).0), c, n)]
    ensures Decisions(stored, c, [n]) == [Admits(stored, c, n)]
  {
    assert [m, n][1..] == [n] && [n][1..] == [];
  }

  /** The readings that tell a refilled bucket from one that was denied after its last refill: the clock
      goes back to that refill, and then forward by the wait of the denied call. */
  function Rewind(b: Bucket, c: Config, now: int): seq<int>
    requires c.rps > 0
  {
    [b.lastRefill, b.lastRefill + WaitMs(c, Refilled(b, c, now))]
  }

  /** A denial after the last refill banks the tokens earned until then, so that a clock that goes back
      earns them twice. */
  lemma RewindAfterDenial(b: Bucket, c: Config, now: int)
    requires c.rps > 0 && c.burst >= 1 && 0.0 <= b.tokens <= c.burst as real
    requires !Admits(Some(b), c, now) && now > b.lastRefill
    ensures Decisions(Some(b), c, Rewind(b, c, now)) == [false, false]
    ensures Decisions(Some(Script(Some(b), c, now).0), c, Rewind(b, c, now)) == [false, true]
  {
    var t, last := Refilled(b, c, now), b.lastRefill;
    DecisionIsThreshold(Some(b), c, now);
    RefillInRange(b, c, now);
    assert t == b.tokens + Gain(c, now - last);
    DecisionsAfterRewind(b, c, last, last + WaitMs(c, t));
    DecisionsAfterRewind(Bucket(t, now), c, last, last + WaitMs(c, t));
    LaterNeedsLonger(c, b.tokens, now - last, WaitMs(c, t));
  }

  /** A reading no later than the last refill leaves too few tokens as they are, and restarts the wait. */
  lemma DecisionsAfterRewind(b: Bucket, c: Config, last: int, n: int)
    requires c.rps > 0 && c.burst >= 1 && 0.0 <= b.tokens < 1.0 && last <= b.lastRefill
    ensures Decisions(Some(b), c, [last, n]) == [false, n >= last + WaitMs(c, b.tokens)]
  {
    DecisionIsThreshold(Some(b), c, last);
    TwoDecisions(Some(b), c, last, n);
    DecisionIsThreshold(Some(Bucket(b.tokens, last)), c, n);
    NextIsAdmittedIff(c, b.tokens, last, n);
  }

  lemma LaterNeedsLonger(c: Config, tokens: real, earned: int, w: int)
    requires c.rps > 0 && earned > 0 && w == WaitMs(c, tokens + Gain(c, earned))
    ensures w < WaitMs(c, tokens)
  {
    WaitIsLeast(c, tokens + Gain(c, earned), w - earned);
    WaitIsLeast(c, tokens, w);
    GainLaws(c, w - earned, earned);
  }

  /** What a denied call leaves decides every run of readings, on any clock, as if the call had not
      happened, exactly when it was made at the very reading of the last refill, or the bucket has no
      room for a token. */
  lemma DenialIsTransparentIff(stored: Option<Bucket>, c: Config, now: int)
    requires c.rps > 0 && InRange(stored, c) && !Admits(stored, c, now)
    ensures (forall nows :: Decisions(stored, c, nows) == Decisions(Some(Script(stored, c, now).0), c, nows))
            <==> c.burst == 0 || (stored.Some? && now == stored.value.lastRefill)
  {
    var denied := Script(stored, c, now).0;
    DecisionIsThreshold(stored, c, now);
    StepKeepsRange(stored, c, now);
    if c.burst == 0 {
      forall nows
        ensures Decisions(stored, c, nows) == Decisions(Some(denied), c, nows)
      {
        NoRoomSameDecisions(stored, Some(denied), c, nows);
      }
    } else if now == stored.value.lastRefill {
      assert denied == stored.value;
    } else if now > stored.value.lastRefill {
      RewindAfterDenial(stored.value, c, now);
    } else {
      var n := EarlyDenialTells(stored.value, c, now);
    }
  }

  /** After a denial on a clock that went back, one later reading is decided differently. */
  lemma EarlyDenialTells(b: Bucket, c: Config, now: int) returns (n: int)
    requires c.rps > 0 && c.burst >= 1 && 0.0 <= b.tokens <= c.burst as real
    requires !Admits(Some(b), c, now) && now < b.lastRefill
    ensures n >= now
    ensures Decisions(Some(b), c, [n]) == [false] && Decisions(Some(Script(Some(b), c, now).0), c, [n]) == [true]
  {
    DecisionIsThreshold(Some(b), c, now);
    n := now + WaitMs(c, b.tokens);
    WaitIsExact(Some(b), c, now, n);
    WaitIsLeast(c, b.tokens, n - b.lastRefill);
    DecisionIsThreshold(Some(b), c, n);
    TwoDecisions(Some(b), c, now, n);
    TwoDecisions(Some(Script(Some(b), c, now).0), c, now, n);
  }

  /** On a clock that only goes forward from the denied call the condition is that the clock had not gone
      back before it. */
  lemma DenialIsTransparentOnwardsIff(stored: Option<Bucket>, c: Config, now: int)
    requires c.rps > 0 && InRange(stored, c) && !Admits(stored, c, now)
    ensures (forall nows :: NonDecreasing(now, nows) ==>
               Decisions(stored, c, nows) == Decisions(Some(Script(stored, c, now).0), c, nows))
            <==> c.burst == 0 || (stored.Some? && now >= stored.value.lastRefill)
  {
    var denied := Script(stored, c, now).0;
    DecisionIsThreshold(stored, c, now);
    StepKeepsRange(stored, c, now);
    if c.burst == 0 || now >= stored.value.lastRefill {
      forall nows | NonDecreasing(now, nows)
        ensures Decisions(stored, c, nows) == Decisions(Some(denied), c, nows)
      {
        if c.burst == 0 {
          NoRoomSameDecisions(stored, Some(denied), c, nows);
        } else if nows != [] {
          DenialThenCall(stored, c, now, nows[0]);
        }
      }
    } else {
      var n := EarlyDenialTells(stored.value, c, now);
      assert NonDecreasing(now, [n]);
    }
  }

  /** A denied call followed by a call at `n`, no earlier, acts like the call at `n` alone. */
  lemma DenialThenCall(stored: Option<Bucket>, c: Config, now: int, n: int)
    requires c.rps > 0 && InRange(stored, c) && !Admits(stored, c, now)
    requires (stored.Some? ==> stored.value.lastRefill <= now) && now <= n
    ensures Script(Some(Script(stored, c, now).0), c, n) == Script(stored, c, n)
  {
    DecisionIsThreshold(stored, c, now);
    if stored.Some? {
      RefillTwice(stored.value, c, now, n);
    } else {
      GainLaws(c, n - now, 0);
    }
  }

  lemma StepKeepsRange(stored: Option<Bucket>, c: Config, now: int)
    requires c.rps > 0 && InRange(stored, c)
    ensures InRange(Some(Script(stored, c, now).0), c) && Script(stored, c, now).0.lastRefill == now
  {
  }

  lemma WithoutIsInTail<T>(s: seq<T>, i: nat)
    requires 0 < i < |s|
    ensures s[..i] + s[i + 1..] == [s[0]] + (s[1..][..i - 1] + s[1..][i..])
  {
  }

  /** On a non-decreasing clock, leaving a denied call out of a run changes no other decision. */
  lemma {:induction false} DroppingADenial(stored: Option<Bucket>, c: Config, nows: seq<int>, i: nat)
    requires c.rps > 0 && InRange(stored, c) && i < |nows|
    requires NonDecreasing(if stored.Some? then stored.value.lastRefill else nows[0], nows)
    requires !Decisions(stored, c, nows)[i]
    ensures Decisions(stored, c, nows[..i] + nows[i + 1..])
            == Decisions(stored, c, nows)[..i] + Decisions(stored, c, nows)[i + 1..]
    decreases nows
  {
    var now, rest := nows[0], nows[1..];
    var next := Some(Script(stored, c, now).0);
    var ds, tail := Decisions(stored, c, nows), Decisions(next, c, rest);
    assert ds == [Admits(stored, c, now)] + tail;
    var shorter := nows[..i] + nows[i + 1..];
    if i == 0 {
      assert shorter == rest && ds[..0] + ds[1..] == tail;
      if rest != [] {
        DenialThenCall(stored, c, now, rest[0]);
      }
    } else {
      StepKeepsRange(stored, c, now);
      assert tail[i - 1] == ds[i];
      DroppingADenial(next, c, rest, i - 1);
      WithoutIsInTail(nows, i);
      WithoutIsInTail(ds, i);
    }
  }

  // ---------------------------------------------------------------- the bound over whole runs

  /** Admissions are paid for: what the run admits never exceeds the tokens it started with
      plus what forward clock movement earned. */
  lemma {:induction false} AdmissionsArePaidFor(b: Bucket, c: Config, nows: seq<int>)
    requires c.rps > 0 && 0.0 <= b.tokens <= c.burst as real
    ensures Admissions(Decisions(Some(b), c, nows)) as real
            <= b.tokens + Gain(c, Forward(b.lastRefill, nows))
    decreases nows
  {
    if nows == [] {
      assert Gain(c, 0) == 0.0;
    } else {
      var now, rest := nows[0], nows[1..];
      var next := Script(Some(b), c, now).0;
      DecisionIsThreshold(Some(b), c, now);
      RefillInRange(b, c, now);
      AdmissionsArePaidFor(next, c, rest);
      GainLaws(c, if now > b.lastRefill then now - b.lastRefill else 0, Forward(now, rest));
      assert Decisions(Some(b), c, nows)[1..] == Decisions(Some(next), c, rest);
    }
  }

  lemma {:induction false} DecisionsOfAPrefix(stored: Option<Bucket>, c: Config, nows: seq<int>, j: nat)
    requires c.rps > 0 && j <= |nows|
    ensures Decisions(stored, c, nows)[..j] == Decisions(stored, c, nows[..j])
    decreases nows
  {
    if j == 0 {
    } else {
      DecisionsOfAPrefix(Some(Script(stored, c, nows[0]).0), c, nows[1..], j - 1);
      assert nows[..j][1..] == nows[1..][..j - 1];
    }
  }

  lemma {:induction false} DecisionsOfASuffix(stored: Option<Bucket>, c: Config, nows: seq<int>, i: nat)
    requires c.rps > 0 && i <= |nows|
    ensures Decisions(stored, c, nows)[i..] == Decisions(After(stored, c, nows[..i]), c, nows[i..])
    decreases nows
  {
    if i == 0 {
    } else {
      DecisionsOfASuffix(Some(Script(stored, c, nows[0]).0), c, nows[1..], i - 1);
      assert nows[..i][1..] == nows[1..][..i - 1];
      assert nows[1..][i - 1..] == nows[i..];
    }
  }

  lemma DecisionsOfAWindow(stored: Option<Bucket>, c: Config, nows: seq<int>, i: nat, j: nat)
    requires c.rps > 0 && i <= j <= |nows|
    ensures Decisions(stored, c, nows)[i..j] == Decisions(After(stored, c, nows[..i]), c, nows[i..j])
  {
    DecisionsOfASuffix(stored, c, nows, i);
    DecisionsOfAPrefix(After(stored, c, nows[..i]), c, nows[i..], j - i);
    WindowOfASuffix(nows, i, j);
    WindowOfASuffix(Decisions(stored, c, nows), i, j);
  }

  lemma WindowOfASuffix<T>(s: seq<T>, i: nat, j: nat)
    requires i <= j <= |s|
    ensures s[i..][..j - i] == s[i..j]
  {
  }

  /** Between any two calls of any run, under arbitrary clock readings, at most
      burst + rps/1000 * (forward clock movement between them) requests are admitted. */
  lemma WindowBound(stored: Option<Bucket>, c: Config, nows: seq<int>, i: nat, j: nat)
    requires c.rps > 0 && InRange(stored, c) && i < j <= |nows|
    ensures Admissions(Decisions(stored, c, nows)[i..j]) as real
            <= c.burst as real + Gain(c, Forward(nows[i], nows[i + 1..j]))
  {
    DecisionsOfAWindow(stored, c, nows, i, j);
    TokensStayInRange(stored, c, nows[..i]);
    var s, window := After(stored, c, nows[..i]), nows[i..j];
    var b := FilledFirst(s, c, window);
    AdmissionsArePaidFor(b, c, window);
    assert window[0] == nows[i] && window[1..] == nows[i + 1..j];
  }

  /** A run decides as it would from the bucket refilled at its first reading. */
  lemma FilledFirst(stored: Option<Bucket>, c: Config, nows: seq<int>) returns (b: Bucket)
    requires c.rps > 0 && InRange(stored, c) && nows != []
    ensures 0.0 <= b.tokens <= c.burst as real && b.lastRefill == nows[0]
    ensures Decisions(stored, c, nows) == Decisions(Some(b), c, nows)
  {
    var now := nows[0];
    RefillInRange(Loaded(stored, c, now), c, now);
    b := Bucket(Refilled(Loaded(stored, c, now), c, now), now);
    DecisionIsThreshold(stored, c, now);
    DecisionIsThreshold(Some(b), c, now);
    assert Script(stored, c, now) == Script(Some(b), c, now);
  }

  /** With a monotone clock the forward movement is the plain elapsed time. */
  lemma {:induction false} ForwardIsElapsed(last: int, nows: seq<int>)
    requires NonDecreasing(last, nows)
    ensures Forward(last, nows) == if nows == [] then 0 else nows[|nows| - 1] - last
    decreases nows
  {
    if nows == [] {
    } else {
      ForwardIsElapsed(nows[0], nows[1..]);
    }
  }
}
