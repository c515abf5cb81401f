/** Persisting refreshed OAuth tokens under the optimistic guard on the refresh-token hash.

    `ConnectionRow` is the stored row with the guarded UPDATE and the merge that precedes it.
    Below it, any number of processes read the row, refresh at the provider (section 6 of
    RFC 6749) and persist, each in separate steps that interleave arbitrarily; a user may also
    reconnect, which stores the tokens of a new grant. */
module TokenRotation {
  import opened Common

  type Token = string

  /** The SHA-256 fingerprint, taken as injective. */
  datatype Hash = Sha(of: Token)

  // ---------------------------------------------------------------- one call

  datatype Field = Text(text: string) | Other

  /** The JSON `connection_parameters`. */
  datatype Params = Object(fields: map<string, Field>) | NotAnObject

  datatype Rotated = Rotated(accessToken: string, refreshToken: Option<Token>, expiresAt: Option<string>)

  function RefreshTokenOf(p: Params): Option<Token> {
    if p.Object? && "refresh_token" in p.fields && p.fields["refresh_token"].Text?
    then Some(p.fields["refresh_token"].text) else None
  }

  /** A provider that does not rotate may omit the refresh token; the old one is kept. */
  function NewRefreshToken(p: Params, r: Rotated): Option<Token> {
    if r.refreshToken.Some? then r.refreshToken else RefreshTokenOf(p)
  }

  function HashOf(t: Option<Token>): Option<Hash> {
    if t.Some? then Some(Sha(t.value)) else None
  }

  /** The WHERE clause, where comparing with SQL NULL is not a match. */
  predicate GuardAccepts(stored: Option<Hash>, expected: Option<Hash>) {
    stored.None? || (expected.Some? && stored == expected)
  }

  /** The row has no hash yet, or the hash of the very token that was refreshed. */
  predicate HoldsTokenOf(stored: Option<Hash>, params: Params) {
    stored.Some? ==>
      && params.Object? && "refresh_token" in params.fields
      && params.fields["refresh_token"] == Text(stored.value.of)
  }

  /** Every key of the merged object: the new tokens and expiry where the provider sent them, and all else
      as it was. */
  predicate Merges(before: map<string, Field>, r: Rotated, after: map<string, Field>) {
    && after.Keys == before.Keys + {"access_token"}
                     + (if r.refreshToken.Some? then {"refresh_token"} else {})
                     + (if r.expiresAt.Some? then {"token_expires_at"} else {})
    && forall k :: k in after ==>
         after[k] == if k == "access_token" then Text(r.accessToken)
                     else if k == "refresh_token" && r.refreshToken.Some? then Text(r.refreshToken.value)
                     else if k == "token_expires_at" && r.expiresAt.Some? then Text(r.expiresAt.value)
                     else if k in before then before[k] else Other
  }

  datatype Persisted = Ok | DatabaseError

  class ConnectionRow {
    var parameters: Params
    var hash: Option<Hash>

    constructor(parameters: Params, hash: Option<Hash>)
      ensures this.parameters == parameters && this.hash == hash
    {
      this.parameters, this.hash := parameters, hash;
    }

    method PersistRefreshedOauth(merged: Params, expected: Option<Hash>, new_: Option<Hash>) returns (rows: nat)
      modifies this
      ensures GuardAccepts(old(hash), expected) ==> rows == 1 && parameters == merged && hash == new_
      ensures !GuardAccepts(old(hash), expected) ==> rows == 0 && parameters == old(parameters) && hash == old(hash)
    {
      if hash.None? || (expected.Some? && hash == expected) {
        parameters, hash := merged, new_;
        rows := 1;
      } else {
        rows := 0;
      }
    }

    /** `databaseFails` is the database refusing the write; `rotates` is whether the provider
        invalidates a refresh token when it is used. The row is either untouched or holds the
        merged parameters; if those are an object, their refresh token matches the hash stored beside it. */
    method PersistRotatedCredentials(params: Params, rotated: Rotated, rotates: bool, databaseFails: bool)
      returns (result: Persisted, cacheDropped: bool)
      modifies this
      ensures databaseFails || !HoldsTokenOf(old(hash), params) ==> parameters == old(parameters) && hash == old(hash)
      ensures !databaseFails && HoldsTokenOf(old(hash), params) ==>
                && parameters.Object? == params.Object?
                && (params.Object? ==> Merges(params.fields, rotated, parameters.fields))
                && (rotated.refreshToken.Some? ==> hash == Some(Sha(rotated.refreshToken.value)))
                && (rotated.refreshToken.None? ==> hash == HashOf(RefreshTokenOf(params)))
                && (params.Object? ==> hash == HashOf(RefreshTokenOf(parameters)))
      ensures result.DatabaseError? <==> databaseFails && rotates
      ensures cacheDropped <==> databaseFails && rotates
    {
      var oldRefresh := RefreshTokenOf(params);
      var newRefresh := NewRefreshToken(params, rotated);
      var merged := params;
      if merged.Object? {
        merged := Object(merged.fields["access_token" := Text(rotated.accessToken)]);
        if newRefresh.Some? {
          merged := Object(merged.fields["refresh_token" := Text(newRefresh.value)]);
        }
        if rotated.expiresAt.Some? {
          merged := Object(merged.fields["token_expires_at" := Text(rotated.expiresAt.value)]);
        }
      }
      if databaseFails {
        return if rotates then DatabaseError else Ok, rotates;
      }
      var rows := PersistRefreshedOauth(merged, HashOf(oldRefresh), HashOf(newRefresh));
      return Ok, false;
    }
  }

  // ---------------------------------------------------------------- many processes

  /** The part of the row that the protocol turns on. */
  datatype Row = Row(token: Token, hash: Option<Hash>)

  /** A process that has read the row, or that holds what the provider returned for it. */
  datatype Process = Fetched(from: Token) | Refreshed(from: Token, to: Token)

  /** `live` are the refresh tokens the provider accepts, `parent` says which token each issued
      token was obtained with, `known` are all tokens ever seen, `lost` are (from, to) pairs whose
      write the database refused, and `history` are the tokens the row has held, oldest first. */
  datatype State = State(
    row: Row, live: set<Token>, parent: map<Token, Token>, known: set<Token>,
    processes: map<nat, Process>, lost: set<(Token, Token)>, history: seq<Token>)

  datatype Action =
    | Fetch(p: nat)
    /** The provider answers with `issued` (nothing, if it keeps the old token) and either
        retires the token it was given or keeps accepting it. */
    | Refresh(p: nat, issued: Option<Token>, retires: bool)
    | Persist(p: nat)
    | PersistFails(p: nat)
    /** The OAuth callback stores the tokens of a new grant. */
    | Reconnect(granted: Token, revokesOld: bool)

  predicate Lands(row: Row, from: Token) { GuardAccepts(row.hash, Some(Sha(from))) }

  /** An action that is not possible in a state changes nothing. */
  function Step(s: State, a: Action): State {
    match a
    case Fetch(p) =>
      if p in s.processes then s else s.(processes := s.processes[p := Fetched(s.row.token)])
    case Refresh(p, issued, retires) =>
      if p !in s.processes || !s.processes[p].Fetched? || (issued.Some? && issued.value in s.known) then s
      else
        var from := s.processes[p].from;
        if from !in s.live then s.(processes := s.processes - {p})  // invalid_grant
        else if issued.None? then s.(processes := s.processes[p := Refreshed(from, from)])
        else
          var to := issued.value;
          s.(live := (if retires then s.live - {from} else s.live) + {to},
             parent := s.parent[to := from],
             known := s.known + {to},
             processes := s.processes[p := Refreshed(from, to)])
    case Persist(p) =>
      if p !in s.processes || !s.processes[p].Refreshed? then s
      else
        var Refreshed(from, to) := s.processes[p];
        var done := s.(processes := s.processes - {p});
        if Lands(s.row, from)
        then done.(row := Row(to, Some(Sha(to))), history := s.history + [to])
        else done
    case PersistFails(p) =>
      if p !in s.processes || !s.processes[p].Refreshed? then s
      else s.(processes := s.processes - {p},
              lost := s.lost + {(s.processes[p].from, s.processes[p].to)})
    case Reconnect(granted, revokesOld) =>
      if granted in s.known then s
      else s.(row := s.row.(token := granted),  // refresh_token_hash is left as it was
              live := (if revokesOld then {} else s.live) + {granted},
              known := s.known + {granted},
              history := [granted])
  }

  function Run(s: State, actions: seq<Action>): State
    decreases actions
  {
    if actions == [] then s else Run(Step(s, actions[0]), actions[1..])
  }

  ghost predicate WithoutReconnect(actions: seq<Action>) {
    forall a :: a in actions ==> !a.Reconnect?
  }

  /** A connection that has just been authorised: one token, live, and either no hash yet
      or the hash of that token. */
  ghost predicate Initial(s: State) {
    && s.live == s.known == {s.row.token}
    && s.history == [s.row.token]
    && (s.row.hash.None? || s.row.hash == Some(Sha(s.row.token)))
    && s.processes == map[] && s.lost == {} && s.parent == map[]
  }

  // ---------------------------------------------------------------- any provider

  ghost predicate IssuedFrom(s: State, from: Token, to: Token) {
    to == from || (to in s.parent && s.parent[to] == from)
  }

  ghost predicate Chain(s: State) {
    && s.history != [] && s.history[|s.history| - 1] == s.row.token
    && (forall i, j :: 0 <= i < j == i + 1 < |s.history| ==> IssuedFrom(s, s.history[i], s.history[j]))
  }

  /** The hash stands for the stored token, or nothing was ever stored over the first token. */
  ghost predicate Coherent(s: State) {
    || s.row.hash == Some(Sha(s.row.token))
    || (s.row.hash.None? && |s.history| == 1
        && forall p :: p in s.processes ==> s.processes[p].from == s.row.token)
  }

  ghost predicate Inv(s: State) {
    && Chain(s)
    && Coherent(s)
    && (forall t :: t in s.parent ==> t in s.known)
    && (forall p :: p in s.processes && s.processes[p].Refreshed? ==>
          IssuedFrom(s, s.processes[p].from, s.processes[p].to))
  }

  lemma StepKeepsInv(s: State, a: Action)
    requires Inv(s) && !a.Reconnect?
    ensures Inv(Step(s, a))
  {
  }

  lemma {:induction false} InvHolds(s: State, actions: seq<Action>)
    requires Inv(s) && WithoutReconnect(actions)
    ensures Inv(Run(s, actions))
    decreases actions
  {
    if actions == [] {
    } else {
      StepKeepsInv(s, actions[0]);
      assert forall a :: a in actions[1..] ==> a in actions;
      InvHolds(Step(s, actions[0]), actions[1..]);
    }
  }

  /** Whatever the provider does about old tokens: in every interleaving the stored tokens form
      one chain, each issued from the one it replaced, and a write lands exactly when the row
      still holds the token it was refreshed from. */
  lemma LateWriterNeverOverwrites(s0: State, actions: seq<Action>, p: nat)
    requires Initial(s0) && WithoutReconnect(actions)
    ensures var s := Run(s0, actions);
            && Chain(s)
            && (p in s.processes ==> (Lands(s.row, s.processes[p].from) <==> s.row.token == s.processes[p].from))
  {
    InvHolds(s0, actions);
  }

  // ---------------------------------------------------------------- a provider that rotates

  /** Every refresh issues a new token and retires the one it was given. */
  ghost predicate Rotating(actions: seq<Action>) {
    forall a :: a in actions && a.Refresh? ==> a.issued.Some? && a.retires
  }

  /** The provider accepts exactly one token: the stored one, or its successor, which exactly
      one process still has to persist or whose write failed. */
  ghost predicate StoredIsCurrent(s: State) {
    && s.live == {s.row.token}
    && s.lost == {}
    && (forall p :: p in s.processes ==> s.processes[p].Fetched?)
  }

  ghost predicate SuccessorPending(s: State, holder: nat, to: Token) {
    && s.live == {to} && to !in s.history
    && s.lost == {}
    && holder in s.processes && s.processes[holder] == Refreshed(s.row.token, to)
    && (forall p :: p in s.processes && p != holder ==> s.processes[p].Fetched?)
  }

  ghost predicate SuccessorLost(s: State, to: Token) {
    && s.live == {to} && to !in s.history
    && s.lost == {(s.row.token, to)}
    && (forall p :: p in s.processes ==> s.processes[p].Fetched?)
  }

  ghost predicate RotationInv(s: State) {
    && Inv(s)
    && (forall p :: p in s.processes && s.processes[p].Fetched? ==> s.processes[p].from in s.history)
    && (forall t :: t in s.history ==> t in s.known)
    && s.live <= s.known
    && (|| StoredIsCurrent(s)
        || (exists p, to :: SuccessorPending(s, p, to))
        || (exists to :: SuccessorLost(s, to)))
  }

  lemma HistoryStep(s: State, a: Action)
    requires RotationInv(s) && !a.Reconnect?
    ensures var s' := Step(s, a);
            && (forall p :: p in s'.processes && s'.processes[p].Fetched? ==> s'.processes[p].from in s'.history)
            && (s'.history == s.history ==> forall t :: t in s'.history ==> t in s'.known)
  {
  }

  lemma StepFromCurrent(s: State, a: Action)
    requires RotationInv(s) && StoredIsCurrent(s) && !a.Reconnect?
    requires a.Refresh? ==> a.issued.Some? && a.retires
    ensures var s' := Step(s, a);
            && s'.history == s.history
            && (StoredIsCurrent(s') || (exists p, to :: SuccessorPending(s', p, to)))
  {
    var s' := Step(s, a);
    assert s.row.token in s.history;
    if a.Refresh? && s'.live != s.live {
      assert s'.live == {a.issued.value};
      assert SuccessorPending(s', a.p, a.issued.value);
    }
  }

  lemma StepFromPending(s: State, a: Action, holder: nat, to: Token)
    requires RotationInv(s) && SuccessorPending(s, holder, to) && !a.Reconnect?
    requires to in s.known
    requires a.Refresh? ==> a.issued.Some? && a.retires
    ensures var s' := Step(s, a);
            && (s'.history == s.history || s'.history == s.history + [to])
            && (StoredIsCurrent(s') || SuccessorPending(s', holder, to) || SuccessorLost(s', to))
  {
  }

  lemma StepFromLost(s: State, a: Action, to: Token)
    requires RotationInv(s) && SuccessorLost(s, to) && !a.Reconnect?
    ensures SuccessorLost(Step(s, a), to) && Step(s, a).history == s.history
  {
  }

  lemma RotationStep(s: State, a: Action)
    requires RotationInv(s) && !a.Reconnect?
    requires a.Refresh? ==> a.issued.Some? && a.retires
    ensures RotationInv(Step(s, a))
  {
    StepKeepsInv(s, a);
    HistoryStep(s, a);
    LiveStep(s, a);
    if StoredIsCurrent(s) {
      StepFromCurrent(s, a);
    } else if exists p, to :: SuccessorPending(s, p, to) {
      var p, to :| SuccessorPending(s, p, to);
      assert to in s.live;
      StepFromPending(s, a, p, to);
    } else {
      var to :| SuccessorLost(s, to);
      StepFromLost(s, a, to);
    }
  }

  lemma LiveStep(s: State, a: Action)
    requires s.live <= s.known
    ensures Step(s, a).live <= Step(s, a).known && s.known <= Step(s, a).known
  {
  }

  /** With single-use refresh tokens, in every interleaving of any number of processes, the
      stored token is the provider's current one, or its successor is held by exactly one
      process that has not persisted yet or whose write failed. */
  lemma {:induction false} RotationHolds(s: State, actions: seq<Action>)
    requires Initial(s) || RotationInv(s)
    requires WithoutReconnect(actions) && Rotating(actions)
    ensures RotationInv(Run(s, actions))
    decreases actions
  {
    assert RotationInv(s);
    if actions == [] {
    } else {
      RotationStep(s, actions[0]);
      assert forall a :: a in actions[1..] ==> a in actions;
      RotationHolds(Step(s, actions[0]), actions[1..]);
    }
  }

  // ---------------------------------------------------------------- reconnecting

  /** The guard is right about every token that can be presented to it now: the stored one and
      those of the processes in flight. */
  ghost predicate GuardIsExact(s: State) {
    && (Lands(s.row, s.row.token))
    && (forall p :: p in s.processes ==> (Lands(s.row, s.processes[p].from) <==> s.row.token == s.processes[p].from))
  }

  ghost predicate ProcessesAreKnown(s: State) {
    && s.row.token in s.known
    && (forall p :: p in s.processes ==> s.processes[p].from in s.known)
  }

  /** A reconnect stores a new token and leaves the hash alone, so it keeps the guard right
      exactly when no token was ever rotated (no hash) and no process is in flight. */
  lemma ReconnectKeepsGuardIff(s: State, granted: Token, revokesOld: bool)
    requires Inv(s) && ProcessesAreKnown(s) && granted !in s.known
    ensures GuardIsExact(Step(s, Reconnect(granted, revokesOld)))
            <==> s.row.hash.None? && s.processes == map[]
  {
  }

  /** Under the same condition, and no other, a reconnect keeps the invariant. */
  lemma ReconnectKeepsInvIff(s: State, granted: Token, revokesOld: bool)
    requires Inv(s) && ProcessesAreKnown(s) && granted !in s.known
    ensures Inv(Step(s, Reconnect(granted, revokesOld))) <==> s.row.hash.None? && s.processes == map[]
  {
    var s' := Step(s, Reconnect(granted, revokesOld));
    if s.row.hash.None? && s.processes != map[] {
      var p :| p in s.processes;
      assert p in s'.processes;
    }
  }

  /** So every later run is as safe as from the start. */
  lemma ReconnectBeforeRotationIsSafe(s: State, granted: Token, revokesOld: bool, actions: seq<Action>, p: nat)
    requires Inv(s) && ProcessesAreKnown(s) && granted !in s.known
    requires s.row.hash.None? && s.processes == map[] && WithoutReconnect(actions)
    ensures var s' := Run(Step(s, Reconnect(granted, revokesOld)), actions);
            && Chain(s')
            && (p in s'.processes ==> (Lands(s'.row, s'.processes[p].from) <==> s'.row.token == s'.processes[p].from))
  {
    ReconnectKeepsInvIff(s, granted, revokesOld);
    InvHolds(Step(s, Reconnect(granted, revokesOld)), actions);
  }

  /** One chain of tokens, and a write lands exactly on the token it was refreshed from. */
  ghost predicate Safe(s: State) {
    && Chain(s)
    && forall p :: p in s.processes ==> (Lands(s.row, s.processes[p].from) <==> s.row.token == s.processes[p].from)
  }

  /** Every later run is safe under the same condition and no other. */
  lemma ReconnectIsSafeIff(s: State, granted: Token, revokesOld: bool)
    requires Inv(s) && ProcessesAreKnown(s) && granted !in s.known
    ensures (forall actions :: WithoutReconnect(actions) ==>
               Safe(Run(Step(s, Reconnect(granted, revokesOld)), actions)))
            <==> s.row.hash.None? && s.processes == map[]
  {
    var s' := Step(s, Reconnect(granted, revokesOld));
    if s.row.hash.None? && s.processes == map[] {
      ReconnectKeepsInvIff(s, granted, revokesOld);
      forall actions | WithoutReconnect(actions)
        ensures Safe(Run(s', actions))
      {
        InvHolds(s', actions);
      }
    } else {
      var actions := UnsafeRun(s, granted, revokesOld);
      assert !Safe(Run(s', actions));
    }
  }

  /** A process in flight is already misjudged, or the next one to fetch will be. */
  lemma UnsafeRun(s: State, granted: Token, revokesOld: bool) returns (actions: seq<Action>)
    requires Inv(s) && ProcessesAreKnown(s) && granted !in s.known
    requires s.row.hash.Some? || s.processes != map[]
    ensures WithoutReconnect(actions) && !Safe(Run(Step(s, Reconnect(granted, revokesOld)), actions))
  {
    var s' := Step(s, Reconnect(granted, revokesOld));
    if s.row.hash.None? {
      var p :| p in s.processes;
      actions := [];
      assert p in s'.processes && s'.processes[p] == s.processes[p];
    } else {
      var p := Unused(s.processes.Keys);
      actions := [Fetch(p)];
      var s2 := Step(s', Fetch(p));
      assert Run(s', actions) == s2;
      assert p in s2.processes && s2.processes[p].from == granted;
    }
  }

  /** There is always another process. */
  lemma {:induction false} Unused(used: set<nat>) returns (p: nat)
    ensures p !in used
  {
    p := Above(used);
  }

  lemma {:induction false} Above(used: set<nat>) returns (bound: nat)
    ensures forall q :: q in used ==> q < bound
    decreases |used|
  {
    if used == {} {
      bound := 0;
    } else {
      var q :| q in used;
      var rest := Above(used - {q});
      bound := if q < rest then rest else q + 1;
      assert forall r :: r in used ==> r == q || r in used - {q};
    }
  }

  /** With a process in flight the reverse of a lost race happens: a write that was refreshed from the
      token the reconnect replaced still lands, over the new grant; any other is dropped. */
  lemma InFlightWriteReplacesGrant(s: State, granted: Token, revokesOld: bool, p: nat)
    requires Inv(s) && granted !in s.known && p in s.processes && s.processes[p].Refreshed?
    ensures var s' := Step(Step(s, Reconnect(granted, revokesOld)), Persist(p));
            s'.row.token == if s.processes[p].from == s.row.token then s.processes[p].to else granted
  {
  }

  /** The hash stands for some other token than the stored one, and no process still works
      on that other token. */
  ghost predicate Wedged(s: State, row: Row, revoked: set<Token>) {
    && s.row == row && row.hash.Some? && row.hash != Some(Sha(row.token))
    && (forall p :: p in s.processes ==> s.processes[p].from == row.token)
    && row.token in s.known
    && revoked !! s.live && revoked <= s.known
  }

  lemma WedgedStep(s: State, row: Row, revoked: set<Token>, a: Action)
    requires Wedged(s, row, revoked) && !a.Reconnect?
    ensures Wedged(Step(s, a), row, revoked)
  {
  }

  lemma {:induction false} WedgedForever(s: State, row: Row, revoked: set<Token>, actions: seq<Action>)
    requires Wedged(s, row, revoked) && WithoutReconnect(actions)
    ensures Wedged(Run(s, actions), row, revoked)
    decreases actions
  {
    if actions == [] {
    } else {
      WedgedStep(s, row, revoked, actions[0]);
      assert forall a :: a in actions[1..] ==> a in actions;
      WedgedForever(Step(s, actions[0]), row, revoked, actions[1..]);
    }
  }

  /** Reconnecting an idle connection that has been rotated before: no later write ever lands,
      in any run, and once a rotating provider has been asked to refresh, the row holds a dead
      token for good. */
  lemma ReconnectAfterRotationIsStuck(
    s: State, granted: Token, revokesOld: bool, before: seq<Action>, after: seq<Action>)
    requires Inv(s) && s.row.token in s.known && granted !in s.known
    requires s.processes == map[] && s.row.hash.Some?
    requires WithoutReconnect(before) && WithoutReconnect(after)
    ensures var s1 := Run(Step(s, Reconnect(granted, revokesOld)), before);
            && s1.row == Row(granted, s.row.hash)
            && (granted !in s1.live ==>
                  Run(s1, after).row == Row(granted, s.row.hash) && granted !in Run(s1, after).live)
  {
    var s0 := Step(s, Reconnect(granted, revokesOld));
    WedgedForever(s0, Row(granted, s.row.hash), {}, before);
    var s1 := Run(s0, before);
    if granted !in s1.live {
      WedgedForever(s1, Row(granted, s.row.hash), {granted}, after);
    }
  }

  /** The shortest such run, for any four distinct tokens: one rotation, a reconnect, one more
      refresh. The last write is dropped as a lost race although nobody else wrote, and the
      stored token is dead. */
  lemma ReconnectExample(t0: Token, t1: Token, t2: Token, t3: Token)
    requires t0 != t1 && t0 != t2 && t0 != t3 && t1 != t2 && t1 != t3 && t2 != t3
    ensures var s0 := State(Row(t0, None), {t0}, map[], {t0}, map[], {}, [t0]);
            var s1 := Rotate(s0, t1);
            var s2 := Step(s1, Reconnect(t2, true));
            var s3 := Rotate(s2, t3);
            && Initial(s0)
            && s1.row == Row(t1, Some(Sha(t1))) && s1.live == {t1}
            && s3.row == Row(t2, Some(Sha(t1))) && s3.live == {t3} && s3.processes == map[]
  {
    var s0 := State(Row(t0, None), {t0}, map[], {t0}, map[], {}, [t0]);
    assert s0.live - {t0} + {t1} == {t1};
    RotateSteps(s0, t1);
    var s2 := Step(Rotate(s0, t1), Reconnect(t2, true));
    assert s2.live == {t2} && s2.known == {t0, t1, t2};
    RotateSteps(s2, t3);
  }

  /** Process 0 alone fetches, refreshes and persists. */
  function Rotate(s: State, to: Token): State {
    Run(s, [Fetch(0), Refresh(0, Some(to), true), Persist(0)])
  }

  lemma RotateSteps(s: State, to: Token)
    requires s.processes == map[] && s.live == {s.row.token} && to !in s.known
    ensures var s' := Rotate(s, to);
            && s'.live == {to} && s'.processes == map[] && s'.known == s.known + {to}
            && s'.row == if Lands(s.row, s.row.token) then Row(to, Some(Sha(to))) else s.row
  {
    var a, b, c := Fetch(0), Refresh(0, Some(to), true), Persist(0);
    assert [a, b, c][1..] == [b, c] && [b, c][1..] == [c] && [c][1..] == [];
    var s1 := Step(s, a);
    var s2 := Step(s1, b);
    assert s2.processes == map[0 := Refreshed(s.row.token, to)];
    assert s2.live == {to};
    var s3 := Step(s2, c);
    assert s3.processes == map[];
    assert Run(s, [a, b, c]) == Run(s1, [b, c]);
    assert Run(s1, [b, c]) == Run(s2, [c]);
    assert Run(s2, [c]) == Run(s3, []);
  }
}
