/** The compiled-component cache of the workflow executor: entries keyed by path, revalidated
    against the file's stamp (mtime and length), compiled outside the lock, evicted by last use.

    `Cache` holds the three critical sections as methods. Below it, calls of `load` and
    `load_instance_pre` run as separate steps (stat, first lock, compile, second lock, and for
    `load` a third) that interleave with each other and with redeploys in any order. */
module ComponentCache {
  import opened Common

  const COMPONENT_CACHE_MAX: nat := 32

  type Path = string

  datatype Stamp = Stamp(mtime: Option<int>, len: nat)

  /** `content` is the version of the file that was compiled. `of` is the version whose stamp the
      entry carries; the code cannot see it and nothing branches on it. */
  datatype Entry = Entry(stamp: Stamp, of: nat, lastUsed: int, content: nat, command: Option<nat>)

  type Entries = map<Path, Entry>

  // ---------------------------------------------------------------- eviction

  /** `kept` is what an eviction may leave of `before`: no entry without a file, at most the
      maximum, and an entry whose file exists goes only if the cache is then full of entries
      used no earlier. */
  predicate Evicted(before: Entries, present: set<Path>, kept: Entries) {
    && (forall p :: p in kept ==> p in before && kept[p] == before[p] && p in present)
    && |kept| <= COMPONENT_CACHE_MAX
    && (forall p :: p in before && p in present && p !in kept ==>
          && |kept| == COMPONENT_CACHE_MAX
          && forall q :: q in kept ==> before[p].lastUsed <= before[q].lastUsed)
  }

  /** Storing an entry, with the eviction it may cause. */
  predicate Stored(before: Entries, present: set<Path>, path: Path, entry: Entry, after: Entries) {
    var inserted := before[path := entry];
    if |inserted| > COMPONENT_CACHE_MAX then Evicted(inserted, present, after) else after == inserted
  }

  function Touched(entries: Entries, path: Path, now: int): Entries
    requires path in entries
  {
    entries[path := entries[path].(lastUsed := now)]
  }

  predicate Hit(entries: Entries, path: Path, stamp: Stamp) {
    path in entries && entries[path].stamp == stamp
  }

  class Cache {
    var entries: Entries

    constructor()
      ensures entries == map[]
    {
      entries := map[];
    }

    /** The first lock of `load_instance_pre`. */
    method Lookup(path: Path, stamp: Stamp, now: int) returns (found: Option<nat>)
      modifies this
      ensures path in old(entries) && old(entries)[path].stamp == stamp ==>
                && found == Some(old(entries)[path].content)
                && entries.Keys == old(entries).Keys
                && entries[path].lastUsed == now && entries[path] == old(entries)[path].(lastUsed := now)
                && forall q :: q in entries && q != path ==> entries[q] == old(entries)[q]
      ensures !(path in old(entries) && old(entries)[path].stamp == stamp) ==> found == None && entries == old(entries)
    {
      found := None;
      if path in entries && entries[path].stamp == stamp {
        found := Some(entries[path].content);
        entries := entries[path := entries[path].(lastUsed := now)];
      }
    }

    /** The second lock: the entry is stored and the cache is back within its maximum. */
    method Insert(path: Path, entry: Entry, present: set<Path>)
      modifies this
      ensures Stored(old(entries), present, path, entry, entries)
      ensures |entries| <= 32
      ensures path in entries ==> entries[path] == entry
      ensures forall q :: q in entries && q != path ==> q in old(entries) && entries[q] == old(entries)[q]
    {
      entries := entries[path := entry];
      if |entries| > COMPONENT_CACHE_MAX {
        EvictLru(present);
      }
    }

    method EvictLru(present: set<Path>)
      modifies this
      ensures Evicted(old(entries), present, entries)
    {
      entries := map p | p in entries && p in present :: entries[p];
      ghost var backed := entries;
      while |entries| > COMPONENT_CACHE_MAX
        invariant forall p :: p in entries ==> p in backed && entries[p] == backed[p]
        invariant forall p :: p in backed && p !in entries ==>
                    && |entries| >= COMPONENT_CACHE_MAX
                    && forall q :: q in entries ==> backed[p].lastUsed <= backed[q].lastUsed
        decreases |entries|
      {
        var oldest := LeastRecentlyUsed(entries);
        ghost var before := entries;
        entries := entries - {oldest};
        assert before.Keys == entries.Keys + {oldest};
      }
    }

    /** The lock that `load` takes after `load_instance_pre` returned `own`. */
    method CommandFor(path: Path, own: nat) returns (command: nat)
      requires path in entries && entries[path].command.Some? ==> entries[path].command.value == entries[path].content
      modifies this
      ensures command == if path in old(entries) then old(entries)[path].content else own
      ensures entries == WithCommand(old(entries), path)
    {
      if path in entries {
        if entries[path].command.Some? {
          return entries[path].command.value;
        }
        command := entries[path].content;
        entries := entries[path := entries[path].(command := Some(command))];
      } else {
        command := own;
      }
    }
  }

  function WithCommand(entries: Entries, path: Path): Entries {
    if path in entries && entries[path].command.None?
    then entries[path := entries[path].(command := Some(entries[path].content))]
    else entries
  }

  /** Which of several equally old entries goes first is up to the hash order. */
  method LeastRecentlyUsed(entries: Entries) returns (oldest: Path)
    requires |entries| > 0
    ensures oldest in entries
    ensures forall q :: q in entries ==> entries[oldest].lastUsed <= entries[q].lastUsed
  {
    assert entries.Keys != {} by {
      assert |entries.Keys| == |entries|;
    }
    oldest :| oldest in entries.Keys;
    var rest := entries.Keys - {oldest};
    while rest != {}
      invariant oldest in entries && rest <= entries.Keys
      invariant forall q :: q in entries && q !in rest ==> entries[oldest].lastUsed <= entries[q].lastUsed
      decreases |rest|
    {
      var p :| p in rest;
      if entries[p].lastUsed < entries[oldest].lastUsed {
        oldest := p;
      }
      rest := rest - {p};
    }
  }

  // ---------------------------------------------------------------- interleaved calls

  /** A call that is past its stat: which version the file had then, and what it got so far.
      `viaLoad` tells `load` from `load_instance_pre`. */
  datatype Call =
    | Stated(path: Path, viaLoad: bool, version: nat)
    | Missed(path: Path, viaLoad: bool, version: nat)
    | Compiled(path: Path, viaLoad: bool, version: nat, content: nat)
    | Linked(path: Path, viaLoad: bool, version: nat, content: nat)

  datatype Result = Result(viaLoad: bool, version: nat, content: nat)

  /** `versions` is the last version deployed at each path, `present` the paths that exist. */
  datatype State = State(
    versions: map<Path, nat>, present: set<Path>, entries: Entries, now: int,
    calls: map<nat, Call>, results: seq<Result>)

  datatype Action =
    | Deploy(path: Path)
    | Delete(paths: set<Path>)
    | Tick
    | Stat(t: nat, path: Path, viaLoad: bool)
    | FirstLock(t: nat)
    | Compile(t: nat)
    | Fail(t: nat)
    /** `kept` resolves the eviction's choice among equally old entries. */
    | SecondLock(t: nat, kept: set<Path>)
    | Return(t: nat)

  /** The stamp of each version of each path. */
  type Stamps = (Path, nat) -> Stamp

  ghost predicate Distinct(stamps: Stamps) {
    forall p, v, w :: stamps(p, v) == stamps(p, w) ==> v == w
  }

  function NewEntry(s: State, stamps: Stamps, c: Call): Entry
    requires c.Compiled?
  {
    Entry(stamps(c.path, c.version), c.version, s.now, c.content, None)
  }

  /** An action that is not possible in a state changes nothing. */
  function Step(s: State, stamps: Stamps, a: Action): State {
    match a
    case Deploy(p) =>
      s.(versions := s.versions[p := if p in s.versions then s.versions[p] + 1 else 0],
         present := s.present + {p})
    case Delete(paths) => s.(present := s.present - paths)
    case Tick => s.(now := s.now + 1)
    case Stat(t, p, viaLoad) =>
      if t in s.calls || p !in s.present || p !in s.versions then s
      else s.(calls := s.calls[t := Stated(p, viaLoad, s.versions[p])])
    case FirstLock(t) =>
      if t !in s.calls || !s.calls[t].Stated? then s
      else
        var c := s.calls[t];
        if Hit(s.entries, c.path, stamps(c.path, c.version))
        then s.(entries := Touched(s.entries, c.path, s.now),
                calls := s.calls[t := Linked(c.path, c.viaLoad, c.version, s.entries[c.path].content)])
        else s.(calls := s.calls[t := Missed(c.path, c.viaLoad, c.version)])
    case Compile(t) =>
      if t !in s.calls || !s.calls[t].Missed? || s.calls[t].path !in s.present
         || s.calls[t].path !in s.versions then s
      else
        var c := s.calls[t];
        s.(calls := s.calls[t := Compiled(c.path, c.viaLoad, c.version, s.versions[c.path])])
    case Fail(t) => s.(calls := s.calls - {t})
    case SecondLock(t, kept) =>
      if t !in s.calls || !s.calls[t].Compiled? then s
      else
        var c := s.calls[t];
        var inserted := s.entries[c.path := NewEntry(s, stamps, c)];
        var after := map p | p in inserted && p in kept :: inserted[p];
        if !Stored(s.entries, s.present, c.path, NewEntry(s, stamps, c), after) then s
        else s.(entries := after, calls := s.calls[t := Linked(c.path, c.viaLoad, c.version, c.content)])
    case Return(t) =>
      if t !in s.calls || !s.calls[t].Linked? then s
      else
        var c := s.calls[t];
        var done := s.(calls := s.calls - {t});
        if !c.viaLoad then done.(results := s.results + [Result(false, c.version, c.content)])
        else
          var command := if c.path !in s.entries then c.content
                         else if s.entries[c.path].command.Some? then s.entries[c.path].command.value
                         else s.entries[c.path].content;
          done.(entries := WithCommand(s.entries, c.path),
                results := s.results + [Result(true, c.version, command)])
  }

  function Run(s: State, stamps: Stamps, actions: seq<Action>): State
    decreases actions
  {
    if actions == [] then s else Run(Step(s, stamps, actions[0]), stamps, actions[1..])
  }

  const EMPTY: State := State(map[], {}, map[], 0, map[], [])

  // ---------------------------------------------------------------- the invariant

  /** Content is at least as new as the stamp, exists, and the command wraps it. */
  ghost predicate EntryOk(s: State, stamps: Stamps, p: Path, e: Entry) {
    && e.stamp == stamps(p, e.of)
    && p in s.versions && e.of <= e.content <= s.versions[p]
    && (e.command.Some? ==> e.command.value == e.content)
  }

  ghost predicate CallOk(s: State, c: Call) {
    && c.path in s.versions && c.version <= s.versions[c.path]
    && (c.Compiled? || c.Linked? ==> c.version <= c.content <= s.versions[c.path])
  }

  /** What `load_instance_pre` returned is at least as new as the file was at its stat. */
  ghost predicate AllFresh(s: State) {
    forall i :: 0 <= i < |s.results| && !s.results[i].viaLoad ==> s.results[i].version <= s.results[i].content
  }

  ghost predicate Inv(s: State, stamps: Stamps) {
    && (forall p :: p in s.entries ==> EntryOk(s, stamps, p, s.entries[p]))
    && (forall t :: t in s.calls ==> CallOk(s, s.calls[t]))
    && |s.entries| <= COMPONENT_CACHE_MAX
    && AllFresh(s)
  }

  lemma KeepOthers(s: State, stamps: Stamps, a: Action)
    requires Inv(s, stamps)
    ensures var s' := Step(s, stamps, a);
            && (forall p :: p in s.entries ==> EntryOk(s', stamps, p, s.entries[p]))
            && (forall t :: t in s.calls ==> CallOk(s', s.calls[t]))
  {
  }

  lemma UpdateKeepsSize<K, V>(m: map<K, V>, k: K, v: V)
    requires k in m
    ensures |m[k := v]| == |m|
  {
  }

  lemma SecondLockKeepsInv(s: State, stamps: Stamps, t: nat, kept: set<Path>)
    requires Inv(s, stamps)
    ensures Inv(Step(s, stamps, SecondLock(t, kept)), stamps)
  {
  }

  lemma ReturnKeepsInv(s: State, stamps: Stamps, t: nat)
    requires Inv(s, stamps)
    ensures Inv(Step(s, stamps, Return(t)), stamps)
  {
    KeepOthers(s, stamps, Return(t));
    var s' := Step(s, stamps, Return(t));
    if t in s.calls && s.calls[t].Linked? {
      var c := s.calls[t];
      if c.path in s.entries {
        UpdateKeepsSize(s.entries, c.path, s.entries[c.path].(command := Some(s.entries[c.path].content)));
      }
      forall i | 0 <= i < |s'.results| && !s'.results[i].viaLoad
        ensures s'.results[i].version <= s'.results[i].content
      {
        if i < |s.results| {
          assert s'.results[i] == s.results[i];
        }
      }
    }
  }

  lemma FirstLockKeepsInv(s: State, stamps: Stamps, t: nat)
    requires Inv(s, stamps) && Distinct(stamps)
    ensures Inv(Step(s, stamps, FirstLock(t)), stamps)
  {
  }

  lemma StepKeepsInv(s: State, stamps: Stamps, a: Action)
    requires Inv(s, stamps) && Distinct(stamps)
    ensures Inv(Step(s, stamps, a), stamps)
  {
    match a
    case SecondLock(t, kept) => SecondLockKeepsInv(s, stamps, t, kept);
    case Return(t) => ReturnKeepsInv(s, stamps, t);
    case FirstLock(t) => FirstLockKeepsInv(s, stamps, t);
    case _ => OtherStepKeepsInv(s, stamps, a);
  }

  lemma OtherStepKeepsInv(s: State, stamps: Stamps, a: Action)
    requires Inv(s, stamps) && !a.SecondLock? && !a.Return? && !a.FirstLock?
    ensures Inv(Step(s, stamps, a), stamps)
  {
    KeepOthers(s, stamps, a);
    if a.Stat? || a.Compile? {
      CallStepKeepsInv(s, stamps, a);
    }
  }

  lemma CallStepKeepsInv(s: State, stamps: Stamps, a: Action)
    requires Inv(s, stamps) && (a.Stat? || a.Compile?)
    ensures Inv(Step(s, stamps, a), stamps)
  {
    var s' := Step(s, stamps, a);
    assert s'.entries == s.entries && s'.results == s.results && s'.versions == s.versions;
    assert forall t :: t in s'.calls ==> t == a.t || (t in s.calls && s'.calls[t] == s.calls[t]);
  }

  /** In every interleaving of loaders and redeploys: the cache never holds more than 32 entries,
      an entry's content is at least as new as its stamp, a cached command wraps its own entry's
      component, and every component returned by `load_instance_pre` is at least as new as the
      file was when the call took its stat. */
  lemma {:induction false} LoadInstancePreIsFresh(s: State, stamps: Stamps, actions: seq<Action>)
    requires Inv(s, stamps) && Distinct(stamps)
    ensures Inv(Run(s, stamps, actions), stamps)
    decreases actions
  {
    if actions == [] {
    } else {
      StepKeepsInv(s, stamps, actions[0]);
      LoadInstancePreIsFresh(Step(s, stamps, actions[0]), stamps, actions[1..]);
    }
  }

  // ---------------------------------------------------------------- what `load` adds

  /** What `Return(t)` answers is at least as new as the file was at the call's stat. */
  ghost predicate AnswersFresh(s: State, stamps: Stamps, t: nat) {
    var s' := Step(s, stamps, Return(t));
    |s'.results| == |s.results| + 1 && s'.results[|s.results|].version <= s'.results[|s.results|].content
  }

  /** The actions neither answer the call nor let it fail. */
  predicate Continues(actions: seq<Action>, t: nat) {
    forall i :: 0 <= i < |actions| ==> actions[i] != Return(t) && actions[i] != Fail(t)
  }

  /** However the other loaders and the files go on, the call answers with a fresh component. */
  ghost predicate AlwaysFresh(s: State, stamps: Stamps, t: nat) {
    forall actions :: Continues(actions, t) ==>
      var s' := Run(s, stamps, actions);
      t in s'.calls && s'.calls[t].Linked? ==> AnswersFresh(s', stamps, t)
  }

  /** No call at the same path holds a compiled component older than this call's stat, nor, once this
      call has its own component, does the cache. For a call that has just taken its stat the second
      part is void. */
  predicate NoneOlder(s: State, t: nat)
    requires t in s.calls
  {
    var c := s.calls[t];
    && (forall u :: u in s.calls && s.calls[u].Compiled? && s.calls[u].path == c.path ==>
          c.version <= s.calls[u].content)
    && (c.Linked? && c.path in s.entries ==> c.version <= s.entries[c.path].content)
  }

  predicate SameCall(c: Call, d: Call) {
    c.path == d.path && c.viaLoad == d.viaLoad && c.version == d.version
  }

  lemma StepKeepsNoneOlder(s: State, stamps: Stamps, a: Action, t: nat)
    requires Inv(s, stamps) && Distinct(stamps) && t in s.calls && NoneOlder(s, t)
    requires a != Return(t) && a != Fail(t)
    ensures var s' := Step(s, stamps, a);
            t in s'.calls && SameCall(s.calls[t], s'.calls[t]) && NoneOlder(s', t)
  {
    if a.SecondLock? {
      StoreKeepsNoneOlder(s, stamps, a.t, a.kept, t);
    }
  }

  lemma StoreKeepsNoneOlder(s: State, stamps: Stamps, u: nat, kept: set<Path>, t: nat)
    requires Inv(s, stamps) && t in s.calls && NoneOlder(s, t)
    ensures var s' := Step(s, stamps, SecondLock(u, kept));
            t in s'.calls && SameCall(s.calls[t], s'.calls[t]) && NoneOlder(s', t)
  {
    var s' := Step(s, stamps, SecondLock(u, kept));
    if s' != s {
      var inserted := s.entries[s.calls[u].path := NewEntry(s, stamps, s.calls[u])];
      assert forall p :: p in s'.entries ==> p in inserted && s'.entries[p] == inserted[p];
    }
  }

  lemma {:induction false} RunKeepsNoneOlder(s: State, stamps: Stamps, actions: seq<Action>, t: nat)
    requires Inv(s, stamps) && Distinct(stamps) && t in s.calls && NoneOlder(s, t) && Continues(actions, t)
    ensures var s' := Run(s, stamps, actions);
            Inv(s', stamps) && t in s'.calls && SameCall(s.calls[t], s'.calls[t]) && NoneOlder(s', t)
    decreases actions
  {
    if actions == [] {
    } else {
      StepKeepsInv(s, stamps, actions[0]);
      StepKeepsNoneOlder(s, stamps, actions[0], t);
      RunKeepsNoneOlder(Step(s, stamps, actions[0]), stamps, actions[1..], t);
    }
  }

  /** The exact condition for `load`: with distinct stamps, a call at any point is fresh in every
      continuation exactly when no call at its path holds an older compiled component. */
  lemma LoadIsFreshIff(s: State, stamps: Stamps, t: nat)
    requires Inv(s, stamps) && Distinct(stamps) && t in s.calls && s.calls[t].viaLoad
    ensures AlwaysFresh(s, stamps, t) <==> NoneOlder(s, t)
  {
    if NoneOlder(s, t) {
      forall actions | Continues(actions, t)
        ensures var s' := Run(s, stamps, actions);
                t in s'.calls && s'.calls[t].Linked? ==> AnswersFresh(s', stamps, t)
      {
        RunKeepsNoneOlder(s, stamps, actions, t);
      }
    } else {
      var actions := OlderStoreGoesStale(s, stamps, t);
      assert !AnswersFresh(Run(s, stamps, actions), stamps, t);
    }
  }

  /** Seen from the call's stat: `load` is fresh in every continuation exactly when every component
      compiled for the path and not yet stored is of the version now deployed. */
  lemma LoadAtStatIsFreshIff(s: State, stamps: Stamps, t: nat, p: Path)
    requires Inv(s, stamps) && Distinct(stamps) && t !in s.calls && p in s.present && p in s.versions
    ensures AlwaysFresh(Step(s, stamps, Stat(t, p, true)), stamps, t)
            <==> forall u :: u in s.calls && s.calls[u].Compiled? && s.calls[u].path == p ==>
                   s.calls[u].content == s.versions[p]
  {
    var s' := Step(s, stamps, Stat(t, p, true));
    StepKeepsInv(s, stamps, Stat(t, p, true));
    LoadIsFreshIff(s', stamps, t);
    assert forall u :: u in s.calls ==> u in s'.calls && s'.calls[u] == s.calls[u] && CallOk(s, s.calls[u]);
    assert forall u :: u in s'.calls && u != t ==> u in s.calls;
  }

  /** A `load` that answers from the cache leaves its command there for the next one, and answers with the
      component of that entry; without an entry it answers with its own and leaves nothing. */
  lemma LoadRemembersCommand(s: State, stamps: Stamps, t: nat)
    requires Inv(s, stamps) && t in s.calls && s.calls[t].Linked? && s.calls[t].viaLoad
    ensures var s', c := Step(s, stamps, Return(t)), s.calls[t];
            && t !in s'.calls && s'.entries.Keys == s.entries.Keys
            && (c.path in s.entries ==>
                  && s'.entries[c.path] == s.entries[c.path].(command := Some(s.entries[c.path].content))
                  && s'.results == s.results + [Result(true, c.version, s.entries[c.path].content)])
            && (c.path !in s.entries ==> s'.results == s.results + [Result(true, c.version, c.content)])
            && (forall q :: q in s.entries && q != c.path ==> s'.entries[q] == s.entries[q])
  {
  }

  predicate OnlyProgress(actions: seq<Action>) {
    forall i :: 0 <= i < |actions| ==> !actions[i].Return? && !actions[i].Fail?
  }

  /** A compiled component can always get into the cache, if need be after other files have gone. */
  lemma Storing(s: State, stamps: Stamps, t: nat) returns (actions: seq<Action>)
    requires Inv(s, stamps) && t in s.calls && s.calls[t].Compiled?
    ensures OnlyProgress(actions)
    ensures var s', c := Run(s, stamps, actions), s.calls[t];
            && s'.calls == s.calls[t := Linked(c.path, c.viaLoad, c.version, c.content)]
            && c.path in s'.entries && s'.entries[c.path].content == c.content
  {
    var c := s.calls[t];
    var inserted := s.entries[c.path := NewEntry(s, stamps, c)];
    if |inserted| <= COMPONENT_CACHE_MAX {
      actions := [SecondLock(t, inserted.Keys)];
      StoreWithRoom(s, stamps, t, inserted);
      RunCons(s, stamps, actions[0], []);
    } else {
      actions := [Delete(s.present - {c.path}), Deploy(c.path), SecondLock(t, {c.path})];
      var s1 := Step(s, stamps, actions[0]);
      var s2 := Step(s1, stamps, actions[1]);
      StoreAmongGone(s2, stamps, t);
      RunCons(s2, stamps, actions[2], []);
      RunCons(s1, stamps, actions[1], [actions[2]]);
      RunCons(s, stamps, actions[0], [actions[1], actions[2]]);
    }
  }

  lemma StoreWithRoom(s: State, stamps: Stamps, t: nat, inserted: Entries)
    requires t in s.calls && s.calls[t].Compiled?
    requires inserted == s.entries[s.calls[t].path := NewEntry(s, stamps, s.calls[t])]
    requires |inserted| <= COMPONENT_CACHE_MAX
    ensures var s', c := Step(s, stamps, SecondLock(t, inserted.Keys)), s.calls[t];
            && s'.calls == s.calls[t := Linked(c.path, c.viaLoad, c.version, c.content)]
            && c.path in s'.entries && s'.entries[c.path].content == c.content
  {
    assert (map q | q in inserted && q in inserted.Keys :: inserted[q]) == inserted;
  }

  lemma StoreAmongGone(s: State, stamps: Stamps, t: nat)
    requires t in s.calls && s.calls[t].Compiled? && s.present == {s.calls[t].path}
    requires |s.entries[s.calls[t].path := NewEntry(s, stamps, s.calls[t])]| > COMPONENT_CACHE_MAX
    ensures var s', c := Step(s, stamps, SecondLock(t, {s.calls[t].path})), s.calls[t];
            && s'.calls == s.calls[t := Linked(c.path, c.viaLoad, c.version, c.content)]
            && c.path in s'.entries && s'.entries[c.path].content == c.content
  {
    var c := s.calls[t];
    var inserted := s.entries[c.path := NewEntry(s, stamps, c)];
    var kept := {c.path};
    var after := map q | q in inserted && q in kept :: inserted[q];
    assert after.Keys == kept && |after| == |after.Keys|;
    assert Evicted(inserted, s.present, after);
  }

  /** Call t has got its component while call u stayed where it was. */
  ghost predicate GotLinked(s: State, s': State, stamps: Stamps, t: nat, u: nat)
    requires t in s.calls && u in s.calls
  {
    && Inv(s', stamps)
    && t in s'.calls && s'.calls[t].Linked? && SameCall(s.calls[t], s'.calls[t])
    && u in s'.calls && s'.calls[u] == s.calls[u]
  }

  lemma LinkingCompiled(s: State, stamps: Stamps, t: nat, u: nat) returns (actions: seq<Action>)
    requires Inv(s, stamps) && Distinct(stamps) && t in s.calls && s.calls[t].Compiled? && u in s.calls && t != u
    ensures OnlyProgress(actions) && GotLinked(s, Run(s, stamps, actions), stamps, t, u)
  {
    actions := Storing(s, stamps, t);
    LoadInstancePreIsFresh(s, stamps, actions);
  }

  lemma LinkingMissed(s: State, stamps: Stamps, t: nat, u: nat) returns (actions: seq<Action>)
    requires Inv(s, stamps) && Distinct(stamps) && t in s.calls && s.calls[t].Missed? && u in s.calls && t != u
    ensures OnlyProgress(actions) && GotLinked(s, Run(s, stamps, actions), stamps, t, u)
  {
    var compile := [Deploy(s.calls[t].path), Compile(t)];
    CompilingAfterDeploy(s, stamps, t, compile);
    var rest := LinkingCompiled(Run(s, stamps, compile), stamps, t, u);
    actions := compile + rest;
    RunConcat(s, stamps, compile, rest);
  }

  lemma CompilingAfterDeploy(s: State, stamps: Stamps, t: nat, compile: seq<Action>)
    requires Inv(s, stamps) && Distinct(stamps) && t in s.calls && s.calls[t].Missed?
    requires compile == [Deploy(s.calls[t].path), Compile(t)]
    ensures var c, s' := s.calls[t], Run(s, stamps, compile);
            && Inv(s', stamps) && c.path in s'.versions
            && s'.calls == s.calls[t := Compiled(c.path, c.viaLoad, c.version, s'.versions[c.path])]
  {
    var s1 := Step(s, stamps, compile[0]);
    LoadInstancePreIsFresh(s, stamps, compile);
    RunCons(s, stamps, compile[0], [compile[1]]);
    RunCons(s1, stamps, compile[1], []);
  }

  /** A call can always get its component while another one waits to store its own. */
  lemma Linking(s: State, stamps: Stamps, t: nat, u: nat) returns (actions: seq<Action>)
    requires Inv(s, stamps) && Distinct(stamps) && t in s.calls && u in s.calls && t != u
    ensures OnlyProgress(actions) && GotLinked(s, Run(s, stamps, actions), stamps, t, u)
  {
    if s.calls[t].Linked? {
      actions := [];
    } else if s.calls[t].Compiled? {
      actions := LinkingCompiled(s, stamps, t, u);
    } else if s.calls[t].Missed? {
      actions := LinkingMissed(s, stamps, t, u);
    } else {
      var s1 := Step(s, stamps, FirstLock(t));
      StepKeepsInv(s, stamps, FirstLock(t));
      var rest := [];
      if s1.calls[t].Missed? {
        rest := LinkingMissed(s1, stamps, t, u);
      }
      actions := [FirstLock(t)] + rest;
      RunCons(s, stamps, FirstLock(t), rest);
    }
  }

  lemma RunCons(s: State, stamps: Stamps, a: Action, rest: seq<Action>)
    ensures Run(s, stamps, [a] + rest) == Run(Step(s, stamps, a), stamps, rest)
  {
    assert ([a] + rest)[1..] == rest;
  }

  /** Otherwise there is a continuation in which `load` answers with the older component: the call gets
      its own, the holder of the older one stores it, and the last lock finds that. */
  lemma OlderStoreGoesStale(s: State, stamps: Stamps, t: nat) returns (actions: seq<Action>)
    requires Inv(s, stamps) && Distinct(stamps) && t in s.calls && s.calls[t].viaLoad && !NoneOlder(s, t)
    ensures Continues(actions, t)
    ensures var s' := Run(s, stamps, actions);
            t in s'.calls && s'.calls[t].Linked? && !AnswersFresh(s', stamps, t)
  {
    var c := s.calls[t];
    if c.Linked? && c.path in s.entries && s.entries[c.path].content < c.version {
      actions := [];
      CachedIsAnswered(s, stamps, t);
    } else {
      var u :| u in s.calls && s.calls[u].Compiled? && s.calls[u].path == c.path && s.calls[u].content < c.version;
      var link := Linking(s, stamps, t, u);
      var s1 := Run(s, stamps, link);
      var store := Storing(s1, stamps, u);
      actions := link + store;
      RunConcat(s, stamps, link, store);
      LoadInstancePreIsFresh(s1, stamps, store);
      CachedIsAnswered(Run(s1, stamps, store), stamps, t);
    }
  }

  lemma CachedIsAnswered(s: State, stamps: Stamps, t: nat)
    requires Inv(s, stamps) && t in s.calls && s.calls[t].Linked? && s.calls[t].viaLoad
    requires s.calls[t].path in s.entries && s.entries[s.calls[t].path].content < s.calls[t].version
    ensures !AnswersFresh(s, stamps, t)
  {
  }

  /** The shortest such run: a slow loader that compiled before a redeploy overwrites the fresh entry,
      and a `load` that took its stat after the redeploy returns the old component. */
  lemma StaleLoadExample(stamps: Stamps, p: Path)
    requires Distinct(stamps)
    ensures exists actions :: Run(EMPTY, stamps, actions).results == [Result(true, 1, 0)]
  {
    var slow := [Deploy(p), Stat(0, p, true), FirstLock(0), Compile(0)];
    var quick := [Deploy(p), Stat(1, p, true), FirstLock(1), Compile(1), SecondLock(1, {p})];
    var last := [SecondLock(0, {p}), Return(1)];
    var s1 := State(map[p := 0], {p}, map[], 0, map[0 := Compiled(p, true, 0, 0)], []);
    SlowLoader(stamps, p, slow, s1);
    var fresh' := Entry(stamps(p, 1), 1, 0, 1, None);
    var s2 := State(map[p := 1], {p}, map[p := fresh'], 0,
                    map[0 := Compiled(p, true, 0, 0), 1 := Linked(p, true, 1, 1)], []);
    QuickLoader(stamps, p, s1, quick, s2);
    LastSteps(stamps, p, s2, last);
    RunThrough(EMPTY, stamps, slow, quick, last, s1, s2);
    assert Run(EMPTY, stamps, slow + quick + last).results == [Result(true, 1, 0)];
  }

  lemma {:induction false} RunConcat(s: State, stamps: Stamps, a: seq<Action>, b: seq<Action>)
    ensures Run(s, stamps, a + b) == Run(Run(s, stamps, a), stamps, b)
    decreases a
  {
    if a == [] {
      assert a + b == b;
    } else {
      assert (a + b)[1..] == a[1..] + b;
      RunConcat(Step(s, stamps, a[0]), stamps, a[1..], b);
    }
  }

  lemma RunThrough(s0: State, stamps: Stamps, a: seq<Action>, b: seq<Action>, c: seq<Action>, s1: State, s2: State)
    requires Run(s0, stamps, a) == s1 && Run(s1, stamps, b) == s2
    ensures Run(s0, stamps, a + b + c) == Run(s2, stamps, c)
  {
    RunConcat(s0, stamps, a, b);
    RunConcat(s0, stamps, a + b, c);
  }

  /** Storing at a path that is the only one, if any, in the cache. */
  lemma StoreAlone(s: State, stamps: Stamps, t: nat, p: Path)
    requires t in s.calls && s.calls[t].Compiled? && s.calls[t].path == p
    requires forall q :: q in s.entries ==> q == p
    ensures var c := s.calls[t];
            Step(s, stamps, SecondLock(t, {p}))
            == s.(entries := map[p := NewEntry(s, stamps, c)],
                  calls := s.calls[t := Linked(p, c.viaLoad, c.version, c.content)])
  {
    var c := s.calls[t];
    var inserted := s.entries[p := NewEntry(s, stamps, c)];
    assert inserted == map[p := NewEntry(s, stamps, c)];
    assert inserted.Keys == {p};
    assert (map q | q in inserted && q in {p} :: inserted[q]) == inserted;
  }

  lemma SlowLoader(stamps: Stamps, p: Path, slow: seq<Action>, end: State)
    requires slow == [Deploy(p), Stat(0, p, true), FirstLock(0), Compile(0)]
    requires end == State(map[p := 0], {p}, map[], 0, map[0 := Compiled(p, true, 0, 0)], [])
    ensures Run(EMPTY, stamps, slow) == end
  {
    var s1 := Step(EMPTY, stamps, slow[0]);
    var s2 := Step(s1, stamps, slow[1]);
    assert s2.calls == map[0 := Stated(p, true, 0)];
    var s3 := Step(s2, stamps, slow[2]);
    assert s3.calls == map[0 := Missed(p, true, 0)];
    var s4 := Step(s3, stamps, slow[3]);
    assert s4.calls == map[0 := Compiled(p, true, 0, 0)];
    assert s4 == end;
    assert slow[1..] == [slow[1], slow[2], slow[3]] && slow[1..][1..] == [slow[2], slow[3]];
    assert Run(s2, stamps, [slow[2], slow[3]]) == Run(s3, stamps, [slow[3]]);
    assert Run(s3, stamps, [slow[3]]) == s4;
  }

  lemma QuickLoader(stamps: Stamps, p: Path, start: State, quick: seq<Action>, end: State)
    requires Distinct(stamps)
    requires start == State(map[p := 0], {p}, map[], 0, map[0 := Compiled(p, true, 0, 0)], [])
    requires quick == [Deploy(p), Stat(1, p, true), FirstLock(1), Compile(1), SecondLock(1, {p})]
    requires end == State(map[p := 1], {p}, map[p := Entry(stamps(p, 1), 1, 0, 1, None)], 0,
                          map[0 := Compiled(p, true, 0, 0), 1 := Linked(p, true, 1, 1)], [])
    ensures Run(start, stamps, quick) == end
  {
    var c := Compiled(p, true, 0, 0);
    var miss, store := [Deploy(p), Stat(1, p, true), FirstLock(1)], [Compile(1), SecondLock(1, {p})];
    var middle := State(map[p := 1], {p}, map[], 0, map[0 := c, 1 := Missed(p, true, 1)], []);
    QuickMiss(stamps, p, start, miss, middle);
    QuickStore(stamps, p, middle, store, end);
    RunConcat(start, stamps, miss, store);
    assert quick == miss + store;
  }

  lemma QuickMiss(stamps: Stamps, p: Path, start: State, a: seq<Action>, end: State)
    requires start == State(map[p := 0], {p}, map[], 0, map[0 := Compiled(p, true, 0, 0)], [])
    requires a == [Deploy(p), Stat(1, p, true), FirstLock(1)]
    requires end == State(map[p := 1], {p}, map[], 0, map[0 := Compiled(p, true, 0, 0), 1 := Missed(p, true, 1)], [])
    ensures Run(start, stamps, a) == end
  {
    var s1 := Step(start, stamps, a[0]);
    var s2 := Step(s1, stamps, a[1]);
    assert s2.calls == map[0 := Compiled(p, true, 0, 0), 1 := Stated(p, true, 1)];
    var s3 := Step(s2, stamps, a[2]);
    assert s3 == end;
    assert a[1..] == [a[1], a[2]] && a[1..][1..] == [a[2]];
    assert Run(s2, stamps, [a[2]]) == s3;
  }

  lemma QuickStore(stamps: Stamps, p: Path, start: State, a: seq<Action>, end: State)
    requires start == State(map[p := 1], {p}, map[], 0, map[0 := Compiled(p, true, 0, 0), 1 := Missed(p, true, 1)], [])
    requires a == [Compile(1), SecondLock(1, {p})]
    requires end == State(map[p := 1], {p}, map[p := Entry(stamps(p, 1), 1, 0, 1, None)], 0,
                          map[0 := Compiled(p, true, 0, 0), 1 := Linked(p, true, 1, 1)], [])
    ensures Run(start, stamps, a) == end
  {
    var s1 := Step(start, stamps, a[0]);
    assert s1.calls == map[0 := Compiled(p, true, 0, 0), 1 := Compiled(p, true, 1, 1)];
    var s2 := Step(s1, stamps, a[1]);
    StoreAlone(s1, stamps, 1, p);
    assert s2 == end;
    assert a[1..] == [a[1]];
    assert Run(s1, stamps, [a[1]]) == s2;
  }

  lemma LastSteps(stamps: Stamps, p: Path, start: State, last: seq<Action>)
    requires start == State(map[p := 1], {p}, map[p := Entry(stamps(p, 1), 1, 0, 1, None)], 0,
                            map[0 := Compiled(p, true, 0, 0), 1 := Linked(p, true, 1, 1)], [])
    requires last == [SecondLock(0, {p}), Return(1)]
    ensures Run(start, stamps, last).results == [Result(true, 1, 0)]
  {
    var s1 := Step(start, stamps, last[0]);
    StoreAlone(start, stamps, 0, p);
    assert s1.entries == map[p := Entry(stamps(p, 0), 0, 0, 0, None)];
    var s2 := Step(s1, stamps, last[1]);
    assert s2.results == [Result(true, 1, 0)];
    assert Run(start, stamps, last) == Run(s1, stamps, [last[1]]);
    assert Run(s1, stamps, [last[1]]) == s2;
  }

  // ---------------------------------------------------------------- what was used when

  /** The action is a use of the path: a hit at the first lock, or a store at the second. */
  ghost predicate Uses(s: State, stamps: Stamps, a: Action, p: Path) {
    || (a.FirstLock? && a.t in s.calls && s.calls[a.t].Stated? && s.calls[a.t].path == p
        && p in s.entries && s.entries[p].stamp == stamps(p, s.calls[a.t].version))
    || (a.SecondLock? && a.t in s.calls && s.calls[a.t].Compiled? && s.calls[a.t].path == p
        && a.t in Step(s, stamps, a).calls && Step(s, stamps, a).calls[a.t].Linked?)
  }

  /** The clock reading of the last use of a path in a run from the empty cache. */
  ghost function LastUse(stamps: Stamps, actions: seq<Action>, p: Path): Option<int> {
    if actions == [] then None
    else
      var front, last := actions[..|actions| - 1], actions[|actions| - 1];
      var s := Run(EMPTY, stamps, front);
      if Uses(s, stamps, last, p) then Some(s.now) else LastUse(stamps, front, p)
  }

  lemma RunSnoc(s: State, stamps: Stamps, actions: seq<Action>)
    requires actions != []
    ensures Run(s, stamps, actions)
            == Step(Run(s, stamps, actions[..|actions| - 1]), stamps, actions[|actions| - 1])
  {
    var front, last := actions[..|actions| - 1], actions[|actions| - 1];
    assert actions == front + [last];
    RunConcat(s, stamps, front, [last]);
    RunCons(Run(s, stamps, front), stamps, last, []);
  }

  /** A use sets the entry's time to the clock, and nothing else does. */
  lemma UseSetsTime(s: State, stamps: Stamps, a: Action, p: Path)
    requires p in Step(s, stamps, a).entries
    ensures if Uses(s, stamps, a, p) then Step(s, stamps, a).entries[p].lastUsed == s.now
            else p in s.entries && Step(s, stamps, a).entries[p].lastUsed == s.entries[p].lastUsed
  {
    if a.SecondLock? && a.t in s.calls && s.calls[a.t].Compiled? {
      StoreSetsTime(s, stamps, a.t, a.kept, p);
    }
  }

  lemma StoreSetsTime(s: State, stamps: Stamps, t: nat, kept: set<Path>, p: Path)
    requires t in s.calls && s.calls[t].Compiled? && p in Step(s, stamps, SecondLock(t, kept)).entries
    ensures var s' := Step(s, stamps, SecondLock(t, kept));
            if Uses(s, stamps, SecondLock(t, kept), p) then s'.entries[p].lastUsed == s.now
            else p in s.entries && s'.entries[p].lastUsed == s.entries[p].lastUsed
  {
    var s' := Step(s, stamps, SecondLock(t, kept));
    var inserted := s.entries[s.calls[t].path := NewEntry(s, stamps, s.calls[t])];
    assert s' == s || (p in inserted && s'.entries[p] == inserted[p] && s'.calls[t].Linked?);
  }

  /** In every run, an entry's time is the clock reading of the last use of its path. */
  lemma {:induction false} TimeIsLastUse(stamps: Stamps, actions: seq<Action>, p: Path)
    requires p in Run(EMPTY, stamps, actions).entries
    ensures LastUse(stamps, actions, p) == Some(Run(EMPTY, stamps, actions).entries[p].lastUsed)
    decreases |actions|
  {
    if actions == [] {
    } else {
      var front, last := actions[..|actions| - 1], actions[|actions| - 1];
      var s := Run(EMPTY, stamps, front);
      RunSnoc(EMPTY, stamps, actions);
      UseSetsTime(s, stamps, last, p);
      if !Uses(s, stamps, last, p) {
        TimeIsLastUse(stamps, front, p);
      }
    }
  }

  /** Whatever step of whatever run drops an entry whose file exists: its last use was no later than that
      of every entry kept, and 32 are kept. */
  lemma EvictedWereUsedEarlier(stamps: Stamps, actions: seq<Action>, p: Path, q: Path)
    requires actions != []
    requires var s := Run(EMPTY, stamps, actions[..|actions| - 1]);
             var s' := Run(EMPTY, stamps, actions);
             p in s.entries && p in s.present && p !in s'.entries && q in s'.entries
    ensures |Run(EMPTY, stamps, actions).entries| == 32
    ensures var evicted, kept := LastUse(stamps, actions, p), LastUse(stamps, actions, q);
            evicted.Some? && kept.Some? && evicted.value <= kept.value
  {
    var front, last := actions[..|actions| - 1], actions[|actions| - 1];
    var s := Run(EMPTY, stamps, front);
    RunSnoc(EMPTY, stamps, actions);
    TimeIsLastUse(stamps, front, p);
    TimeIsLastUse(stamps, actions, q);
    DroppedByStore(s, stamps, last, p, q);
  }

  lemma DroppedByStore(s: State, stamps: Stamps, a: Action, p: Path, q: Path)
    requires var s' := Step(s, stamps, a); p in s.entries && p in s.present && p !in s'.entries && q in s'.entries
    ensures |Step(s, stamps, a).entries| == 32
    ensures (if Uses(s, stamps, a, p) then s.now else s.entries[p].lastUsed) <= Step(s, stamps, a).entries[q].lastUsed
  {
    var s' := Step(s, stamps, a);
    assert a.SecondLock?;
    var c := s.calls[a.t];
    var inserted := s.entries[c.path := NewEntry(s, stamps, c)];
    assert p in inserted && q in inserted && s'.entries[q] == inserted[q];
  }

  // ---------------------------------------------------------------- stamps must be distinct

  /** Revalidating by stamp keeps `load_instance_pre` fresh in every run exactly when no two
      versions of a file share a stamp. */
  lemma FreshnessIffDistinct(stamps: Stamps)
    ensures (forall actions :: AllFresh(Run(EMPTY, stamps, actions))) <==> Distinct(stamps)
  {
    if Distinct(stamps) {
      forall actions
        ensures AllFresh(Run(EMPTY, stamps, actions))
      {
        LoadInstancePreIsFresh(EMPTY, stamps, actions);
      }
    } else {
      var p, v, w :| stamps(p, v) == stamps(p, w) && v != w;
      var actions := if v < w then Collide(p, v, w) else Collide(p, w, v);
      if v < w {
        CollidingStampsGoStale(stamps, p, v, w);
      } else {
        CollidingStampsGoStale(stamps, p, w, v);
      }
      var s := Run(EMPTY, stamps, actions);
      assert !s.results[1].viaLoad && s.results[1].version > s.results[1].content;
      assert !AllFresh(s);
    }
  }

  function Deploys(p: Path, n: nat): seq<Action> { seq(n, _ => Deploy(p)) }

  function FirstCall(p: Path): seq<Action> {
    [Stat(0, p, false), FirstLock(0), Compile(0), SecondLock(0, {p}), Return(0)]
  }

  function SecondCall(p: Path): seq<Action> { [Stat(0, p, false), FirstLock(0), Return(0)] }

  /** Deploy up to version v, load, deploy up to version w, load again. */
  function Collide(p: Path, v: nat, w: nat): seq<Action>
    requires v < w
  {
    Deploys(p, v + 1) + FirstCall(p) + Deploys(p, w - v) + SecondCall(p)
  }

  lemma {:induction false} RunDeploys(s: State, stamps: Stamps, p: Path, n: nat)
    requires p in s.versions && p in s.present
    ensures Run(s, stamps, Deploys(p, n)) == s.(versions := s.versions[p := s.versions[p] + n])
    decreases n
  {
    if n == 0 {
      assert s.versions[p := s.versions[p]] == s.versions;
    } else {
      var s1 := Step(s, stamps, Deploy(p));
      assert s1.present == s.present;
      assert Deploys(p, n)[1..] == Deploys(p, n - 1);
      RunDeploys(s1, stamps, p, n - 1);
      assert s1.versions[p := s1.versions[p] + (n - 1)] == s.versions[p := s.versions[p] + n];
    }
  }

  lemma CollidingStampsGoStale(stamps: Stamps, p: Path, v: nat, w: nat)
    requires v < w && stamps(p, v) == stamps(p, w)
    ensures Run(EMPTY, stamps, Collide(p, v, w)).results == [Result(false, v, v), Result(false, w, v)]
  {
    var s1 := State(map[p := v], {p}, map[], 0, map[], []);
    FirstDeploys(stamps, p, v);
    var e := Entry(stamps(p, v), v, 0, v, None);
    var s2 := State(map[p := v], {p}, map[p := e], 0, map[], [Result(false, v, v)]);
    RunFirstCall(stamps, p, v, s1, s2);
    RunThrough(EMPTY, stamps, Deploys(p, v + 1), FirstCall(p), Deploys(p, w - v), s1, s2);
    var s3 := s2.(versions := map[p := w]);
    LaterDeploys(stamps, p, v, w, s2, s3);
    RunConcat(EMPTY, stamps, Deploys(p, v + 1) + FirstCall(p) + Deploys(p, w - v), SecondCall(p));
    RunSecondCall(stamps, p, v, w, s3);
  }

  lemma LaterDeploys(stamps: Stamps, p: Path, v: nat, w: nat, start: State, end: State)
    requires v < w && start.versions == map[p := v] && p in start.present && end == start.(versions := map[p := w])
    ensures Run(start, stamps, Deploys(p, w - v)) == end
  {
    assert p in start.versions && start.versions[p] == v;
    RunDeploys(start, stamps, p, w - v);
    var versions := start.versions[p := start.versions[p] + (w - v)];
    assert versions == map[p := w];
  }

  lemma FirstDeploys(stamps: Stamps, p: Path, v: nat)
    ensures Run(EMPTY, stamps, Deploys(p, v + 1)) == State(map[p := v], {p}, map[], 0, map[], [])
  {
    var s := Step(EMPTY, stamps, Deploy(p));
    assert s == State(map[p := 0], {p}, map[], 0, map[], []);
    assert Deploys(p, v + 1)[1..] == Deploys(p, v);
    RunDeploys(s, stamps, p, v);
    assert s.versions[p := 0 + v] == map[p := v];
  }

  lemma RunFirstCall(stamps: Stamps, p: Path, v: nat, start: State, end: State)
    requires start == State(map[p := v], {p}, map[], 0, map[], [])
    requires end == State(map[p := v], {p}, map[p := Entry(stamps(p, v), v, 0, v, None)], 0,
                          map[], [Result(false, v, v)])
    ensures Run(start, stamps, FirstCall(p)) == end
  {
    var miss := [Stat(0, p, false), FirstLock(0), Compile(0)];
    var store := [SecondLock(0, {p}), Return(0)];
    assert FirstCall(p) == miss + store;
    RunConcat(start, stamps, miss, store);
    var s3 := start.(calls := map[0 := Compiled(p, false, v, v)]);
    RunMiss(stamps, p, v, start, miss, s3);
    RunStore(stamps, p, v, s3, store, end);
  }

  lemma RunMiss(stamps: Stamps, p: Path, v: nat, start: State, a: seq<Action>, end: State)
    requires start == State(map[p := v], {p}, map[], 0, map[], [])
    requires a == [Stat(0, p, false), FirstLock(0), Compile(0)]
    requires end == start.(calls := map[0 := Compiled(p, false, v, v)])
    ensures Run(start, stamps, a) == end
  {
    var s1 := Step(start, stamps, a[0]);
    var s2 := Step(s1, stamps, a[1]);
    assert s2.calls == map[0 := Missed(p, false, v)];
    var s3 := Step(s2, stamps, a[2]);
    assert s3.calls == map[0 := Compiled(p, false, v, v)];
    assert a[1..] == [a[1], a[2]] && a[1..][1..] == [a[2]];
    assert Run(s2, stamps, [a[2]]) == s3;
  }

  lemma RunStore(stamps: Stamps, p: Path, v: nat, start: State, a: seq<Action>, end: State)
    requires start == State(map[p := v], {p}, map[], 0, map[0 := Compiled(p, false, v, v)], [])
    requires a == [SecondLock(0, {p}), Return(0)]
    requires end == State(map[p := v], {p}, map[p := Entry(stamps(p, v), v, 0, v, None)], 0,
                          map[], [Result(false, v, v)])
    ensures Run(start, stamps, a) == end
  {
    var s1 := Step(start, stamps, a[0]);
    StoreAlone(start, stamps, 0, p);
    assert s1.calls == map[0 := Linked(p, false, v, v)] && s1.entries == end.entries;
    var s2 := Step(s1, stamps, a[1]);
    assert s2.calls == map[];
    assert a[1..] == [a[1]];
    assert Run(s1, stamps, [a[1]]) == s2;
  }

  lemma RunSecondCall(stamps: Stamps, p: Path, v: nat, w: nat, start: State)
    requires stamps(p, v) == stamps(p, w)
    requires start == State(map[p := w], {p}, map[p := Entry(stamps(p, v), v, 0, v, None)], 0,
                            map[], [Result(false, v, v)])
    ensures Run(start, stamps, SecondCall(p)).results == [Result(false, v, v), Result(false, w, v)]
  {
    var a := SecondCall(p);
    var s1 := Step(start, stamps, a[0]);
    var s2 := Step(s1, stamps, a[1]);
    assert s2.calls == map[0 := Linked(p, false, w, v)];
    var s3 := Step(s2, stamps, a[2]);
    assert a[1..] == [a[1], a[2]] && a[1..][1..] == [a[2]];
    assert Run(s2, stamps, [a[2]]) == s3;
  }
}
