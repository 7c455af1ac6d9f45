/**
 One run of hook.Main after another, hook/main.go: load all persistent state, set the contexts,
 run the hook functions until one fails, and save all state whether or not one did.

 `vals[i]` is what the i-th registered state pointer points to, saved under `names[i]`. Context
 setters and hook functions may do anything to them: they are functions on the values that also
 say whether they succeed.
 */
module HookRuns {
  import opened Wrappers
  import RegistryModel

  /** A hook function or context setter. */
  type Fn<!V> = seq<V> -> (seq<V>, bool)

  /** JSON: decoding may depend on what is already there, as json.Unmarshal merges into its target. */
  datatype Codec<!V> = Codec(encode: V -> Bytes, decode: (V, Bytes) -> Option<V>)

  /** What is encoded can be decoded again into the values that a process starts with. */
  ghost predicate RoundTrips<V(!new)>(codec: Codec<V>, initial: seq<V>) {
    forall i, v :: 0 <= i < |initial| ==> codec.decode(initial[i], codec.encode(v)) == Some(v)
  }

  type Disk = map<string, Bytes>

  /** How reading files goes: each can be read, or is not there, but for the one at which it fails. */
  datatype Reading = ReadOk | ReadFails(at: nat)

  predicate Reads(names: seq<string>, reading: Reading) {
    reading.ReadFails? ==> reading.at >= |names|
  }

  /** loadState, from the i-th entry on. Nothing saved yet leaves a value as it is. */
  function LoadFrom<V>(codec: Codec<V>, names: seq<string>, disk: Disk, reading: Reading, vals: seq<V>, i: nat)
    : (r: Option<seq<V>>)
    requires |vals| == |names| && i <= |names|
    ensures r.Some? ==> |r.value| == |names|
    decreases |names| - i
  {
    if i == |names| then Some(vals)
    else if reading == ReadFails(i) then None
    else if names[i] !in disk then LoadFrom(codec, names, disk, reading, vals, i + 1)
    else
      var v := codec.decode(vals[i], disk[names[i]]);
      if v.None? then None else LoadFrom(codec, names, disk, reading, vals[i := v.value], i + 1)
  }

  /** How saving goes: it succeeds, or fails at an entry, leaving anything there. */
  datatype Saving = SaveOk | SaveFails(at: nat, left: Option<Bytes>)

  /** saveState, up to entry `n`. */
  function SaveTo<V>(codec: Codec<V>, names: seq<string>, disk: Disk, vals: seq<V>, n: nat): Disk
    requires |vals| == |names| && n <= |names|
  {
    if n == 0 then disk else SaveTo(codec, names, disk, vals, n - 1)[names[n - 1] := codec.encode(vals[n - 1])]
  }

  function Save<V>(codec: Codec<V>, names: seq<string>, disk: Disk, vals: seq<V>, how: Saving): Disk
    requires |vals| == |names|
  {
    if how.SaveOk? || how.at >= |names| then SaveTo(codec, names, disk, vals, |names|)
    else
      var before := SaveTo(codec, names, disk, vals, how.at);
      if how.left.Some? then before[names[how.at] := how.left.value] else before - {names[how.at]}
  }

  predicate SaveSucceeds(names: seq<string>, how: Saving) {
    how.SaveOk? || how.at >= |names|
  }

  /** How the files of one run fare. */
  datatype IO = IO(reading: Reading, saving: Saving)

  /** Calling functions in order until one fails: the values, how many were called, and whether all succeeded. */
  datatype Called<V> = Called(vals: seq<V>, count: nat, ok: bool)

  /** What a function leaves, as many values as there are pointers. */
  function Run1<V>(f: Fn<V>, vals: seq<V>): (r: (seq<V>, bool))
    ensures |r.0| == |vals|
  {
    var (after, ok) := f(vals);
    (if |after| == |vals| then after else vals, ok)
  }

  function CallAll<V>(fs: seq<Fn<V>>, vals: seq<V>): (r: Called<V>)
    ensures |r.vals| == |vals| && r.count <= |fs| && (r.ok ==> r.count == |fs|)
  {
    if fs == [] then Called(vals, 0, true)
    else
      var before := CallAll(fs[..|fs| - 1], vals);
      if !before.ok then before
      else
        var (after, ok) := Run1(fs[|fs| - 1], before.vals);
        Called(after, |fs|, ok)
  }

  /** What is registered: states, context setters, and the functions of the hook and of "*". */
  datatype Registered<!V> = Registered(
    names: seq<string>, initial: seq<V>, setters: seq<Fn<V>>, specific: seq<Fn<V>>, wildcard: seq<Fn<V>>)

  /** `loaded` is what the context setters are first shown; None if loading failed. */
  datatype Outcome<V> = Outcome(loaded: Option<seq<V>>, end: seq<V>, called: nat, ok: bool, saved: bool, disk: Disk)

  predicate WellFormed<V>(reg: Registered<V>) {
    |reg.initial| == |reg.names|
  }

  /** Main, for a hook. The process is new: the values start as they were registered. */
  function RunHook<V>(codec: Codec<V>, reg: Registered<V>, disk: Disk, io: IO): (o: Outcome<V>)
    requires WellFormed(reg)
    ensures |o.end| == |reg.names|
  {
    var loaded := LoadFrom(codec, reg.names, disk, io.reading, reg.initial, 0);
    if loaded.None? then Outcome(None, reg.initial, 0, false, false, disk)
    else
      var contexts := CallAll(reg.setters, loaded.value);
      if !contexts.ok then Outcome(loaded, contexts.vals, 0, false, false, disk)
      else
        var run := if reg.specific == [] then Called(contexts.vals, 0, false)
                   else CallAll(reg.specific + reg.wildcard, contexts.vals);
        var saved := SaveSucceeds(reg.names, io.saving);
        Outcome(loaded, run.vals, run.count, run.ok && saved, saved, Save(codec, reg.names, disk, run.vals, io.saving))
  }

  // ---- The order of hooks ----

  /**
   The functions called are a prefix of the specific hooks followed by the wildcards, cut after
   the first that fails: each was called on what the ones before it left, and all but the last
   succeeded.
   */
  lemma {:induction false} CallsArePrefix<V>(fs: seq<Fn<V>>, vals: seq<V>, k: nat)
    requires k < CallAll(fs, vals).count
    ensures var c := CallAll(fs, vals);
            && CallAll(fs[..k], vals).ok
            && CallAll(fs[..k + 1], vals).vals == Run1(fs[k], CallAll(fs[..k], vals).vals).0
            && (k < c.count - 1 ==> Run1(fs[k], CallAll(fs[..k], vals).vals).1)
            && (k == c.count - 1 ==>
                  && c.vals == Run1(fs[k], CallAll(fs[..k], vals).vals).0
                  && c.ok == (Run1(fs[k], CallAll(fs[..k], vals).vals).1 && c.count == |fs|))
    decreases |fs|
  {
    var front := fs[..|fs| - 1];
    var before := CallAll(front, vals);
    if !before.ok {
      CallsArePrefix(front, vals, k);
      assert front[..k] == fs[..k] && front[..k + 1] == fs[..k + 1];
      assert CallAll(fs, vals) == before;
    } else if k == |fs| - 1 {
      assert fs[..k] == front && fs[..k + 1] == fs;
    } else {
      CallsArePrefix(front, vals, k);
      assert front[..k] == fs[..k] && front[..k + 1] == fs[..k + 1];
    }
  }

  lemma {:induction false} CallAllConcat<V>(fs: seq<Fn<V>>, gs: seq<Fn<V>>, vals: seq<V>)
    ensures var c := CallAll(fs, vals);
            CallAll(fs + gs, vals) ==
              if !c.ok then c
              else var d := CallAll(gs, c.vals); Called(d.vals, |fs| + d.count, d.ok)
    decreases |gs|
  {
    if gs == [] {
      assert fs + gs == fs;
    } else {
      assert (fs + gs)[..|fs + gs| - 1] == fs + gs[..|gs| - 1];
      CallAllConcat(fs, gs[..|gs| - 1], vals);
    }
  }

  /**
   The specific hooks come first, on the values that the context setters left; the wildcards
   follow only if all of them succeeded. With no specific hook nothing is called at all.
   */
  lemma WildcardsComeLast<V>(codec: Codec<V>, reg: Registered<V>, disk: Disk, io: IO)
    requires WellFormed(reg)
    requires var loaded := LoadFrom(codec, reg.names, disk, io.reading, reg.initial, 0);
             loaded.Some? && CallAll(reg.setters, loaded.value).ok
    ensures var start := CallAll(reg.setters, LoadFrom(codec, reg.names, disk, io.reading, reg.initial, 0).value).vals;
            var o := RunHook(codec, reg, disk, io);
            var first := CallAll(reg.specific, start);
            if reg.specific == [] then o.called == 0 && o.end == start && !o.ok
            else if !first.ok then o.called == first.count <= |reg.specific| && o.end == first.vals && !o.ok
            else
              && o.called == |reg.specific| + CallAll(reg.wildcard, first.vals).count
              && o.end == CallAll(reg.wildcard, first.vals).vals
              && (o.ok <==> CallAll(reg.wildcard, first.vals).ok && SaveSucceeds(reg.names, io.saving))
  {
    var start := CallAll(reg.setters, LoadFrom(codec, reg.names, disk, io.reading, reg.initial, 0).value).vals;
    CallAllConcat(reg.specific, reg.wildcard, start);
  }

  // ---- Persistence ----

  ghost predicate Distinct(names: seq<string>) {
    forall i, j :: 0 <= i < j < |names| ==> names[i] != names[j]
  }

  /** Values saved under one name are one value. */
  ghost predicate NoClash<V>(names: seq<string>, vals: seq<V>)
    requires |vals| == |names|
  {
    forall i, j :: 0 <= i < j < |names| && names[i] == names[j] ==> vals[i] == vals[j]
  }

  /** What is on disk under a name after saving: the last value saved under it. */
  lemma {:induction false} SavedLast<V>(codec: Codec<V>, names: seq<string>, disk: Disk, vals: seq<V>, n: nat, i: nat)
    requires |vals| == |names| && i < n <= |names| && forall j :: i < j < n ==> names[j] != names[i]
    ensures var d := SaveTo(codec, names, disk, vals, n);
            names[i] in d && d[names[i]] == codec.encode(vals[i])
  {
    if i < n - 1 {
      SavedLast(codec, names, disk, vals, n - 1, i);
    }
  }

  /** The last entry below `n` with the name of entry `i`. */
  function LastUse(names: seq<string>, i: nat, n: nat): (k: nat)
    requires i < n <= |names|
    ensures i <= k < n && names[k] == names[i] && forall j :: k < j < n ==> names[j] != names[i]
  {
    if names[n - 1] == names[i] then n - 1 else LastUse(names, i, n - 1)
  }

  /** Loading gives, for each entry, what is on disk under its name. */
  lemma {:induction false} LoadsFromDisk<V(!new)>(
      codec: Codec<V>, names: seq<string>, disk: Disk, reading: Reading, vals: seq<V>, from: nat, want: seq<V>,
      initial: seq<V>)
    requires |vals| == |names| == |want| == |initial| && from <= |names|
    requires RoundTrips(codec, initial) && Reads(names, reading)
    requires forall i :: from <= i < |names| ==> vals[i] == initial[i]
    requires forall i :: 0 <= i < |names| ==> names[i] in disk && disk[names[i]] == codec.encode(want[i])
    requires forall i :: 0 <= i < from ==> vals[i] == want[i]
    ensures LoadFrom(codec, names, disk, reading, vals, from) == Some(want)
    decreases |names| - from
  {
    if from == |names| {
      assert vals == want;
    } else {
      LoadsFromDisk(codec, names, disk, reading, vals[from := want[from]], from + 1, want, initial);
    }
  }

  /** What loading gives after a successful save: for each entry, the last value saved under its name. */
  function Surviving<V>(names: seq<string>, vals: seq<V>): (r: seq<V>)
    requires |vals| == |names|
    ensures |r| == |names|
  {
    seq(|names|, i requires 0 <= i < |names| => vals[LastUse(names, i, |names|)])
  }

  lemma LoadAfterSave<V(!new)>(
      codec: Codec<V>, names: seq<string>, disk: Disk, vals: seq<V>, reading: Reading, initial: seq<V>)
    requires |vals| == |names| == |initial| && RoundTrips(codec, initial) && Reads(names, reading)
    ensures LoadFrom(codec, names, SaveTo(codec, names, disk, vals, |names|), reading, initial, 0)
            == Some(Surviving(names, vals))
  {
    var d := SaveTo(codec, names, disk, vals, |names|);
    var want := Surviving(names, vals);
    forall i | 0 <= i < |names| ensures names[i] in d && d[names[i]] == codec.encode(want[i]) {
      SavedLast(codec, names, disk, vals, |names|, LastUse(names, i, |names|));
    }
    LoadsFromDisk(codec, names, d, reading, initial, 0, want, initial);
  }

  lemma {:induction false} UnreadableNeverLoads<V>(
      codec: Codec<V>, names: seq<string>, disk: Disk, reading: Reading, vals: seq<V>, i: nat)
    requires |vals| == |names| && reading.ReadFails? && i <= reading.at < |names|
    ensures LoadFrom(codec, names, disk, reading, vals, i).None?
    decreases |names| - i
  {
    if i < reading.at {
      var v := if names[i] in disk then codec.decode(vals[i], disk[names[i]]) else Some(vals[i]);
      if v.Some? {
        UnreadableNeverLoads(codec, names, disk, reading, vals[i := v.value], i + 1);
        assert vals[i := vals[i]] == vals;
      }
    }
  }

  /**
   State survives from one process to the next exactly when no two different values share a
   name, and every file can be read.
   */
  lemma SurvivesExactly<V(!new)>(
      codec: Codec<V>, names: seq<string>, disk: Disk, vals: seq<V>, reading: Reading, initial: seq<V>)
    requires |vals| == |names| == |initial| && RoundTrips(codec, initial)
    ensures LoadFrom(codec, names, SaveTo(codec, names, disk, vals, |names|), reading, initial, 0) == Some(vals)
            <==> NoClash(names, vals) && Reads(names, reading)
  {
    if !Reads(names, reading) {
      UnreadableNeverLoads(codec, names, SaveTo(codec, names, disk, vals, |names|), reading, initial, 0);
      return;
    }
    LoadAfterSave(codec, names, disk, vals, reading, initial);
    var want := Surviving(names, vals);
    if NoClash(names, vals) {
      assert want == vals;
    } else {
      var i, j :| 0 <= i < j < |names| && names[i] == names[j] && vals[i] != vals[j];
      assert LastUse(names, i, |names|) == LastUse(names, j, |names|);
      assert want[i] == want[j];
    }
  }

  lemma {:induction false} Untouched<V>(
      codec: Codec<V>, names: seq<string>, disk: Disk, vals: seq<V>, n: nat, name: string)
    requires |vals| == |names| && n <= |names| && forall j :: 0 <= j < n ==> names[j] != name
    ensures var d := SaveTo(codec, names, disk, vals, n);
            (name in d <==> name in disk) && (name in disk ==> d[name] == disk[name])
  {
    if n > 0 {
      Untouched(codec, names, disk, vals, n - 1, name);
    }
  }

  /** A failed save keeps the entries before it, and what earlier runs saved of those after it. */
  lemma FailedSaveKeepsOthers<V>(
      codec: Codec<V>, names: seq<string>, disk: Disk, vals: seq<V>, at: nat, left: Option<Bytes>, i: nat)
    requires |vals| == |names| && at < |names| && i < |names| && i != at && Distinct(names)
    ensures var d := Save(codec, names, disk, vals, SaveFails(at, left));
            if i < at then names[i] in d && d[names[i]] == codec.encode(vals[i])
            else (names[i] in d <==> names[i] in disk) && (names[i] in disk ==> d[names[i]] == disk[names[i]])
  {
    if i < at {
      SavedLast(codec, names, disk, vals, at, i);
    } else {
      Untouched(codec, names, disk, vals, at, names[i]);
    }
  }

  // ---- Runs of runs ----

  /** A run of the charm: what this version of it registers, and how its files fare. */
  datatype Turn<!V> = Turn(reg: Registered<V>, io: IO)

  function DiskAfter<V>(codec: Codec<V>, turns: seq<Turn<V>>): Disk
    requires forall k :: 0 <= k < |turns| ==> WellFormed(turns[k].reg)
  {
    if turns == [] then map[]
    else
      var last := turns[|turns| - 1];
      RunHook(codec, last.reg, DiskAfter(codec, turns[..|turns| - 1]), last.io).disk
  }

  /** A run saves if loading and the context setters succeed; what the hooks do does not matter. */
  predicate GetsToSave<V>(codec: Codec<V>, turn: Turn<V>, disk: Disk)
    requires WellFormed(turn.reg)
  {
    var loaded := LoadFrom(codec, turn.reg.names, disk, turn.io.reading, turn.reg.initial, 0);
    loaded.Some? && CallAll(turn.reg.setters, loaded.value).ok && SaveSucceeds(turn.reg.names, turn.io.saving)
  }

  /** If loading succeeds, each value is what its file decodes to, or, without a file, as it was. */
  lemma {:induction false} LoadsEach<V>(
      codec: Codec<V>, names: seq<string>, disk: Disk, reading: Reading, vals: seq<V>, from: nat, i: nat)
    requires |vals| == |names| && from <= |names| && i < |names|
    requires LoadFrom(codec, names, disk, reading, vals, from).Some?
    ensures var loaded := LoadFrom(codec, names, disk, reading, vals, from).value[i];
            if i < from || names[i] !in disk then loaded == vals[i]
            else codec.decode(vals[i], disk[names[i]]) == Some(loaded)
    decreases |names| - from
  {
    if from < |names| {
      if names[from] in disk {
        var v := codec.decode(vals[from], disk[names[from]]).value;
        LoadsEach(codec, names, disk, reading, vals[from := v], from + 1, i);
      } else {
        LoadsEach(codec, names, disk, reading, vals, from + 1, i);
      }
    }
  }

  /**
   After any sequence of runs, failing hooks and saves included, of which the last got to save
   and did: in the next run that manages to load, whatever that version of the charm registers,
   a component that was there before starts from exactly the state that it ended in, however the
   hooks ended; and the context setters are shown that state.
   */
  lemma StatePersists<V(!new)>(codec: Codec<V>, turns: seq<Turn<V>>, next: Turn<V>, i: nat, j: nat)
    requires turns != [] && WellFormed(next.reg) && RoundTrips(codec, next.reg.initial)
    requires forall k :: 0 <= k < |turns| ==> WellFormed(turns[k].reg)
    requires var names := turns[|turns| - 1].reg.names;
             i < |next.reg.names| && j < |names| && next.reg.names[i] == names[j] && Distinct(names)
    requires GetsToSave(codec, turns[|turns| - 1], DiskAfter(codec, turns[..|turns| - 1]))
    ensures var last := turns[|turns| - 1];
            var o := RunHook(codec, last.reg, DiskAfter(codec, turns[..|turns| - 1]), last.io);
            var loaded := RunHook(codec, next.reg, DiskAfter(codec, turns), next.io).loaded;
            loaded.Some? ==> |loaded.value| == |next.reg.names| && loaded.value[i] == o.end[j]
  {
    var last := turns[|turns| - 1];
    var disk := DiskAfter(codec, turns[..|turns| - 1]);
    var o := RunHook(codec, last.reg, disk, last.io);
    SavedLast(codec, last.reg.names, disk, o.end, |last.reg.names|, j);
    if LoadFrom(codec, next.reg.names, DiskAfter(codec, turns), next.io.reading, next.reg.initial, 0).Some? {
      LoadsEach(codec, next.reg.names, DiskAfter(codec, turns), next.io.reading, next.reg.initial, 0, i);
    }
  }

  lemma {:induction false} NeverSaved<V>(codec: Codec<V>, turns: seq<Turn<V>>, name: string)
    requires forall k :: 0 <= k < |turns| ==> WellFormed(turns[k].reg) && name !in turns[k].reg.names
    ensures name !in DiskAfter(codec, turns)
    decreases |turns|
  {
    if turns != [] {
      var last := turns[|turns| - 1];
      var disk := DiskAfter(codec, turns[..|turns| - 1]);
      NeverSaved(codec, turns[..|turns| - 1], name);
      var o := RunHook(codec, last.reg, disk, last.io);
      var saving := last.io.saving;
      Untouched(codec, last.reg.names, disk, o.end,
                if SaveSucceeds(last.reg.names, saving) then |last.reg.names| else saving.at, name);
    }
  }

  /** A component that was never saved starts as it was registered. */
  lemma NewComponentStartsAfresh<V>(codec: Codec<V>, turns: seq<Turn<V>>, next: Turn<V>, i: nat)
    requires WellFormed(next.reg) && i < |next.reg.names|
    requires forall k :: 0 <= k < |turns| ==> WellFormed(turns[k].reg) && next.reg.names[i] !in turns[k].reg.names
    ensures var loaded := RunHook(codec, next.reg, DiskAfter(codec, turns), next.io).loaded;
            loaded.Some? ==> |loaded.value| == |next.reg.names| && loaded.value[i] == next.reg.initial[i]
  {
    NeverSaved(codec, turns, next.reg.names[i]);
    if LoadFrom(codec, next.reg.names, DiskAfter(codec, turns), next.io.reading, next.reg.initial, 0).Some? {
      LoadsEach(codec, next.reg.names, DiskAfter(codec, turns), next.io.reading, next.reg.initial, 0, i);
    }
  }

  /** If the next run registers the same names, and can read their files, then it does load, all of the state. */
  lemma AllStatePersists<V(!new)>(codec: Codec<V>, turns: seq<Turn<V>>, next: Turn<V>)
    requires turns != [] && WellFormed(next.reg) && RoundTrips(codec, next.reg.initial)
    requires forall k :: 0 <= k < |turns| ==> WellFormed(turns[k].reg)
    requires next.reg.names == turns[|turns| - 1].reg.names && Distinct(next.reg.names)
    requires GetsToSave(codec, turns[|turns| - 1], DiskAfter(codec, turns[..|turns| - 1]))
    ensures var last := turns[|turns| - 1];
            var o := RunHook(codec, last.reg, DiskAfter(codec, turns[..|turns| - 1]), last.io);
            RunHook(codec, next.reg, DiskAfter(codec, turns), next.io).loaded == Some(o.end)
            <==> Reads(next.reg.names, next.io.reading)
  {
    var last := turns[|turns| - 1];
    var disk := DiskAfter(codec, turns[..|turns| - 1]);
    var o := RunHook(codec, last.reg, disk, last.io);
    SurvivesExactly(codec, next.reg.names, disk, o.end, next.io.reading, next.reg.initial);
  }

  // ---- From the registry ----

  /** What the numbers in a registry stand for: a setter, a hook function, and what a state pointer points to. */
  datatype Meaning<!V> = Meaning(setter: nat -> Fn<V>, hook: nat -> Fn<V>, initial: nat -> V)

  /** What Main gets from a registry for a hook. */
  function FromRegistry<V>(s: RegistryModel.Store, hook: string, m: Meaning<V>): Registered<V> {
    var specific, wildcard := RegistryModel.HooksOf(s, hook), RegistryModel.HooksOf(s, "*");
    Registered(
      seq(|s.state|, i requires 0 <= i < |s.state| => s.state[i].registryName),
      seq(|s.state|, i requires 0 <= i < |s.state| => m.initial(s.state[i].val)),
      seq<Fn<V>>(|s.contexts|, i requires 0 <= i < |s.contexts| => m.setter(s.contexts[i].setter)),
      seq<Fn<V>>(|specific|, i requires 0 <= i < |specific| => m.hook(specific[i].run)),
      seq<Fn<V>>(|wildcard|, i requires 0 <= i < |wildcard| => m.hook(wildcard[i].run)))
  }

  /**
   A run of Main loads and saves exactly the states of the calls to RegisterContext, each under
   the name of its registry; calls the setters of all these calls, and the functions of the
   calls to RegisterHook, in the order of the calls. The names are distinct, so that
   StatePersists applies.
   */
  lemma RegisteredIsWhatWasCalled<V>(ops: seq<RegistryModel.Op>, hook: string, m: Meaning<V>)
    requires RegistryModel.Run(ops).Some?
    ensures var reg := FromRegistry(RegistryModel.Run(ops).value, hook, m);
            var states, contexts := RegistryModel.StatesOf(ops), RegistryModel.ContextsOf(ops);
            var specific, wildcard := RegistryModel.RegisteredFor(ops, hook), RegistryModel.RegisteredFor(ops, "*");
            && WellFormed(reg) && Distinct(reg.names)
            && |reg.names| == |states| && |reg.setters| == |contexts|
            && |reg.specific| == |specific| && |reg.wildcard| == |wildcard|
            && (forall k :: 0 <= k < |states| ==>
                  reg.names[k] == states[k].registryName && reg.initial[k] == m.initial(states[k].val))
            && (forall k :: 0 <= k < |contexts| ==> reg.setters[k] == m.setter(contexts[k].setter))
            && (forall k :: 0 <= k < |specific| ==> reg.specific[k] == m.hook(specific[k].run))
            && (forall k :: 0 <= k < |wildcard| ==> reg.wildcard[k] == m.hook(wildcard[k].run))
  {
    RegistryModel.NamesAreUnique(ops);
    RegistryModel.ContextsAreKept(ops);
    RegistryModel.HooksAreOrdered(ops, hook);
    RegistryModel.HooksAreOrdered(ops, "*");
  }

  /** A run whose loading or setters fail leaves the disk as it was. */
  lemma NothingIsSavedBeforeHooks<V>(codec: Codec<V>, reg: Registered<V>, disk: Disk, io: IO)
    requires WellFormed(reg)
    requires var loaded := LoadFrom(codec, reg.names, disk, io.reading, reg.initial, 0);
             loaded.None? || !CallAll(reg.setters, loaded.value).ok
    ensures var o := RunHook(codec, reg, disk, io); o.disk == disk && !o.ok && o.called == 0
  {
  }

  /** Nothing is called after a failure. */
  lemma {:induction false} CallsStop<V>(fs: seq<Fn<V>>, vals: seq<V>, k: nat)
    requires k <= |fs| && !CallAll(fs[..k], vals).ok
    ensures CallAll(fs, vals) == CallAll(fs[..k], vals)
    decreases |fs|
  {
    if k == |fs| {
      assert fs[..k] == fs;
    } else {
      assert fs[..|fs| - 1][..k] == fs[..k];
      CallsStop(fs[..|fs| - 1], vals, k);
    }
  }
}
