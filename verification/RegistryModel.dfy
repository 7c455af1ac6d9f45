/**
 The registry tree of hook/registry.go: registries that are cloned from one another, and the one
 store of hooks, commands and persistent state that they all share.

 A registry is named by its index in `nodes`. Functions and state pointers are numbers.
 A call that panics has no result (None), and ends the registration.
 */
module RegistryModel {
  import opened Wrappers

  datatype Node = Node(name: string, clones: set<string>, hasContext: bool, command: Option<nat>)

  datatype HookFunc = HookFunc(registryName: string, run: nat)

  datatype Context = Context(registryName: string, setter: nat)

  datatype Slot = Slot(registryName: string, val: nat)

  datatype Store = Store(
    nodes: seq<Node>,
    hooks: map<string, seq<HookFunc>>,
    commands: map<string, nat>,
    contexts: seq<Context>,
    state: seq<Slot>)

  const NEW_REGISTRY := Store([Node("root", {}, false, None)], map[], map[], [], [])

  const SEPARATOR: char := '/'

  predicate ValidName(name: string) {
    name != "" && '.' !in name && SEPARATOR !in name
  }

  /** `valid` is what validHookName says of the name, and `pointer` whether the state is a pointer. */
  datatype Op =
    | Clone(on: nat, name: string)
    | RegisterHook(on: nat, hook: string, f: nat, valid: bool)
    | RegisterContext(on: nat, setter: nat, val: Option<nat>, pointer: bool)
    | RegisterCommand(on: nat, f: nat)

  function HooksOf(s: Store, hook: string): seq<HookFunc> {
    if hook in s.hooks then s.hooks[hook] else []
  }

  function Apply(s: Store, op: Op): (r: Option<Store>)
    requires op.on < |s.nodes|
  {
    var node := s.nodes[op.on];
    match op
    case Clone(on, name) =>
      if !ValidName(name) || name in node.clones then None
      else
        Some(s.(nodes := s.nodes[on := node.(clones := node.clones + {name})]
                         + [Node(node.name + "." + name, {}, false, None)]))
    case RegisterHook(on, hook, f, valid) =>
      if hook != "*" && !valid then None
      else
        Some(s.(hooks := s.hooks[hook := HooksOf(s, hook) + [HookFunc(node.name, f)]]))
    case RegisterContext(on, setter, val, pointer) =>
      if node.hasContext || (val.Some? && !pointer) then None
      else
        Some(s.(nodes := s.nodes[on := node.(hasContext := true)],
                contexts := s.contexts + [Context(node.name, setter)],
                state := if val.None? then s.state else s.state + [Slot(node.name, val.value)]))
    case RegisterCommand(on, f) =>
      if node.command.Some? then None
      else
        Some(s.(nodes := s.nodes[on := node.(command := Some(f))], commands := s.commands[node.name := f]))
  }

  /** The store after a sequence of calls, none of which panicked. */
  function Run(ops: seq<Op>): Option<Store>
    decreases |ops|
  {
    if ops == [] then Some(NEW_REGISTRY)
    else
      var s := Run(ops[..|ops| - 1]);
      var op := ops[|ops| - 1];
      if s.None? || op.on >= |s.value.nodes| then None else Apply(s.value, op)
  }

  // ---- Names ----

  lemma LastDot(a: string, c: string)
    requires '.' !in c
    ensures var x := a + "." + c; x[|a|] == '.' && forall k :: |a| < k < |x| ==> x[k] != '.'
  {
    var x := a + "." + c;
    forall k | |a| < k < |x| ensures x[k] != '.' {
      assert x[k] == c[k - |a| - 1];
    }
  }

  /** Dot-joined names come apart in one way. */
  lemma JoinInjective(a: string, c: string, b: string, d: string)
    requires '.' !in c && '.' !in d && a + "." + c == b + "." + d
    ensures a == b && c == d
  {
    var x, y := a + "." + c, b + "." + d;
    LastDot(a, c);
    LastDot(b, d);
    assert |a| == |b|;
    assert x[..|a|] == a && y[..|a|] == b;
    assert x[|a| + 1..] == c && y[|a| + 1..] == d;
  }

  /** The parent of a registry, and the name it was cloned under. */
  ghost predicate ClonedFrom(s: Store, i: nat, parent: nat, name: string) {
    && parent < i < |s.nodes| && ValidName(name)
    && name in s.nodes[parent].clones && s.nodes[i].name == s.nodes[parent].name + "." + name
  }

  ghost predicate Named(s: Store, i: nat) {
    if i == 0 then i < |s.nodes| && s.nodes[0].name == "root"
    else exists parent: nat, name :: ClonedFrom(s, i, parent, name)
  }

  ghost predicate DistinctNames(s: Store) {
    forall i, j :: 0 <= i < j < |s.nodes| ==> s.nodes[i].name != s.nodes[j].name
  }

  ghost predicate IsName(s: Store, name: string) {
    exists i :: 0 <= i < |s.nodes| && s.nodes[i].name == name
  }

  /** Each command is filed under its registry's name. */
  ghost predicate CommandsFiled(s: Store) {
    && (forall i :: 0 <= i < |s.nodes| ==>
          && (s.nodes[i].command.Some? <==> s.nodes[i].name in s.commands)
          && (s.nodes[i].command.Some? ==> s.commands[s.nodes[i].name] == s.nodes[i].command.value))
    && (forall name :: name in s.commands ==> IsName(s, name))
  }

  /** Each state is filed under its registry's name, and no other is. */
  ghost predicate StateFiled(s: Store) {
    && (forall k :: 0 <= k < |s.state| ==> IsName(s, s.state[k].registryName))
    && (forall k, i :: 0 <= k < |s.state| && 0 <= i < |s.nodes| && s.nodes[i].name == s.state[k].registryName ==>
          s.nodes[i].hasContext)
    && (forall j, k :: 0 <= j < k < |s.state| ==> s.state[j].registryName != s.state[k].registryName)
  }

  ghost predicate Filed(s: Store) {
    CommandsFiled(s) && StateFiled(s)
  }

  ghost predicate Valid(s: Store) {
    && |s.nodes| > 0
    && (forall i: nat :: i < |s.nodes| ==> Named(s, i))
    && DistinctNames(s) && Filed(s)
  }

  /** A name that Clone is about to make is not yet taken. */
  lemma NewNameIsNew(s: Store, on: nat, name: string)
    requires Valid(s) && on < |s.nodes| && ValidName(name) && name !in s.nodes[on].clones
    ensures !IsName(s, s.nodes[on].name + "." + name)
  {
    var joined := s.nodes[on].name + "." + name;
    LastDot(s.nodes[on].name, name);
    assert '.' in joined && '.' !in "root";
    forall i: nat | i < |s.nodes| ensures s.nodes[i].name != joined {
      assert Named(s, i);
      if i > 0 && s.nodes[i].name == joined {
        var parent: nat, c :| ClonedFrom(s, i, parent, c);
        JoinInjective(s.nodes[on].name, name, s.nodes[parent].name, c);
        assert false;
      }
    }
  }

  lemma NamedAfter(s: Store, r: Store, i: nat)
    requires Named(s, i) && i < |s.nodes| <= |r.nodes|
    requires forall j :: 0 <= j < |s.nodes| ==>
               r.nodes[j].name == s.nodes[j].name && s.nodes[j].clones <= r.nodes[j].clones
    ensures Named(r, i)
  {
    if i > 0 {
      var parent: nat, name :| ClonedFrom(s, i, parent, name);
      assert ClonedFrom(r, i, parent, name);
    }
  }

  /** Names that were taken stay taken. */
  lemma SameFiles(s: Store, r: Store)
    requires Filed(s) && |s.nodes| <= |r.nodes| && r.commands == s.commands && r.state == s.state
    requires forall j :: 0 <= j < |s.nodes| ==> r.nodes[j].(clones := {}) == s.nodes[j].(clones := {})
    requires forall j :: |s.nodes| <= j < |r.nodes| ==> !IsName(s, r.nodes[j].name) && r.nodes[j].command.None?
    ensures Filed(r)
  {
    forall j | 0 <= j < |s.nodes|
      ensures r.nodes[j].name == s.nodes[j].name && r.nodes[j].command == s.nodes[j].command
      ensures r.nodes[j].hasContext == s.nodes[j].hasContext
    {
      assert r.nodes[j].(clones := {}) == s.nodes[j].(clones := {});
    }
    forall name | IsName(s, name) ensures IsName(r, name) {
      var i :| 0 <= i < |s.nodes| && s.nodes[i].name == name;
      assert r.nodes[i].name == name;
    }
  }

  lemma CloneKeepsValid(s: Store, on: nat, name: string)
    requires Valid(s) && on < |s.nodes| && Apply(s, Clone(on, name)).Some?
    ensures Valid(Apply(s, Clone(on, name)).value)
  {
    var r := Apply(s, Clone(on, name)).value;
    var joined := s.nodes[on].name + "." + name;
    NewNameIsNew(s, on, name);
    assert forall j :: 0 <= j < |s.nodes| ==> r.nodes[j].name == s.nodes[j].name;
    forall i: nat | i < |r.nodes| ensures Named(r, i) {
      if i < |s.nodes| { NamedAfter(s, r, i); } else { assert ClonedFrom(r, i, on, name); }
    }
    SameFiles(s, r);
  }

  /** What registering changes in the nodes: neither names nor clones. */
  ghost predicate SameTree(s: Store, r: Store) {
    && |r.nodes| == |s.nodes|
    && forall j :: 0 <= j < |s.nodes| ==> r.nodes[j].name == s.nodes[j].name && r.nodes[j].clones == s.nodes[j].clones
  }

  lemma SameTreeKeepsNames(s: Store, r: Store)
    requires Valid(s) && SameTree(s, r)
    ensures forall i: nat :: i < |r.nodes| ==> Named(r, i)
    ensures DistinctNames(r) && forall name :: IsName(s, name) <==> IsName(r, name)
  {
    forall i: nat | i < |r.nodes| ensures Named(r, i) { NamedAfter(s, r, i); }
    forall name ensures IsName(s, name) <==> IsName(r, name) {
      if IsName(s, name) {
        var i :| 0 <= i < |s.nodes| && s.nodes[i].name == name;
        assert r.nodes[i].name == name;
      }
      if IsName(r, name) {
        var i :| 0 <= i < |r.nodes| && r.nodes[i].name == name;
        assert s.nodes[i].name == name;
      }
    }
  }

  lemma HookKeepsValid(s: Store, op: Op)
    requires Valid(s) && op.on < |s.nodes| && op.RegisterHook? && Apply(s, op).Some?
    ensures Valid(Apply(s, op).value)
  {
    SameTreeKeepsNames(s, Apply(s, op).value);
  }

  lemma CommandFilesCommand(s: Store, op: Op)
    requires CommandsFiled(s) && DistinctNames(s) && op.on < |s.nodes| && op.RegisterCommand? && Apply(s, op).Some?
    requires forall name :: IsName(s, name) <==> IsName(Apply(s, op).value, name)
    ensures CommandsFiled(Apply(s, op).value)
  {
    var name := s.nodes[op.on].name;
    assert IsName(s, name);
    assert forall i :: 0 <= i < |s.nodes| && i != op.on ==> s.nodes[i].name != name;
  }

  lemma CommandKeepsValid(s: Store, op: Op)
    requires Valid(s) && op.on < |s.nodes| && op.RegisterCommand? && Apply(s, op).Some?
    ensures Valid(Apply(s, op).value)
  {
    hide Named, DistinctNames;
    var r := Apply(s, op).value;
    SameTreeKeepsNames(s, r);
    CommandFilesCommand(s, op);
    assert StateFiled(r);
  }

  lemma ContextFilesState(s: Store, op: Op)
    requires StateFiled(s) && DistinctNames(s) && op.on < |s.nodes| && op.RegisterContext? && Apply(s, op).Some?
    requires forall name :: IsName(s, name) <==> IsName(Apply(s, op).value, name)
    ensures StateFiled(Apply(s, op).value)
  {
    var r := Apply(s, op).value;
    var name := s.nodes[op.on].name;
    assert IsName(s, name);
    assert forall k :: 0 <= k < |s.state| ==> s.state[k].registryName != name;
    assert forall i :: 0 <= i < |s.nodes| && i != op.on ==> s.nodes[i].name != name;
    if op.val.Some? {
      assert r.state == s.state + [Slot(name, op.val.value)];
    }
  }

  lemma ContextKeepsCommands(s: Store, op: Op)
    requires CommandsFiled(s) && op.on < |s.nodes| && op.RegisterContext? && Apply(s, op).Some?
    requires forall name :: IsName(s, name) ==> IsName(Apply(s, op).value, name)
    ensures CommandsFiled(Apply(s, op).value)
  {
    hide IsName;
  }

  lemma ContextKeepsValid(s: Store, op: Op)
    requires Valid(s) && op.on < |s.nodes| && op.RegisterContext? && Apply(s, op).Some?
    ensures Valid(Apply(s, op).value)
  {
    hide Named, DistinctNames, CommandsFiled, StateFiled, IsName;
    SameTreeKeepsNames(s, Apply(s, op).value);
    ContextFilesState(s, op);
    ContextKeepsCommands(s, op);
  }

  lemma {:induction false} RunIsValid(ops: seq<Op>)
    requires Run(ops).Some?
    ensures Valid(Run(ops).value)
    decreases |ops|
  {
    if ops == [] {
    } else {
      RunIsValid(ops[..|ops| - 1]);
      var s := Run(ops[..|ops| - 1]).value;
      var op := ops[|ops| - 1];
      match op
      case Clone(on, name) => CloneKeepsValid(s, on, name);
      case RegisterHook(_, _, _, _) => HookKeepsValid(s, op);
      case RegisterContext(_, _, _, _) => ContextKeepsValid(s, op);
      case RegisterCommand(_, _) => CommandKeepsValid(s, op);
    }
  }

  /**
   Over any registration that does not panic: distinct registries have distinct names, and no
   two pieces of persistent state are saved under one name.
   */
  lemma NamesAreUnique(ops: seq<Op>)
    requires Run(ops).Some?
    ensures DistinctNames(Run(ops).value)
    ensures var state := Run(ops).value.state;
            forall j, k :: 0 <= j < k < |state| ==> state[j].registryName != state[k].registryName
  {
    RunIsValid(ops);
  }

  // ---- What the calls were, and what is there ----

  /** The names of the registries, by the calls to Clone alone. */
  function NamesOf(ops: seq<Op>): (r: seq<string>)
    ensures r != []
  {
    if ops == [] then ["root"]
    else
      var before, op := NamesOf(ops[..|ops| - 1]), ops[|ops| - 1];
      if op.Clone? && op.on < |before| then before + [before[op.on] + "." + op.name] else before
  }

  function NameOf(ops: seq<Op>, i: nat): string {
    if i < |NamesOf(ops)| then NamesOf(ops)[i] else ""
  }

  ghost predicate HasContextCall(ops: seq<Op>, i: nat) {
    exists k :: 0 <= k < |ops| && ops[k].RegisterContext? && ops[k].on == i
  }

  ghost predicate HasCommandCall(ops: seq<Op>, i: nat) {
    exists f :: RegisterCommand(i, f) in ops
  }

  /** A registry has the name, the clones, the context and the command that the calls gave it, and no other. */
  ghost predicate NodeMatches(ops: seq<Op>, i: nat, node: Node) {
    && node.name == NameOf(ops, i)
    && (forall name :: name in node.clones <==> Clone(i, name) in ops)
    && (node.hasContext <==> HasContextCall(ops, i))
    && (forall f: nat :: node.command == Some(f) <==> RegisterCommand(i, f) in ops)
  }

  ghost predicate Matches(ops: seq<Op>, s: Store) {
    && |NamesOf(ops)| == |s.nodes|
    && (forall k :: 0 <= k < |ops| ==> ops[k].on < |s.nodes|)
    && (forall i: nat :: i < |s.nodes| ==> NodeMatches(ops, i, s.nodes[i]))
  }

  lemma HasContextSnoc(ops: seq<Op>, op: Op, i: nat)
    ensures HasContextCall(ops + [op], i) <==> HasContextCall(ops, i) || (op.RegisterContext? && op.on == i)
  {
    var longer := ops + [op];
    if k :| 0 <= k < |ops| && ops[k].RegisterContext? && ops[k].on == i {
      assert longer[k] == ops[k];
    }
    if op.RegisterContext? && op.on == i {
      assert longer[|ops|] == op;
    }
  }

  lemma NamesSnoc(ops: seq<Op>, op: Op)
    requires op.on < |NamesOf(ops)|
    ensures NamesOf(ops + [op])
            == if op.Clone? then NamesOf(ops) + [NamesOf(ops)[op.on] + "." + op.name] else NamesOf(ops)
  {
    assert (ops + [op])[..|ops|] == ops;
  }

  lemma OldNodeMatches(ops: seq<Op>, s: Store, op: Op, i: nat)
    requires Matches(ops, s) && op.on < |s.nodes| && Apply(s, op).Some? && i < |s.nodes|
    ensures i < |Apply(s, op).value.nodes| && NodeMatches(ops + [op], i, Apply(s, op).value.nodes[i])
  {
    hide HasContextCall, NamesOf;
    assert NodeMatches(ops, i, s.nodes[i]);
    HasContextSnoc(ops, op, i);
    NamesSnoc(ops, op);
    assert forall o :: o in ops + [op] <==> o in ops || o == op;
  }

  lemma NewNodeMatches(ops: seq<Op>, s: Store, op: Op)
    requires Matches(ops, s) && op.on < |s.nodes| && op.Clone? && Apply(s, op).Some?
    ensures var i := |s.nodes|;
            i < |Apply(s, op).value.nodes| && NodeMatches(ops + [op], i, Apply(s, op).value.nodes[i])
  {
    var i := |s.nodes|;
    assert !HasContextCall(ops, i) && forall o :: o in ops ==> o.on != i;
    hide HasContextCall, NamesOf;
    assert NodeMatches(ops, op.on, s.nodes[op.on]);
    HasContextSnoc(ops, op, i);
    NamesSnoc(ops, op);
    assert forall o :: o in ops + [op] <==> o in ops || o == op;
  }

  lemma ApplyMatches(ops: seq<Op>, s: Store, op: Op)
    requires Matches(ops, s) && op.on < |s.nodes| && Apply(s, op).Some?
    ensures Matches(ops + [op], Apply(s, op).value)
  {
    hide NodeMatches, NamesOf;
    var longer, r := ops + [op], Apply(s, op).value;
    NamesSnoc(ops, op);
    forall i: nat | i < |r.nodes| ensures NodeMatches(longer, i, r.nodes[i]) {
      if i < |s.nodes| {
        OldNodeMatches(ops, s, op, i);
      } else {
        NewNodeMatches(ops, s, op);
      }
    }
  }

  lemma {:induction false} RunMatches(ops: seq<Op>)
    requires Run(ops).Some?
    ensures Matches(ops, Run(ops).value)
    decreases |ops|
  {
    if ops != [] {
      var front, op := ops[..|ops| - 1], ops[|ops| - 1];
      RunMatches(front);
      assert ops == front + [op];
      ApplyMatches(front, Run(front).value, op);
    }
  }

  lemma NamesAre(ops: seq<Op>)
    requires Run(ops).Some?
    ensures |NamesOf(ops)| == |Run(ops).value.nodes|
    ensures forall i: nat :: i < |NamesOf(ops)| ==> Run(ops).value.nodes[i].name == NameOf(ops, i)
  {
    RunMatches(ops);
    forall i: nat | i < |NamesOf(ops)| ensures Run(ops).value.nodes[i].name == NameOf(ops, i) {
      assert NodeMatches(ops, i, Run(ops).value.nodes[i]);
    }
  }

  /**
   A call on a registry panics exactly if it clones it under a name that is empty, or has a dot
   or a slash, or that it was cloned under before; registers a hook of invalid name; registers a
   second context, or a state that is no pointer; or registers a second command.
   */
  lemma CallPanicsExactly(ops: seq<Op>, op: Op)
    requires Run(ops).Some? && op.on < |NamesOf(ops)|
    ensures Run(ops + [op]).None? <==>
              || (op.Clone? && (op.name == "" || '.' in op.name || '/' in op.name || op in ops))
              || (op.RegisterHook? && op.hook != "*" && !op.valid)
              || (op.RegisterContext? && (HasContextCall(ops, op.on) || (op.val.Some? && !op.pointer)))
              || (op.RegisterCommand? && HasCommandCall(ops, op.on))
  {
    RunMatches(ops);
    assert (ops + [op])[..|ops|] == ops;
    var s := Run(ops).value;
    assert NodeMatches(ops, op.on, s.nodes[op.on]);
    if op.RegisterCommand? && s.nodes[op.on].command.Some? {
      assert RegisterCommand(op.on, s.nodes[op.on].command.value) in ops;
    }
  }

  /** The setters of the calls to RegisterContext, each with the name of its registry, in order. */
  function ContextsOf(ops: seq<Op>): seq<Context> {
    if ops == [] then []
    else
      var front, op := ops[..|ops| - 1], ops[|ops| - 1];
      ContextsOf(front) + if op.RegisterContext? then [Context(NameOf(front, op.on), op.setter)] else []
  }

  /** The states of those that have one, likewise. */
  function StatesOf(ops: seq<Op>): seq<Slot> {
    if ops == [] then []
    else
      var front, op := ops[..|ops| - 1], ops[|ops| - 1];
      StatesOf(front)
      + if op.RegisterContext? && op.val.Some? then [Slot(NameOf(front, op.on), op.val.value)] else []
  }

  /** What was registered is there, all of it and in order. */
  lemma {:induction false} ContextsAreKept(ops: seq<Op>)
    requires Run(ops).Some?
    ensures Run(ops).value.contexts == ContextsOf(ops) && Run(ops).value.state == StatesOf(ops)
    decreases |ops|
  {
    if ops != [] {
      hide Matches;
      var front := ops[..|ops| - 1];
      ContextsAreKept(front);
      NamesAre(front);
    }
  }

  // ---- Dispatch ----

  const COMMAND_PREFIX := "cmd-"

  /** Context.CommandName, for a context associated with the given registry. */
  function CommandName(registryName: string): string {
    COMMAND_PREFIX + registryName
  }

  /** The part of a hook.Context that decides what is run; `runner` is whether it can run tools. */
  datatype HookContext = HookContext(runCommandName: string, hookName: string, runner: bool)

  /** NewContextFromEnvironment, of the first argument of runhook. */
  function NewContext(arg: string): Option<HookContext> {
    if arg == "" then None
    else if COMMAND_PREFIX <= arg then Some(HookContext(arg[|COMMAND_PREFIX|..], "", false))
    else Some(HookContext("", arg, true))
  }

  datatype Action = RunCommand(f: nat) | UsageError | RunHooks(funcs: seq<HookFunc>) | Panic

  /** Main, up to what it runs. What is not a command is logged, which panics without a runner. */
  function MainAction(s: Store, ctxt: HookContext): Action {
    if ctxt.runCommandName != "" then
      if ctxt.runCommandName in s.commands then RunCommand(s.commands[ctxt.runCommandName]) else UsageError
    else if !ctxt.runner then Panic
    else if HooksOf(s, ctxt.hookName) == [] then UsageError
    else RunHooks(HooksOf(s, ctxt.hookName) + HooksOf(s, "*"))
  }

  /** What becomes of the first argument of runhook. */
  function Dispatch(s: Store, arg: string): Action {
    var ctxt := NewContext(arg);
    if ctxt.None? then UsageError else MainAction(s, ctxt.value)
  }

  /** A bare "cmd-" names no command, so Main takes it for a hook that has no runner; no other argument does that. */
  lemma PanicsExactly(s: Store, arg: string)
    ensures Dispatch(s, arg) == Panic <==> arg == COMMAND_PREFIX
  {
  }

  lemma DispatchOwnCommand(s: Store, i: nat)
    requires Valid(s) && i < |s.nodes|
    ensures Dispatch(s, CommandName(s.nodes[i].name))
            == if s.nodes[i].command.Some? then RunCommand(s.nodes[i].command.value) else UsageError
  {
    var arg := CommandName(s.nodes[i].name);
    assert arg[|COMMAND_PREFIX|..] == s.nodes[i].name;
    assert Named(s, i);
    if i > 0 {
      var parent: nat, name :| ClonedFrom(s, i, parent, name);
    }
    assert s.nodes[i].name != "" && |arg| > |COMMAND_PREFIX|;
  }

  /**
   Running the command name of a registry runs exactly the function registered on it, by whatever
   call and however the calls were mixed, and is an error exactly when none was.
   */
  lemma CommandDispatch(ops: seq<Op>, i: nat)
    requires Run(ops).Some? && i < |NamesOf(ops)|
    ensures forall f :: RegisterCommand(i, f) in ops ==>
              Dispatch(Run(ops).value, CommandName(NamesOf(ops)[i])) == RunCommand(f)
    ensures (forall f :: RegisterCommand(i, f) !in ops) ==>
              Dispatch(Run(ops).value, CommandName(NamesOf(ops)[i])) == UsageError
  {
    var s := Run(ops).value;
    RunMatches(ops);
    assert NodeMatches(ops, i, s.nodes[i]);
    RunIsValid(ops);
    DispatchOwnCommand(s, i);
    if s.nodes[i].command.Some? {
      assert RegisterCommand(i, s.nodes[i].command.value) in ops;
    }
  }

  // ---- Hooks ----

  /** The functions that a sequence of calls registers for a hook, each with the name of its registry, in order. */
  function RegisteredFor(ops: seq<Op>, hook: string): seq<HookFunc> {
    if ops == [] then []
    else
      var front, op := ops[..|ops| - 1], ops[|ops| - 1];
      RegisteredFor(front, hook)
      + if op.RegisterHook? && op.hook == hook then [HookFunc(NameOf(front, op.on), op.f)] else []
  }

  lemma {:induction false} HooksAreOrdered(ops: seq<Op>, hook: string)
    requires Run(ops).Some?
    ensures HooksOf(Run(ops).value, hook) == RegisteredFor(ops, hook)
    decreases |ops|
  {
    if ops != [] {
      var front := ops[..|ops| - 1];
      HooksAreOrdered(front, hook);
      NamesAre(front);
    }
  }

  /**
   A hook runs the functions registered for it, through whatever clones, in the order of
   registration, followed by those registered for "*" in theirs; it is an error exactly when
   none was registered for it.
   */
  lemma HookDispatch(ops: seq<Op>, hook: string)
    requires Run(ops).Some? && hook != "" && !(COMMAND_PREFIX <= hook)
    ensures Dispatch(Run(ops).value, hook)
            == if RegisteredFor(ops, hook) == [] then UsageError
               else RunHooks(RegisteredFor(ops, hook) + RegisteredFor(ops, "*"))
  {
    HooksAreOrdered(ops, hook);
    HooksAreOrdered(ops, "*");
  }
}
