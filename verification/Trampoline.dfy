/** Tail calls and external calls: a function that ends in a tail call stashes its target and
    returns the sentinel; the trampoline that invoked it takes the target and enters it. An
    external call is a nested invocation, on the same stash. Dispatched calls and hops note in
    the RUNNING registry which instance the process is in; bound calls do not. */
module Trampoline {
  import opened Basics
  import opened Bytecode
  import opened Interp
  import opened Blocks
  import opened Simulation
  import opened Sentinels

  /** A loaded module; names are global atom numbers. `native` says it was compiled, `tailers`
      are its sentinel bits. */
  datatype Instance = Instance(
    name: nat, version: nat, m: Module, atoms: seq<nat>, sealed: bool, native: bool, tailers: seq<bool>)

  datatype Slot = Slot(current: Instance, previous: Option<Instance>)

  type Table = map<nat, Slot>

  /** What a compiler bakes into a call site. */
  datatype ExtTarget = ExtTarget(inst: Instance, fi: nat, arity: nat, mayTail: bool)

  /** How an instance is run: interpreted, interpreted with products that wrap, or compiled. */
  datatype Engine = Checked | Wrapping | Native(prog: seq<Compiled>)

  /** The system; the module table as loads and purges leave it at each moment; which call
      sites of a compiled instance are bound; and what runs each instance. */
  datatype World = World(
    sys: seq<Req> -> Reply, table: seq<Req> -> Table, unknown: nat,
    bind: (Instance, Site, nat, nat) -> Option<ExtTarget>, code: Instance -> Engine)

  function NamesOf(w: World, inst: Instance): Names { Names(inst.atoms, w.unknown) }

  /** Marks in the request log where the trampoline took the stashed target. */
  const TAKE: nat := 256

  const Took: Req := Req(TAKE, [], [], [])

  /** Marks an entry made in the RUNNING registry. */
  const NOTE: nat := 259

  function Note(inst: Instance): Req { Req(NOTE, [inst.name, inst.version], [], []) }

  /** The process's entry in the registry: name and version. */
  function Running(log: seq<Req>): Option<(nat, nat)>
  {
    if log == [] then None
    else
      var last := log[|log| - 1];
      if last.op == NOTE && |last.imms| == 2 then Some((last.imms[0], last.imms[1])) else Running(log[..|log| - 1])
  }

  /** The instance an entry names: the current one if its version is in neither slot. */
  function Lookup(table: Table, entry: Option<(nat, nat)>): Option<Instance>
  {
    if entry.None? || entry.value.0 !in table then None
    else
      var slot := table[entry.value.0];
      if slot.current.version != entry.value.1 && slot.previous.Some? && slot.previous.value.version == entry.value.1
      then slot.previous else Some(slot.current)
  }

  /** The interpreter spawns in the instance it executes. */
  function OwnHome(inst: Instance, k: nat): Home
  {
    if k < |inst.m.functions| then In(inst.name, inst.version, true) else Nowhere(BadCode, true)
  }

  /** The compiled code's helper spawns in the instance the registry names. */
  function HelperHome(w: World, inst: Instance, k: nat, log: seq<Req>): Home
  {
    var i := Lookup(w.table(log), Running(log));
    if i.None? || k >= |i.value.m.functions| then Nowhere(Badarg, i == Some(inst))
    else In(i.value.name, i.value.version, i.value == inst)
  }

  /** The stash after the requests of `log`. */
  function Stash(log: seq<Req>): Option<Req>
  {
    if log == [] then None
    else
      var last := log[|log| - 1];
      if TailOp(last.op) then Some(last) else if last.op == TAKE then None else Stash(log[..|log| - 1])
  }

  predicate Named(inst: Instance, k: nat, name: nat)
    requires k < |inst.m.functions|
  {
    var atom := inst.m.functions[k].nameAtom;
    atom < |inst.atoms| && inst.atoms[atom] == name
  }

  /** Index of the first function of that name, if there is one. */
  function FunctionNamed(inst: Instance, name: nat, from: nat := 0): (r: Option<nat>)
    ensures r.Some? ==> from <= r.value < |inst.m.functions| && Named(inst, r.value, name)
    ensures forall k :: from <= k < (if r.Some? then r.value else |inst.m.functions|) ==> !Named(inst, k, name)
    decreases |inst.m.functions| - from
  {
    if from >= |inst.m.functions| then None
    else if Named(inst, from, name) then Some(from)
    else FunctionNamed(inst, name, from + 1)
  }

  datatype Hop = Enter(inst: Instance, fi: nat, args: seq<Term>) | Refused(trap: Trap)

  /** Resolves a fully qualified call in the current table. */
  function Resolve(table: Table, module_: nat, name: nat, args: seq<Term>): Hop
  {
    if module_ !in table then Refused(Badarg)
    else
      var inst := table[module_].current;
      var idx := FunctionNamed(inst, name);
      if idx.None? || inst.m.functions[idx.value].arity != |args| then Refused(Badarg) else Enter(inst, idx.value, args)
  }

  /** Function `fi` is the first of that name in its module. */
  ghost predicate FirstNamed(inst: Instance, name: nat, fi: nat)
  {
    && fi < |inst.m.functions| && NameOf(inst, fi) == Some(name)
    && forall k :: 0 <= k < fi ==> NameOf(inst, k) != Some(name)
  }

  /** The global number of a function's name. */
  ghost function NameOf(inst: Instance, fi: nat): Option<nat>
    requires fi < |inst.m.functions|
  {
    var local := inst.m.functions[fi].nameAtom;
    if local < |inst.atoms| then Some(inst.atoms[local]) else None
  }

  lemma FirstFound(inst: Instance, name: nat, fi: nat)
    ensures FunctionNamed(inst, name) == Some(fi) <==> FirstNamed(inst, name, fi)
  {
    var idx := FunctionNamed(inst, name);
    assert forall k: nat :: k < |inst.m.functions| ==> (Named(inst, k, name) <==> NameOf(inst, k) == Some(name));
    if FirstNamed(inst, name, fi) {
      assert Named(inst, fi, name);
      assert idx.Some? ==> NameOf(inst, idx.value) == Some(name);
    }
  }

  /** A fully qualified call enters the first function of that name in the module's current
      instance, if it takes that many arguments, and is otherwise refused as a bad argument. */
  lemma ResolveIs(table: Table, module_: nat, name: nat, args: seq<Term>, fi: nat)
    ensures var h := Resolve(table, module_, name, args);
      h.Enter? && h.fi == fi <==>
        && module_ in table && FirstNamed(table[module_].current, name, fi)
        && table[module_].current.m.functions[fi].arity == |args|
    ensures var h := Resolve(table, module_, name, args);
      if h.Enter? then module_ in table && h.inst == table[module_].current && h.args == args else h.trap == Badarg
  {
    if module_ in table { FirstFound(table[module_].current, name, fi); }
  }

  /** Where a taken target leads: a local one stays in the instance that was running. */
  function NextTarget(w: World, inst: Instance, target: Req, log: seq<Req>): Hop
  {
    if target.op == TAIL_CALL then Enter(inst, if |target.imms| == 1 then target.imms[0] else 0, target.args)
    else if |target.imms| == 2 then Resolve(w.table(log), target.imms[0], target.imms[1], target.args)
    else Refused(Badarg)
  }

  /** Compiled code has no calls of more than 16 arguments; such functions are interpreted. */
  function EngineFor(w: World, inst: Instance, args: seq<Term>): Engine
  {
    if |args| <= 16 then w.code(inst) else Checked
  }

  /** An instance as an engine sees it: its external calls are nested invocations, each with
      less fuel than the run it is made in. */
  function EnvOf(w: World, inst: Instance, g: Engine, n: nat): Env
    decreases n, 0
  {
    Env(inst.m, NamesOf(w, inst), !g.Checked?, w.sys,
        (k: nat, log: seq<Req>) => if g.Native? then HelperHome(w, inst, k, log) else OwnHome(inst, k),
        (k: nat, x: Ext, log: seq<Req>) => if k < n then Extern(k, w, inst, g.Native?, x, log) else Spent(log))
  }

  /** One engine entry. */
  function RunOnce(fuel: nat, w: World, inst: Instance, fi: nat, args: seq<Term>, log: seq<Req>): (o: Outcome)
    ensures o.Done? ==> o.left <= fuel
    decreases fuel, 1
  {
    var g := EngineFor(w, inst, args);
    var e := EnvOf(w, inst, g, fuel);
    if g.Native? then RunCompiled(fuel, e, g.prog, fi, args, log) else RunFunction(fuel, e, fi, args, log)
  }

  /** Code runs as its instance's engine does, but for calls of more than 16 arguments, which are
      interpreted with checked products whatever the instance. */
  lemma OnceRuns(fuel: nat, w: World, inst: Instance, fi: nat, args: seq<Term>, log: seq<Req>)
    ensures |args| <= 16 && w.code(inst).Native? ==>
      RunOnce(fuel, w, inst, fi, args, log)
        == RunCompiled(fuel, EnvOf(w, inst, w.code(inst), fuel), w.code(inst).prog, fi, args, log)
    ensures |args| <= 16 && !w.code(inst).Native? ==>
      RunOnce(fuel, w, inst, fi, args, log) == RunFunction(fuel, EnvOf(w, inst, w.code(inst), fuel), fi, args, log)
    ensures |args| > 16 ==>
      RunOnce(fuel, w, inst, fi, args, log) == RunFunction(fuel, EnvOf(w, inst, Checked, fuel), fi, args, log)
  {
  }

  /** What an engine lets its code see: products trap only for the checking one; the system and the
      atoms are the world's; and functions are spawned in the instance itself, but for compiled
      code, whose helper goes by the registry. */
  lemma EnvIs(w: World, inst: Instance, g: Engine, n: nat, k: nat, log: seq<Req>)
    ensures var e := EnvOf(w, inst, g, n);
      e.m == inst.m && e.names == Names(inst.atoms, w.unknown) && e.sys == w.sys && (e.wraps <==> !g.Checked?)
    ensures var h, i := EnvOf(w, inst, g, n).home(k, log), Lookup(w.table(log), Running(log));
      if !g.Native? then
        h == if k < |inst.m.functions| then In(inst.name, inst.version, true) else Nowhere(BadCode, true)
      else if i.Some? && k < |i.value.m.functions| then h == In(i.value.name, i.value.version, i.value == inst)
      else h == Nowhere(Badarg, i == Some(inst))
  {
    hide Lookup, Running, Extern;
    assert EnvOf(w, inst, g, n).home(k, log) == if g.Native? then HelperHome(w, inst, k, log) else OwnHome(inst, k);
  }

  /** The registry's entry finds the instance of that version in either slot of its name, and for
      a version in neither the current one. */
  lemma LookupIs(table: Table, name: nat, version: nat)
    ensures Lookup(table, None) == None && (name !in table ==> Lookup(table, Some((name, version))) == None)
    ensures name in table && table[name].current.version == version ==>
      Lookup(table, Some((name, version))) == Some(table[name].current)
    ensures name in table && table[name].current.version != version ==>
      var p := table[name].previous;
      Lookup(table, Some((name, version)))
        == if p.Some? && p.value.version == version then p else Some(table[name].current)
  {
  }

  /** The log on entering a target: a fully qualified one is noted. */
  function Entering(target: Req, inst: Instance, log: seq<Req>): seq<Req>
  {
    if target.op == TAIL_CALL then log else log + [Note(inst)]
  }

  /** Enters the stashed target and follows the chain to its end; each hop costs one fuel. */
  function Resume(fuel: nat, w: World, inst: Instance, log: seq<Req>): (o: Outcome)
    ensures o.Done? ==> o.left <= fuel && o.w != TAIL_SENTINEL
    decreases fuel, 1
  {
    var target := Stash(log);
    if target.None? then Broken(BadCallee, log)
    else
      var log' := log + [Took];
      match NextTarget(w, inst, target.value, log')
      case Refused(trap) => Trapped(trap, log')
      case Enter(inst', fi, args) =>
        var log'' := Entering(target.value, inst', log');
        if fuel == 0 then Spent(log'') else Invoked(fuel - 1, w, inst', fi, args, log'')
  }

  function Invoked(fuel: nat, w: World, inst: Instance, fi: nat, args: seq<Term>, log: seq<Req>): (o: Outcome)
    ensures o.Done? ==> o.left <= fuel && o.w != TAIL_SENTINEL
    decreases fuel, 2
  {
    var o := RunOnce(fuel, w, inst, fi, args, log);
    if o.Done? && o.w == TAIL_SENTINEL then Resume(o.left, w, inst, o.log) else o
  }

  /** The dynamic call: resolve in the table of the moment, note, invoke. */
  function Dynamic(fuel: nat, w: World, x: Ext, log: seq<Req>): (o: Outcome)
    ensures o.Done? ==> o.left <= fuel && o.w != TAIL_SENTINEL
    decreases fuel, 3
  {
    match Resolve(w.table(log), x.module_, x.name, x.args)
    case Refused(trap) => Trapped(trap, log)
    case Enter(inst, fi, args) => Invoked(fuel, w, inst, fi, args, log + [Note(inst)])
  }

  /** Back in the caller, which is noted again; a trap ends the process instead. */
  function Back(o: Outcome, caller: Option<Instance>): Outcome
  {
    if o.Done? && caller.Some? then Done(o.w, o.log + [Note(caller.value)], o.left) else o
  }

  /** The bound call: straight into the callee, its result checked for the sentinel only where
      the callee may tail-call out. Only then is anything noted. */
  function Direct(fuel: nat, w: World, t: ExtTarget, args: seq<Term>, log: seq<Req>): (o: Outcome)
    ensures o.Done? ==> o.left <= fuel
    decreases fuel, 3
  {
    var o := RunOnce(fuel, w, t.inst, t.fi, args, log);
    if t.mayTail && o.Done? && o.w == TAIL_SENTINEL
    then Back(Resume(o.left, w, t.inst, o.log), Lookup(w.table(o.log), Running(o.log))) else o
  }

  /** An external call from `inst`. The interpreter dispatches and comes back to its own
      instance. Compiled code calls directly where the site is bound to a function of that many
      arguments, and else by a helper that comes back to what the registry named. */
  function Extern(fuel: nat, w: World, inst: Instance, native: bool, x: Ext, log: seq<Req>): (o: Outcome)
    ensures o.Done? ==> o.left <= fuel
    decreases fuel, 4
  {
    var t := w.bind(inst, x.site, x.module_, x.name);
    if !native then Back(Dynamic(fuel, w, x, log), Some(inst))
    else if t.Some? && t.value.arity == |x.args| <= 16 then Direct(fuel, w, t.value, x.args, log)
    else Back(Dynamic(fuel, w, x, log), Lookup(w.table(log), Running(log)))
  }

  /** Compiled code goes straight into what its site is bound to exactly when the call has the
      function's arity and at most 16 arguments; every other call is dispatched. */
  lemma ExternIs(fuel: nat, w: World, inst: Instance, native: bool, x: Ext, log: seq<Req>, t: ExtTarget)
    ensures native && w.bind(inst, x.site, x.module_, x.name) == Some(t) && |x.args| == t.arity && t.arity <= 16 ==>
      Extern(fuel, w, inst, native, x, log) == Direct(fuel, w, t, x.args, log)
    ensures native && w.bind(inst, x.site, x.module_, x.name) == Some(t) && (|x.args| != t.arity || t.arity > 16) ==>
      Extern(fuel, w, inst, native, x, log)
        == Back(Dynamic(fuel, w, x, log), Lookup(w.table(log), Running(log)))
    ensures !native ==> Extern(fuel, w, inst, native, x, log) == Back(Dynamic(fuel, w, x, log), Some(inst))
  {
    hide Direct, Dynamic, Back, Lookup, Running;
  }

  /** The trampoline's loop, in constant native stack. */
  method Invoke(fuel: nat, w: World, inst: Instance, fi: nat, args: seq<Term>, log: seq<Req>) returns (o: Outcome)
    ensures o == Invoked(fuel, w, inst, fi, args, log)
  {
    hide RunFunction, RunCompiled;
    var left: nat, m, idx: nat, now, seen := fuel, inst, fi, args, log;
    while true
      invariant Invoked(fuel, w, inst, fi, args, log) == Invoked(left, w, m, idx, now, seen)
      decreases left
    {
      o := RunOnce(left, w, m, idx, now, seen);
      if !o.Done? || o.w != TAIL_SENTINEL { return; }
      var target := Stash(o.log);
      if target.None? { return Broken(BadCallee, o.log); }
      seen := o.log + [Took];
      match NextTarget(w, m, target.value, seen) {
        case Refused(trap) => return Trapped(trap, seen);
        case Enter(m', fi', args') =>
          seen := Entering(target.value, m', seen);
          if o.left == 0 { return Spent(seen); }
          left, m, idx, now := o.left - 1, m', fi', args';
      }
    }
  }

  /** Resuming the chain a directly called function left stashed. */
  method ResumeTail(fuel: nat, w: World, inst: Instance, log: seq<Req>) returns (o: Outcome)
    ensures o == Resume(fuel, w, inst, log)
  {
    hide RunFunction, RunCompiled;
    var left: nat, m, seen := fuel, inst, log;
    while true
      invariant Resume(fuel, w, inst, log) == Resume(left, w, m, seen)
      decreases left
    {
      var target := Stash(seen);
      if target.None? { return Broken(BadCallee, seen); }
      seen := seen + [Took];
      match NextTarget(w, m, target.value, seen) {
        case Refused(trap) => return Trapped(trap, seen);
        case Enter(m', fi, args) =>
          seen := Entering(target.value, m', seen);
          if left == 0 { return Spent(seen); }
          o := RunOnce(left - 1, w, m', fi, args, seen);
          if !o.Done? || o.w != TAIL_SENTINEL { return; }
          left, m, seen := o.left, m', o.log;
      }
    }
  }
}
