/** The two-version module table, sealed modules, and calls bound to them at compile time. */
module ModuleTable {
  import opened Basics
  import opened Bytecode
  import opened Verifier
  import opened Interp
  import opened Sentinels
  import opened Trampoline
  import Codec

  /** A change to the table: a module that decoded and verified, or a purge. */
  datatype Change =
    | Load(name: nat, m: Module, atoms: seq<nat>, seal: bool, native: bool, tailers: seq<bool>)
    | Purge(name: nat)

  function NextVersion(t: Table, name: nat): nat { if name in t then t[name].current.version + 1 else 1 }

  predicate Sealed(t: Table, name: nat) { name in t && t[name].current.sealed }

  function Fresh(t: Table, c: Change): Instance
    requires c.Load?
  {
    Instance(c.name, NextVersion(t, c.name), c.m, c.atoms, c.seal, c.native, c.tailers)
  }

  /** A sealed slot is left alone; otherwise the new instance takes over from the current. */
  function Applied(t: Table, c: Change): Table
  {
    if Sealed(t, c.name) && c.Load? then t
    else if c.Load? then t[c.name := Slot(Fresh(t, c), if c.name in t then Some(t[c.name].current) else None)]
    else if c.name in t then t[c.name := Slot(t[c.name].current, None)]
    else t
  }

  /** Verified code with its exact sentinel bits. */
  ghost predicate InstanceOk(i: Instance)
  {
    Verified(i.m) && |i.atoms| == |i.m.atoms| && ExactBits(i.m, i.tailers)
  }

  ghost predicate ExactBits(m: Module, bits: seq<bool>)
  {
    |bits| == |m.functions| && forall k :: 0 <= k < |bits| ==> (bits[k] <==> MayTail(m, k))
  }

  ghost predicate SlotOk(name: nat, s: Slot)
  {
    && s.current.name == name && InstanceOk(s.current)
    && (s.previous.Some? ==> s.previous.value.version < s.current.version && !s.previous.value.sealed)
  }

  ghost predicate TableOk(t: Table) { forall name :: name in t ==> SlotOk(name, t[name]) }

  ghost predicate ChangeOk(c: Change)
  {
    c.Load? ==> Verified(c.m) && |c.atoms| == |c.m.atoms| && ExactBits(c.m, c.tailers)
  }

  lemma ChangeKeeps(t: Table, c: Change)
    requires TableOk(t) && ChangeOk(c)
    ensures TableOk(Applied(t, c))
  {
    hide InstanceOk;
    if c.Load? { assert InstanceOk(Fresh(t, c)) by { FreshOk(t, c); } }
    if c.name in t { assert SlotOk(c.name, t[c.name]); }
  }

  lemma FreshOk(t: Table, c: Change)
    requires c.Load? && ChangeOk(c)
    ensures InstanceOk(Fresh(t, c))
  {
  }

  /** Tables over time, each from the one before by a change. */
  ghost predicate History(states: nat -> Table, changes: nat -> Change)
  {
    states(0) == map[] && forall k: nat :: ChangeOk(changes(k)) && states(k + 1) == Applied(states(k), changes(k))
  }

  lemma {:induction false} HistoryOk(states: nat -> Table, changes: nat -> Change, k: nat)
    requires History(states, changes)
    ensures TableOk(states(k))
    decreases k
  {
    if k > 0 {
      HistoryOk(states, changes, k - 1);
      assert ChangeOk(changes(k - 1)) && states(k - 1 + 1) == Applied(states(k - 1), changes(k - 1));
      ChangeKeeps(states(k - 1), changes(k - 1));
    }
  }

  /** A name's instance, once sealed, is its instance for ever; otherwise it is replaced only
      by one of a higher version, so a version names one instance. */
  lemma {:induction false} VersionsGrow(states: nat -> Table, changes: nat -> Change, i: nat, j: nat, name: nat)
    requires History(states, changes) && i <= j && name in states(i)
    ensures name in states(j)
    ensures var before, now := states(i)[name].current, states(j)[name].current;
      && (now == before || now.version > before.version)
      && (before.sealed ==> now == before)
    decreases j
  {
    if i < j {
      VersionsGrow(states, changes, i, j - 1, name);
      assert states(j - 1 + 1) == Applied(states(j - 1), changes(j - 1));
    }
  }

  /** Only compiled functions of sealed modules, of at most 16 arguments, are bound. */
  function DirectTarget(t: Table, module_: nat, name: nat): Option<ExtTarget>
  {
    if !Sealed(t, module_) || !t[module_].current.native then None
    else
      var inst := t[module_].current;
      var idx := FunctionNamed(inst, name);
      if idx.None? || inst.m.functions[idx.value].arity > 16 then None
      else
        Some(ExtTarget(inst, idx.value, inst.m.functions[idx.value].arity,
                       if idx.value < |inst.tailers| then inst.tailers[idx.value] else true))
  }

  /** Exactly the functions of compiled sealed modules, of at most 16 arguments, and by their
      bits. */
  lemma DirectIs(t: Table, module_: nat, name: nat, fi: nat)
    requires TableOk(t)
    ensures var d := DirectTarget(t, module_, name);
      d.Some? && d.value.fi == fi <==>
        && module_ in t && t[module_].current.sealed && t[module_].current.native
        && FirstNamed(t[module_].current, name, fi) && t[module_].current.m.functions[fi].arity <= 16
    ensures var d := DirectTarget(t, module_, name);
      d.Some? ==>
        && module_ in t && d.value.inst == t[module_].current && d.value.fi < |d.value.inst.m.functions|
        && d.value.arity == d.value.inst.m.functions[d.value.fi].arity
        && (d.value.mayTail <==> MayTail(d.value.inst.m, d.value.fi))
  {
    hide MayTail, Verified, Resolve;
    if module_ in t {
      assert SlotOk(module_, t[module_]);
      var inst := t[module_].current;
      FirstFound(inst, name, fi);
    }
  }

  /** A target bound at any earlier time is what the name resolves to now, and its bit still
      says whether it may tail-call. */
  lemma TargetStays(states: nat -> Table, changes: nat -> Change, bound: nat, now: nat, module_: nat, name: nat,
                    args: seq<Term>)
    requires History(states, changes) && bound <= now && DirectTarget(states(bound), module_, name).Some?
    requires |args| == DirectTarget(states(bound), module_, name).value.arity
    ensures var t := DirectTarget(states(bound), module_, name).value;
      && Resolve(states(now), module_, name, args) == Enter(t.inst, t.fi, args)
      && Verified(t.inst.m) && t.fi < |t.inst.m.functions| && t.inst.m.functions[t.fi].arity == |args|
      && module_ in states(now) && states(now)[module_].current == t.inst
      && (t.mayTail <==> MayTail(t.inst.m, t.fi))
  {
    hide History, MayTail, Verified;
    VersionsGrow(states, changes, bound, now, module_);
    HistoryOk(states, changes, now);
    assert SlotOk(module_, states(now)[module_]);
  }

  datatype LoadResult = Loaded(inst: Instance) | DecodeFailed(error: Codec.DecodeError)
      | VerifyFailed(fault: (nat, VerifyError))

  /** Bytes that may be loaded. */
  ghost predicate Acceptable(bytes: seq<Byte>) { Codec.Decoded(bytes).Ok? && Verified(Codec.Decoded(bytes).value) }

  ghost predicate Loads(c: Change, name: nat, m: Module, native: bool, seal: bool)
  {
    c.Load? && ChangeOk(c) && c.name == name && c.m == m && c.seal == seal && c.native == native
  }

  /** The instance a load makes: a version later than the current, its atoms interned. */
  ghost predicate IsInstance(i: Instance, t: Table, name: nat, m: Module, intern: seq<Byte> -> nat, native: bool,
                             seal: bool)
  {
    && i.name == name && i.version == (if name in t then t[name].current.version + 1 else 1)
    && i.m == m && i.native == native && i.sealed == seal && ExactBits(m, i.tailers)
    && |i.atoms| == |m.atoms| && forall k :: 0 <= k < |m.atoms| ==> i.atoms[k] == intern(m.atoms[k])
  }

  /** Who runs which version of which name; never a version newer than the table's. */
  ghost predicate RunningOk(t: Table, running: map<nat, (nat, nat)>)
  {
    forall pid :: pid in running ==> running[pid].0 in t && running[pid].1 <= t[running[pid].0].current.version
  }

  /** Processes still on an old version of `name`. */
  function Holdouts(running: map<nat, (nat, nat)>, name: nat, version: nat): set<nat>
  {
    set pid | pid in running && running[pid].0 == name && running[pid].1 < version
  }

  function Retained(running: map<nat, (nat, nat)>, alive: set<nat>): map<nat, (nat, nat)>
  {
    map pid | pid in running && pid in alive :: running[pid]
  }

  lemma RunningKept(t: Table, c: Change, running: map<nat, (nat, nat)>)
    requires RunningOk(t, running)
    ensures RunningOk(Applied(t, c), running)
  {
  }

  class Modules {
    var slots: Table
    var running: map<nat, (nat, nat)>

    ghost predicate Valid()
      reads this
    {
      TableOk(slots) && RunningOk(slots, running)
    }

    constructor ()
      ensures Valid() && slots == map[] && running == map[]
    {
      slots, running := map[], map[];
    }

    /** Decode, verify, intern, analyse, install. Nothing that fails to decode or verify ever
        reaches the table, and a sealed slot is never replaced. */
    method LoadFull(name: nat, bytes: seq<Byte>, intern: seq<Byte> -> nat, native: bool, seal: bool)
      returns (r: LoadResult)
      requires Valid()
      modifies this`slots
      ensures Valid()
      ensures r.Loaded? <==> Acceptable(bytes)
      ensures r.DecodeFailed? <==> Codec.Decoded(bytes).Err?
      ensures !r.Loaded? ==> slots == old(slots)
      ensures r.Loaded? ==> name in slots && r.inst == slots[name].current
      ensures r.Loaded? ==>
        exists c: Change :: Loads(c, name, Codec.Decoded(bytes).value, native, seal) && slots == Applied(old(slots), c)
      ensures r.Loaded? && Sealed(old(slots), name) ==> slots == old(slots)
      ensures r.Loaded? && !Sealed(old(slots), name) ==>
        && IsInstance(r.inst, old(slots), name, Codec.Decoded(bytes).value, intern, native, seal)
        && slots
           == old(slots)[name := Slot(r.inst, if name in old(slots) then Some(old(slots)[name].current) else None)]
    {
      hide Codec.Decoded, Verified, MayTail, TableOk, RunningOk;
      var error, m := Codec.DecodeModule(bytes);
      if error.Some? { return DecodeFailed(error.value); }
      var bad := Verify(m);
      if bad.Some? { return VerifyFailed(bad.value); }
      var atoms := seq(|m.atoms|, k requires 0 <= k < |m.atoms| => intern(m.atoms[k]));
      var tailers := SentinelReturners(m);
      var c := Load(name, m, atoms, seal, native, tailers);
      ChangeKeeps(slots, c);
      RunningKept(slots, c, running);
      assert Loads(c, name, m, native, seal);
      if name in slots && slots[name].current.sealed { return Loaded(slots[name].current); }
      var inst := Instance(name, NextVersion(slots, name), m, atoms, seal, native, tailers);
      slots := slots[name := Slot(inst, if name in slots then Some(slots[name].current) else None)];
      r := Loaded(inst);
    }

    /** Loading a sealed name again gives the instance it already names, unread. */
    method LoadSealed(name: nat, bytes: seq<Byte>, intern: seq<Byte> -> nat, native: bool) returns (r: LoadResult)
      requires Valid()
      modifies this`slots
      ensures Valid()
      ensures Sealed(old(slots), name) ==> slots == old(slots) && r == Loaded(old(slots)[name].current)
      ensures r.Loaded? ==> Sealed(slots, name) && r.inst == slots[name].current
      ensures !Sealed(old(slots), name) ==> (r.Loaded? <==> Acceptable(bytes))
      ensures !r.Loaded? ==> slots == old(slots)
    {
      hide Codec.Decoded, Verified, TableOk, RunningOk;
      if name in slots && slots[name].current.sealed { return Loaded(slots[name].current); }
      r := LoadFull(name, bytes, intern, native, true);
    }

    /** A process enters an instance that is or was the table's. */
    method NoteRunning(pid: nat, inst: Instance)
      requires Valid() && inst.name in slots && inst.version <= slots[inst.name].current.version
      modifies this`running
      ensures Valid() && running == old(running)[pid := (inst.name, inst.version)]
    {
      running := running[pid := (inst.name, inst.version)];
    }

    /** Drops the previous version and names the live processes to kill: exactly those still on
        an older version, so whoever survives runs the current one. */
    method PurgeOld(name: nat, alive: set<nat>) returns (killed: set<nat>)
      requires Valid()
      modifies this
      ensures Valid() && slots == Applied(old(slots), Purge(name))
      ensures name !in slots ==> slots == old(slots) && killed == {} && running == old(running)
      ensures name in slots ==> slots == old(slots)[name := Slot(old(slots)[name].current, None)]
      ensures name in slots ==> forall pid :: pid in running <==> pid in old(running) && pid in alive
      ensures forall pid :: pid in running ==> pid in old(running) && running[pid] == old(running)[pid]
      ensures name in slots ==> forall pid :: pid in killed <==>
        && pid in old(running) && pid in alive
        && old(running)[pid].0 == name && old(running)[pid].1 < old(slots)[name].current.version
      ensures forall pid :: pid in running && pid !in killed && running[pid].0 == name ==>
        running[pid].1 == slots[name].current.version
    {
      hide TableOk;
      ChangeKeeps(slots, Purge(name));
      RunningKept(slots, Purge(name), running);
      if name !in slots { return {}; }
      slots := slots[name := Slot(slots[name].current, None)];
      running := Retained(running, alive);
      killed := Holdouts(running, name, slots[name].current.version);
    }
  }
}
