/** The global cmd of the runner: a fixed string arena, two vectors of pointers, and the calls that fill them. */
module RunnerAccumulator {
  import opened RunnerCommands
  import opened RunnerProperties

  const SLOTS := 2 * MAX_ARGC

  /** A char*: NULL, a string of the arena, or a string of the inherited environment. */
  datatype Ptr = Null | Slot(i: nat) | Environ(k: nat)

  /** The contents of runner_cmd_t. */
  datatype Memory = Memory(name: Ptr, strings: seq<string>, envs: seq<Ptr>, params: seq<Ptr>,
                           nParams: nat, nEnvs: nat, sp: nat)

  /** p points to a used slot that holds s. */
  predicate Holds(m: Memory, p: Ptr, s: string) {
    p.Slot? && p.i < m.sp && p.i < |m.strings| && m.strings[p.i] == s
  }

  /** Every live pointer has a slot of its own. */
  ghost predicate Separate(m: Memory) {
    && (forall i, j :: 0 <= i < j < |m.params| && m.params[i].Slot? && m.params[j].Slot? ==> m.params[i] != m.params[j])
    && (forall i, j :: 0 <= i < j < |m.envs| && m.envs[i].Slot? && m.envs[j].Slot? ==> m.envs[i] != m.envs[j])
    && (forall i, j :: 0 <= i < |m.params| && 0 <= j < |m.envs| && m.params[i].Slot? ==> m.params[i] != m.envs[j])
    && (m.name.Slot? ==> m.name !in m.params && m.name !in m.envs)
  }

  /** No pointer leads to a slot at or above sp. */
  ghost predicate Below(m: Memory) {
    && (m.name.Slot? ==> m.name.i < m.sp)
    && (forall i :: 0 <= i < |m.params| ==> m.params[i].Null? || (m.params[i].Slot? && m.params[i].i < m.sp))
    && (forall i :: 0 <= i < |m.envs| ==> m.envs[i].Null? || (m.envs[i].Slot? && m.envs[i].i < m.sp))
  }

  ghost predicate Shape(m: Memory) {
    |m.strings| == SLOTS && |m.envs| == |m.params| == MAX_ARGC + 1 && m.sp <= SLOTS
  }

  /** The entries vs, stored from index `from` on, and NULL after them. */
  ghost predicate Vector(m: Memory, ptrs: seq<Ptr>, from: nat, vs: seq<string>) {
    && from + |vs| < |ptrs|
    && (forall i :: from <= i < from + |vs| ==> Holds(m, ptrs[i], vs[i - from]))
    && (forall i :: from + |vs| <= i < |ptrs| ==> ptrs[i].Null?)
  }

  /** The memory stands for the accumulator a. */
  ghost predicate Represents(m: Memory, a: Acc) {
    && Shape(m) && Separate(m) && Below(m) && Roomy(a)
    && m.sp == a.slots
    && (match a.section
        case None => a == BLANK && m.name == Null && m.nParams == 0
        case Some(s) => Holds(m, m.name, s) && m.nParams == a.n + 1)
    && (match a.exec
        case None => m.params[0] == Null
        case Some(s) => Holds(m, m.params[0], s))
    && Vector(m, m.params, 1, a.params)
    && m.nEnvs == |a.envs| && Vector(m, m.envs, 0, a.envs)
  }

  // ----- strncpy or snprintf into the next slot, and a pointer to it

  function PutName(m: Memory, s: string): Memory
    requires m.sp < |m.strings|
  {
    m.(strings := m.strings[m.sp := s], name := Slot(m.sp), nParams := 1, sp := m.sp + 1)
  }

  function PutExec(m: Memory, s: string): Memory
    requires m.sp < |m.strings| && |m.params| > 0
  {
    m.(strings := m.strings[m.sp := s], params := m.params[0 := Slot(m.sp)], sp := m.sp + 1)
  }

  function PutParam(m: Memory, s: string): Memory
    requires m.sp < |m.strings| && m.nParams < |m.params|
  {
    m.(strings := m.strings[m.sp := s], params := m.params[m.nParams := Slot(m.sp)],
       nParams := m.nParams + 1, sp := m.sp + 1)
  }

  function PutEnv(m: Memory, s: string): Memory
    requires m.sp < |m.strings| && m.nEnvs < |m.envs|
  {
    m.(strings := m.strings[m.sp := s], envs := m.envs[m.nEnvs := Slot(m.sp)], nEnvs := m.nEnvs + 1, sp := m.sp + 1)
  }

  lemma NameStored(m: Memory, a: Acc, s: string)
    requires Represents(m, a) && m.sp < SLOTS
    ensures Represents(PutName(m, s), a.(section := Some(s), n := 0, slots := a.slots + 1))
  {
  }

  lemma ExecStored(m: Memory, a: Acc, s: string)
    requires Represents(m, a) && m.sp < SLOTS && a.section.Some?
    ensures Represents(PutExec(m, s), a.(exec := Some(s), slots := a.slots + 1))
  {
  }

  lemma ParamStored(m: Memory, a: Acc, s: string)
    requires Represents(m, a) && m.sp < SLOTS && a.section.Some? && a.n < MAX_ARGC - 1
    ensures Represents(PutParam(m, s),
                       a.(params := if a.n < |a.params| then a.params[a.n := s] else a.params + [s],
                          n := a.n + 1, slots := a.slots + 1))
  {
  }

  lemma EnvStored(m: Memory, a: Acc, s: string)
    requires Represents(m, a) && m.sp < SLOTS && a.section.Some? && |a.envs| < MAX_ARGC
    ensures Represents(PutEnv(m, s), a.(envs := a.envs + [s], slots := a.slots + 1))
  {
  }

  /** The string a non-NULL pointer leads to. */
  predicate LeadsTo(p: Ptr, s: string, strings: seq<string>, environ: seq<string>) {
    match p
    case Null => false
    case Slot(i) => i < |strings| && strings[i] == s
    case Environ(k) => k < |environ| && environ[k] == s
  }

  class Runner {
    var name: Ptr
    const strings: array<string>
    const envs: array<Ptr>
    const params: array<Ptr>
    var nParams: nat
    var nEnvs: nat
    var sp: nat

    /** The environment of the runner itself. */
    const environ: seq<string>
    /** What the children were started with, in the order of the forks. */
    var launched: seq<Command>

    ghost var acc: Acc

    ghost function View(): Memory
      reads this, strings, envs, params
    {
      Memory(name, strings[..], envs[..], params[..], nParams, nEnvs, sp)
    }

    ghost predicate Valid()
      reads this, strings, envs, params
    {
      envs != params && Represents(View(), acc)
    }

    constructor (environ: seq<string>)
      ensures Valid() && acc == BLANK && launched == [] && this.environ == environ
      ensures fresh(strings) && fresh(envs) && fresh(params)
    {
      this.environ := environ;
      name, nParams, nEnvs, sp := Null, 0, 0, 0;
      strings := new string[SLOTS](_ => "");
      envs := new Ptr[MAX_ARGC + 1](_ => Null);
      params := new Ptr[MAX_ARGC + 1](_ => Null);
      launched := [];
      acc := BLANK;
    }

    /** memset(&cmd, 0, sizeof(cmd)). */
    method Clear()
      requires strings.Length == SLOTS && envs.Length == params.Length == MAX_ARGC + 1 && envs != params
      modifies this`name, this`nParams, this`nEnvs, this`sp, this`acc, strings, envs, params
      ensures Valid() && acc == BLANK
    {
      name, nParams, nEnvs, sp := Null, 0, 0, 0;
      forall i | 0 <= i < strings.Length {
        strings[i] := "";
      }
      forall i | 0 <= i < envs.Length {
        envs[i] := Null;
      }
      forall i | 0 <= i < params.Length {
        params[i] := Null;
      }
      acc := BLANK;
    }

    /** What execve makes of a NULL-terminated vector. */
    method ReadVector(ptrs: array<Ptr>, ghost vs: seq<string>) returns (v: seq<string>)
      requires |vs| < ptrs.Length && ptrs[|vs|] == Null
      requires forall i :: 0 <= i < |vs| ==> LeadsTo(ptrs[i], vs[i], strings[..], environ)
      ensures v == vs
    {
      v := [];
      var i := 0;
      while ptrs[i] != Null
        invariant 0 <= i <= |vs| && v == vs[..i]
        decreases |vs| - i
      {
        v := v + [if ptrs[i].Slot? then strings[ptrs[i].i] else environ[ptrs[i].k]];
        i := i + 1;
      }
    }

    /** Passes the inherited variables on, as long as there is room. */
    method AddInherited()
      requires envs != params && Represents(View(), acc)
      modifies this`nEnvs, envs
      ensures nEnvs == if |acc.envs| + |environ| <= 64 then |acc.envs| + |environ| else 64
      ensures forall j :: |acc.envs| <= j < nEnvs ==> envs[j] == Environ(j - |acc.envs|)
      ensures var vs := acc.envs + Inherited(environ, |acc.envs|);
              && |vs| < envs.Length && envs[|vs|] == Null
              && forall i :: 0 <= i < |vs| ==> LeadsTo(envs[i], vs[i], strings[..], environ)
    {
      ghost var n := nEnvs;
      var i := 0;
      assert forall j :: 0 <= j < n ==> Holds(View(), envs[..][j], acc.envs[j]);
      hide Represents, Holds;
      while i < |environ| && nEnvs < MAX_ARGC
        invariant 0 <= i <= |environ| && nEnvs == n + i <= MAX_ARGC
        invariant forall j :: 0 <= j < n ==> envs[j] == old(envs[j])
        invariant forall j :: n <= j < nEnvs ==> envs[j] == Environ(j - n)
        invariant forall j :: nEnvs <= j < envs.Length ==> envs[j] == Null
      {
        envs[nEnvs] := Environ(i);
        nEnvs := nEnvs + 1;
        i := i + 1;
      }
    }

    /** execute_command, in the parent: the child gets the command as it stands, and the memory is cleared. */
    method ExecuteCommand()
      requires Valid() && acc.exec.Some?
      modifies this, strings, envs, params
      ensures Valid() && acc == BLANK
      ensures launched == old(launched) + [Launch(old(acc), environ)]
    {
      AddInherited();
      ghost var argv := [acc.exec.value] + acc.params;
      var args := ReadVector(params, argv);
      var vars := ReadVector(envs, acc.envs + Inherited(environ, |acc.envs|));
      launched := launched + [Command(args, vars)];
      Clear();
    }

    // ----- The four stores of ini_handle, each into the next slot

    method StoreName(s: string)
      requires Valid() && sp < SLOTS
      modifies this`name, this`nParams, this`sp, this`acc, strings
      ensures Valid() && acc == old(acc).(section := Some(s), n := 0, slots := old(acc).slots + 1)
    {
      NameStored(View(), acc, s);
      ghost var m := PutName(View(), s);
      nParams := 1;
      strings[sp] := s;
      name := Slot(sp);
      sp := sp + 1;
      acc := acc.(section := Some(s), n := 0, slots := acc.slots + 1);
      assert View() == m;
      hide Represents;
    }

    method StoreExec(s: string)
      requires Valid() && sp < SLOTS && acc.section.Some?
      modifies this`sp, this`acc, strings, params
      ensures Valid() && acc == old(acc).(exec := Some(s), slots := old(acc).slots + 1)
    {
      ExecStored(View(), acc, s);
      ghost var m := PutExec(View(), s);
      strings[sp] := s;
      params[0] := Slot(sp);
      sp := sp + 1;
      acc := acc.(exec := Some(s), slots := acc.slots + 1);
      assert View() == m;
      hide Represents;
    }

    method StoreParam(s: string)
      requires Valid() && sp < SLOTS && acc.section.Some? && acc.n < MAX_ARGC - 1
      modifies this`nParams, this`sp, this`acc, strings, params
      ensures Valid()
      ensures var a := old(acc);
              acc == a.(params := if a.n < |a.params| then a.params[a.n := s] else a.params + [s],
                        n := a.n + 1, slots := a.slots + 1)
    {
      ParamStored(View(), acc, s);
      ghost var m := PutParam(View(), s);
      strings[sp] := s;
      params[nParams] := Slot(sp);
      sp := sp + 1;
      nParams := nParams + 1;
      acc := acc.(params := if acc.n < |acc.params| then acc.params[acc.n := s] else acc.params + [s],
                  n := acc.n + 1, slots := acc.slots + 1);
      assert View() == m;
      hide Represents;
    }

    method StoreEnv(s: string)
      requires Valid() && sp < SLOTS && acc.section.Some? && |acc.envs| < MAX_ARGC
      modifies this`nEnvs, this`sp, this`acc, strings, envs
      ensures Valid() && acc == old(acc).(envs := old(acc).envs + [s], slots := old(acc).slots + 1)
    {
      EnvStored(View(), acc, s);
      ghost var m := PutEnv(View(), s);
      strings[sp] := s;
      envs[nEnvs] := Slot(sp);
      sp := sp + 1;
      nEnvs := nEnvs + 1;
      acc := acc.(envs := acc.envs + [s], slots := acc.slots + 1);
      assert View() == m;
      hide Represents;
    }

    /** What the conditions of ini_handle and main see. */
    lemma Tests(section: string)
      requires Valid()
      ensures strings.Length == SLOTS && params.Length == MAX_ARGC + 1 > 0 && sp == acc.slots
      ensures name == Null || (name.Slot? && name.i < strings.Length)
      ensures acc.section == Some(section) <==> name != Null && strings[name.i] == section
      ensures acc.exec.Some? <==> params[0] != Null
      ensures acc.exec.Some? ==> acc.section.Some?
    {
      assert name.Slot? ==> strings[..][name.i] == strings[name.i];
      assert params[..][0] == params[0];
    }

    /** ini_handle. */
    method IniHandle(e: Event)
      requires Valid() && Fits(acc, e)
      modifies this, strings, envs, params
      ensures Valid()
      ensures acc == Feed(old(acc), e)
      ensures launched == old(launched) + Launches(old(acc), e, environ)
    {
      Tests(e.section);
      hide Valid, Launch, EnvEntry;
      if name == Null || strings[name.i] != e.section {
        if params[0] != Null {
          ExecuteCommand();
          Tests(e.section);
        }
        StoreName(e.section);
        Tests(e.section);
      }
      assert acc == Turn(old(acc), e);
      if e.name == "exec" {
        StoreExec(e.value);
        Tests(e.section);
      }
      if e.name == "param" {
        StoreParam(e.value);
      } else {
        StoreEnv(EnvEntry(e));
      }
    }

    /** main up to the monitoring: parse the configuration, then flush the last section. */
    method Load(events: seq<Event>)
      requires Valid() && FitAll(acc, events)
      modifies this, strings, envs, params
      ensures Valid()
      ensures launched == old(launched) + Launched(old(acc), events, environ)
    {
      hide *;
      ghost var start := acc;
      Ends(start, events, environ);
      for i := 0 to |events|
        invariant Valid() && acc == FeedAll(start, events[..i])
        invariant FitAll(start, events[..i]) && FitAll(acc, events[i..])
        invariant launched == old(launched) + LaunchAll(start, events[..i], environ)
      {
        OneMore(start, events, i, environ);
        IniHandle(events[i]);
      }
      Tests("");
      if params[0] != Null {
        ExecuteCommand();
      }
    }

    lemma Ends(start: Acc, events: seq<Event>, environ: seq<string>)
      requires FitAll(start, events)
      ensures events[..|events|] == events && events[0..] == events
      ensures FitAll(start, events[..0]) && FeedAll(start, events[..0]) == start
      ensures LaunchAll(start, events[..0], environ) == []
      ensures var a := FeedAll(start, events);
              Launched(start, events, environ)
              == LaunchAll(start, events, environ) + if a.exec.Some? then [Launch(a, environ)] else []
    {
      assert events[..0] == [] && events[..|events|] == events;
    }

    lemma OneMore(start: Acc, events: seq<Event>, i: nat, environ: seq<string>)
      requires i < |events| && FitAll(start, events[..i]) && FitAll(FeedAll(start, events[..i]), events[i..])
      ensures var a, e := FeedAll(start, events[..i]), events[i];
              && Fits(a, e)
              && FeedAll(start, events[..i + 1]) == Feed(a, e)
              && FitAll(start, events[..i + 1]) && FitAll(Feed(a, e), events[i + 1..])
              && LaunchAll(start, events[..i + 1], environ)
                 == LaunchAll(start, events[..i], environ) + Launches(a, e, environ)
    {
      var e := events[i];
      assert events[i..][0] == e && events[i..][1..] == events[i + 1..];
      assert events[..i + 1] == events[..i] + [e];
      FeedSplit(start, events[..i], [e], environ);
      FeedOne(FeedAll(start, events[..i]), e, environ);
    }
  }

  /** The runner from its start to the launch of the last section. */
  method LaunchServices(events: seq<Event>, environ: seq<string>) returns (launched: seq<Command>)
    requires forall run :: run in Runs(events) ==> HasExec(run) && RunFits(run)
    ensures OnePerRun(launched, Runs(events), environ)
  {
    EverySectionLaunched(events, environ);
    hide *;
    var runner := new Runner(environ);
    runner.Load(events);
    launched := runner.launched;
    assert launched == Launched(BLANK, events, environ);
  }
}
