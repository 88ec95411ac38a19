/** What the parts of a section's command are, read off the events of the configuration and the environment. */
module RunnerMeaning {
  import opened RunnerCommands
  import opened RunnerProperties

  // ----- The parts of one section

  /** The parameters are the values of the param events, in order. */
  lemma {:induction false} ParamsMeaning(xs: seq<Event>, ys: seq<Event>, e: Event)
    ensures Params(xs + ys) == Params(xs) + Params(ys)
    ensures Params([]) == [] && Params([e]) == if e.name == "param" then [e.value] else []
    decreases |ys|
  {
    assert [e][..0] == [];
    if ys == [] {
      assert xs + ys == xs;
    } else {
      var n := |ys| - 1;
      ParamsMeaning(xs, ys[..n], e);
      assert (xs + ys)[..|xs + ys| - 1] == xs + ys[..n];
    }
  }

  /** The variables are name=value for every other event, in order; exec events are among them. */
  lemma {:induction false} EntriesMeaning(xs: seq<Event>, ys: seq<Event>, e: Event)
    ensures Entries(xs + ys) == Entries(xs) + Entries(ys)
    ensures Entries([]) == [] && Entries([e]) == if e.name == "param" then [] else [EnvEntry(e)]
    ensures var text := e.name + "=" + e.value; EnvEntry(e) == if |text| <= 254 then text else text[..254]
    decreases |ys|
  {
    assert [e][..0] == [];
    hide EnvEntry;
    if ys == [] {
      assert xs + ys == xs;
    } else {
      var n := |ys| - 1;
      EntriesMeaning(xs, ys[..n], e);
      assert (xs + ys)[..|xs + ys| - 1] == xs + ys[..n];
    }
  }

  /** Event i names the executable: no exec event comes after it. */
  ghost predicate FinalExec(run: seq<Event>, i: int) {
    0 <= i < |run| && run[i].name == "exec" && forall j :: i < j < |run| ==> run[j].name != "exec"
  }

  /** Of several exec events in a section the last one counts. */
  lemma {:induction false} LastExecMeaning(run: seq<Event>)
    ensures HasExec(run) <==> exists i :: FinalExec(run, i)
    ensures forall i :: FinalExec(run, i) ==> LastExec(run) == Some(run[i].value)
    decreases |run|
  {
    if run != [] {
      var n := |run| - 1;
      LastExecMeaning(run[..n]);
      if run[n].name == "exec" {
        assert FinalExec(run, n);
      } else {
        forall i
          ensures FinalExec(run, i) <==> FinalExec(run[..n], i)
        {
          assert FinalExec(run[..n], i) ==> run[..n][i] == run[i];
          assert FinalExec(run, i) ==> i < n && forall j :: i < j < n ==> run[..n][j] == run[j];
        }
      }
    }
  }

  // ----- What a child is started with

  /** The own entries come first, then as much of the runner's environment as fits into 64 entries. */
  ghost predicate Inherits(env: seq<string>, own: seq<string>, environ: seq<string>) {
    && own <= env
    && |env| == (if |own| + |environ| <= 64 then |own| + |environ| else 64)
    && forall i :: |own| <= i < |env| ==> env[i] == environ[i - |own|]
  }

  lemma CommandMeaning(run: seq<Event>, environ: seq<string>, i: int)
    requires FinalExec(run, i) && |Entries(run)| <= 64
    ensures HasExec(run)
    ensures CommandOf(run, environ).argv == [run[i].value] + Params(run)
    ensures Inherits(CommandOf(run, environ).env, Entries(run), environ)
  {
    LastExecMeaning(run);
  }

  /** The command that execute_command starts, from whatever has been collected. */
  lemma LaunchMeaning(a: Acc, environ: seq<string>)
    requires a.exec.Some? && |a.envs| <= 64
    ensures Launch(a, environ).argv == [a.exec.value] + a.params
    ensures Inherits(Launch(a, environ).env, a.envs, environ)
  {
  }

  // ----- The sections of a configuration

  function Joined(runs: seq<seq<Event>>): seq<Event> {
    if runs == [] then [] else runs[0] + Joined(runs[1..])
  }

  /** The sections make up the configuration; each has one name, and the next one another. */
  lemma {:induction false} RunsMeaning(events: seq<Event>)
    ensures var runs := Runs(events);
            && Joined(runs) == events
            && (forall i :: 0 <= i < |runs| ==> runs[i] != [] && SameSection(runs[i], runs[i][0].section))
            && (forall i :: 0 < i < |runs| ==> runs[i - 1][0].section != runs[i][0].section)
            && (events != [] ==> runs != [] && runs[0] != [] && runs[0][0] == events[0])
    decreases |events|
  {
    if events != [] {
      var k := RunLength(events);
      RunsMeaning(events[k..]);
      var runs, rest := Runs(events), Runs(events[k..]);
      assert runs == [events[..k]] + rest && runs[1..] == rest;
      assert events == events[..k] + events[k..];
      assert rest != [] ==> rest[0][0] == events[k];
    }
  }

  /** The own commands are those of the sections with an executable, in order. */
  lemma {:induction false} OwnCommandsMeaning(xs: seq<seq<Event>>, ys: seq<seq<Event>>, run: seq<Event>,
                                              environ: seq<string>)
    ensures OwnCommands(xs + ys, environ) == OwnCommands(xs, environ) + OwnCommands(ys, environ)
    ensures OwnCommands([run], environ) == if HasExec(run) then [CommandOf(run, environ)] else []
    decreases |xs|
  {
    assert [run][1..] == [] && OwnCommands([], environ) == [];
    hide HasExec, CommandOf;
    if xs == [] {
      assert xs + ys == ys;
    } else {
      OwnCommandsMeaning(xs[1..], ys, run, environ);
      assert (xs + ys)[1..] == xs[1..] + ys;
    }
  }

  // ----- The sizes

  /** How many of the 128 slots a section takes: its name, each event, and each exec once more. */
  lemma {:induction false} SlotsMeaning(xs: seq<Event>, ys: seq<Event>, e: Event)
    ensures SlotsOf(xs + ys) == SlotsOf(xs) + SlotsOf(ys) - 1
    ensures SlotsOf([]) == 1 && SlotsOf([e]) == if e.name == "exec" then 3 else 2
    decreases |ys|
  {
    assert [e][..0] == [];
    if ys == [] {
      assert xs + ys == xs;
    } else {
      var n := |ys| - 1;
      SlotsMeaning(xs, ys[..n], e);
      assert (xs + ys)[..|xs + ys| - 1] == xs + ys[..n];
    }
  }

  lemma RunFitsMeaning(run: seq<Event>)
    ensures RunFits(run) <==>
            && SlotsOf(run) <= 127 && |Params(run)| <= 63 && |Entries(run)| <= 64
            && forall e :: e in run ==>
                 |e.section| <= 254 && (e.name == "exec" || e.name == "param" ==> |e.value| <= 254)
  {
  }
}
