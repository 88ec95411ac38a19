/** One command per section: when the runner's accumulator computes it, and when it does not. */
module RunnerProperties {
  import opened RunnerCommands

  // ----- Feeding in two parts

  lemma {:induction false} FeedSplit(a: Acc, xs: seq<Event>, ys: seq<Event>, environ: seq<string>)
    ensures FeedAll(a, xs + ys) == FeedAll(FeedAll(a, xs), ys)
    ensures FitAll(a, xs + ys) <==> FitAll(a, xs) && FitAll(FeedAll(a, xs), ys)
    ensures LaunchAll(a, xs + ys, environ) == LaunchAll(a, xs, environ) + LaunchAll(FeedAll(a, xs), ys, environ)
    decreases |xs|
  {
    if xs == [] {
      assert xs + ys == ys;
      if FitAll(a, ys) {
        assert Roomy(a);
      }
    } else {
      assert (xs + ys)[1..] == xs[1..] + ys;
      FeedSplit(Feed(a, xs[0]), xs[1..], ys, environ);
    }
  }

  lemma LaunchedSplit(a: Acc, run: seq<Event>, rest: seq<Event>, environ: seq<string>)
    ensures Launched(a, run + rest, environ) == LaunchAll(a, run, environ) + Launched(FeedAll(a, run), rest, environ)
  {
    FeedSplit(a, run, rest, environ);
  }

  // ----- Within one section

  ghost predicate SameSection(run: seq<Event>, section: string) {
    forall i :: 0 <= i < |run| ==> run[i].section == section
  }

  /** The accumulator a new section starts from, but for its name. */
  function Base(a: Acc): Acc {
    if a.exec.Some? then BLANK else a
  }

  /** New parameters written over old ones, which show behind them. */
  function Overlay(params: seq<string>, prior: seq<string>): seq<string> {
    params + if |params| < |prior| then prior[|params|..] else []
  }

  /** The accumulator after a section has been read into base. */
  function Gathered(base: Acc, run: seq<Event>, section: string): Acc {
    Acc(Some(section), if HasExec(run) then LastExec(run) else base.exec, Overlay(Params(run), base.params),
        |Params(run)|, base.envs + Entries(run), base.slots + SlotsOf(run))
  }

  /** One slot for the section name, one for each event, and one more for each exec. */
  function SlotsOf(run: seq<Event>): nat
    decreases |run|
  {
    if run == [] then 1
    else SlotsOf(run[..|run| - 1]) + if run[|run| - 1].name == "exec" then 2 else 1
  }

  lemma OverlayExtend(params: seq<string>, prior: seq<string>, p: string)
    ensures var now, n := Overlay(params, prior), |params|;
            Overlay(params + [p], prior) == if n < |now| then now[n := p] else now + [p]
  {
  }

  lemma GatherOne(base: Acc, run: seq<Event>, section: string, environ: seq<string>)
    requires run != [] && run[|run| - 1].section == section
    ensures var b, e := Gathered(base, run[..|run| - 1], section), run[|run| - 1];
            Feed(b, e) == Gathered(base, run, section) && Launches(b, e, environ) == []
  {
    var n := |run| - 1;
    OverlayExtend(Params(run[..n]), base.params, run[n].value);
    hide Overlay, EnvEntry;
  }

  lemma GatherFirst(a: Acc, e: Event, environ: seq<string>)
    requires a.section != Some(e.section)
    ensures Turn(a, e) == Gathered(Base(a), [], e.section)
    ensures Feed(a, e) == Gathered(Base(a), [e], e.section) && Launches(a, e, environ) == Flush(a, environ)
  {
    assert Base(a).envs + [] == Base(a).envs && Overlay([], Base(a).params) == Base(a).params;
    assert [e][..0] == [];
    GatherOne(Base(a), [e], e.section, environ);
    assert Feed(a, e) == Feed(Turn(a, e), e);
  }

  lemma FeedOne(a: Acc, e: Event, environ: seq<string>)
    ensures FeedAll(a, [e]) == Feed(a, e) && LaunchAll(a, [e], environ) == Launches(a, e, environ)
    ensures Fits(a, e) ==> FitAll(a, [e])
  {
    assert [e][1..] == [];
  }

  /** Whatever was pending is launched first; the section is then gathered into what the runner starts from. */
  lemma {:induction false} GatherRun(a: Acc, run: seq<Event>, section: string, environ: seq<string>)
    requires run != [] && SameSection(run, section) && a.section != Some(section)
    ensures FeedAll(a, run) == Gathered(Base(a), run, section)
    ensures LaunchAll(a, run, environ) == Flush(a, environ)
    decreases |run|
  {
    hide Feed, Launches, Gathered, Flush, FeedAll, LaunchAll;
    var n := |run| - 1;
    var front, e := run[..n], run[n];
    assert run == front + [e];
    if n == 0 {
      assert run == [e];
      FeedOne(a, e, environ);
      GatherFirst(a, e, environ);
    } else {
      GatherRun(a, front, section, environ);
      FeedSplit(a, front, [e], environ);
      FeedOne(FeedAll(a, front), e, environ);
      GatherOne(Base(a), run, section, environ);
    }
  }

  /** A section names an executable when one of its events does. */
  lemma {:induction false} HasExecMeaning(run: seq<Event>)
    ensures HasExec(run) <==> exists i :: 0 <= i < |run| && run[i].name == "exec"
    decreases |run|
  {
    if run != [] {
      var n := |run| - 1;
      HasExecMeaning(run[..n]);
      if HasExec(run[..n]) {
        var i :| 0 <= i < n && run[..n][i].name == "exec";
        assert run[i].name == "exec";
      }
      if exists i :: 0 <= i < |run| && run[i].name == "exec" && run[n].name != "exec" {
        var i :| 0 <= i < |run| && run[i].name == "exec";
        assert run[..n][i].name == "exec";
      }
    }
  }

  // ----- The whole configuration

  /** One command per section, in order. */
  ghost predicate OnePerRun(cmds: seq<Command>, runs: seq<seq<Event>>, environ: seq<string>) {
    && |cmds| == |runs|
    && forall i :: 0 <= i < |runs| ==> HasExec(runs[i]) && cmds[i] == CommandOf(runs[i], environ)
  }

  /** The accumulator is not inside the section the events start with. */
  ghost predicate AtBoundary(a: Acc, events: seq<Event>) {
    events != [] ==> a.section != Some(events[0].section)
  }

  lemma RunsHead(events: seq<Event>)
    requires events != []
    ensures var k := RunLength(events);
            && Runs(events) == [events[..k]] + Runs(events[k..])
            && events[..k] in Runs(events)
            && (forall run :: run in Runs(events[k..]) ==> run in Runs(events))
            && (events[k..] != [] ==> events[k..][0].section != events[0].section)
  {
  }

  /** How many sections name an executable. */
  function Executables(runs: seq<seq<Event>>): nat {
    if runs == [] then 0 else (if HasExec(runs[0]) then 1 else 0) + Executables(runs[1..])
  }

  /** The first section, when no command is pending: it is launched by the next one or by the flush, or carried on. */
  lemma FirstRun(a: Acc, events: seq<Event>, environ: seq<string>)
    requires events != [] && AtBoundary(a, events) && a.exec.None?
    ensures var k := RunLength(events);
            var b := Gathered(a, events[..k], events[0].section);
            && AtBoundary(b, events[k..]) && AtBoundary(BLANK, events[k..]) && (b.exec.Some? <==> HasExec(events[..k]))
            && Launched(a, events, environ) ==
               if HasExec(events[..k]) then [Launch(b, environ)] + Launched(BLANK, events[k..], environ)
               else Launched(b, events[k..], environ)
  {
    var k := RunLength(events);
    var run, rest := events[..k], events[k..];
    var b := Gathered(a, run, events[0].section);
    assert events == run + rest && (rest != [] ==> rest[0].section != events[0].section);
    GatherRun(a, run, events[0].section, environ);
    LaunchedSplit(a, run, rest, environ);
    if b.exec.Some? {
      PendingFirst(b, rest, environ);
    }
    hide Launched, FeedAll, LaunchAll, Launch, RunLength;
  }

  /** A section change with a pending command launches it and starts from scratch. */
  lemma PendingFirst(a: Acc, events: seq<Event>, environ: seq<string>)
    requires AtBoundary(a, events) && a.exec.Some?
    ensures Launched(a, events, environ) == [Launch(a, environ)] + Launched(BLANK, events, environ)
  {
    if events != [] {
      assert Turn(a, events[0]) == Turn(BLANK, events[0]);
      hide Store, Turn, Launch;
      assert Feed(a, events[0]) == Feed(BLANK, events[0]);
      assert LaunchAll(a, events, environ) == [Launch(a, environ)] + LaunchAll(BLANK, events, environ);
    }
  }

  lemma {:induction false} CountFrom(a: Acc, events: seq<Event>, environ: seq<string>)
    requires AtBoundary(a, events) && a.exec.None?
    ensures |Launched(a, events, environ)| == Executables(Runs(events))
    decreases |events|
  {
    if events != [] {
      var k := RunLength(events);
      RunsHead(events);
      FirstRun(a, events, environ);
      if HasExec(events[..k]) {
        CountFrom(BLANK, events[k..], environ);
      } else {
        CountFrom(Gathered(a, events[..k], events[0].section), events[k..], environ);
      }
    }
  }

  lemma {:induction false} ExecutablesAll(runs: seq<seq<Event>>)
    ensures Executables(runs) <= |runs|
    ensures Executables(runs) == |runs| <==> forall run :: run in runs ==> HasExec(run)
    decreases |runs|
  {
    if runs != [] {
      ExecutablesAll(runs[1..]);
      assert runs == [runs[0]] + runs[1..];
    }
  }

  // ----- What sections without an executable leave behind

  /** NoSpill, read from the front, with p parameters and e variables already left behind. */
  ghost predicate NoSpillFrom(p: nat, e: nat, runs: seq<seq<Event>>)
    decreases |runs|
  {
    runs != [] ==>
      if HasExec(runs[0]) then p <= |Params(runs[0])| && e == 0 && NoSpillFrom(0, 0, runs[1..])
      else NoSpillFrom(if p < |Params(runs[0])| then |Params(runs[0])| else p, e + |Entries(runs[0])|, runs[1..])
  }

  /** Section j is the first that names an executable. */
  ghost predicate FirstExec(runs: seq<seq<Event>>, j: int) {
    0 <= j < |runs| && HasExec(runs[j]) && forall k :: 0 <= k < j ==> !HasExec(runs[k])
  }

  /** What is already left behind does not reach past the first section that names an executable. */
  ghost predicate Covered(p: nat, e: nat, runs: seq<seq<Event>>) {
    forall j :: FirstExec(runs, j) ==> p <= |Params(runs[j])| && e == 0
  }

  lemma {:induction false} NoSpillFront(p: nat, e: nat, runs: seq<seq<Event>>)
    ensures NoSpillFrom(p, e, runs) <==> Covered(p, e, runs) && NoSpill(runs)
    decreases |runs|
  {
    hide *;
    if runs == [] {
      NothingLeftBehind(p, e);
    } else {
      var run, rest := runs[0], runs[1..];
      assert runs == [run] + rest;
      HeadOfRuns(p, e, run, rest, []);
      if HasExec(run) {
        NoSpillFront(0, 0, rest);
        CoveredByExec(p, e, runs);
        SpillBehindExec(runs);
      } else {
        NoSpillFront(if p < |Params(run)| then |Params(run)| else p, e + |Entries(run)|, rest);
        CoveredBySpill(p, e, runs);
        SpillInFront(runs);
        CoveredBoth(p, e, |Params(run)|, |Entries(run)|, rest);
      }
    }
  }

  lemma NothingLeftBehind(p: nat, e: nat)
    ensures NoSpillFrom(p, e, []) && Covered(p, e, []) && NoSpill([])
  {
  }

  lemma CoveredByExec(p: nat, e: nat, runs: seq<seq<Event>>)
    requires runs != [] && HasExec(runs[0])
    ensures Covered(p, e, runs) <==> p <= |Params(runs[0])| && e == 0
    ensures Covered(0, 0, runs[1..])
  {
    hide HasExec, Params;
    assert FirstExec(runs, 0);
  }

  lemma CoveredBoth(p: nat, e: nat, q: nat, f: nat, runs: seq<seq<Event>>)
    ensures Covered(if p < q then q else p, e + f, runs) <==> Covered(p, e, runs) && Covered(q, f, runs)
  {
    hide FirstExec, Params;
  }

  lemma CoveredBySpill(p: nat, e: nat, runs: seq<seq<Event>>)
    requires runs != [] && !HasExec(runs[0])
    ensures Covered(p, e, runs) <==> Covered(p, e, runs[1..])
  {
    hide HasExec, Params;
    forall j | FirstExec(runs, j)
      ensures FirstExec(runs[1..], j - 1)
    {
    }
    forall j | FirstExec(runs[1..], j)
      ensures FirstExec(runs, j + 1)
    {
      FirstExecShifts(runs, j);
    }
  }

  lemma FirstExecShifts(runs: seq<seq<Event>>, j: int)
    requires runs != [] && !HasExec(runs[0]) && FirstExec(runs[1..], j)
    ensures FirstExec(runs, j + 1) && NextExec(runs, 0, j + 1)
  {
    forall k | 0 < k < j + 1
      ensures !HasExec(runs[k])
    {
      assert runs[1..][k - 1] == runs[k];
    }
  }

  lemma NextExecShifts(runs: seq<seq<Event>>, i: int, j: int)
    requires runs != []
    ensures 0 <= i ==> (NextExec(runs[1..], i, j) <==> NextExec(runs, i + 1, j + 1))
  {
    hide HasExec;
    var rest := runs[1..];
    if 0 <= i < j < |rest| {
      assert forall k :: i <= k < j ==> rest[k] == runs[k + 1];
      assert forall k :: i + 1 <= k < j + 1 ==> runs[k] == rest[k - 1];
    }
  }

  /** Nothing in front of an executable reaches behind it. */
  lemma SpillBehindExec(runs: seq<seq<Event>>)
    requires runs != [] && HasExec(runs[0])
    ensures NoSpill(runs) <==> NoSpill(runs[1..])
  {
    forall i, j | NextExec(runs, i, j)
      ensures NextExec(runs[1..], i - 1, j - 1) && runs[i] == runs[1..][i - 1] && runs[j] == runs[1..][j - 1]
    {
      assert i != 0;
      NextExecShifts(runs, i - 1, j - 1);
    }
    forall i, j | NextExec(runs[1..], i, j)
      ensures NextExec(runs, i + 1, j + 1)
    {
      NextExecShifts(runs, i, j);
    }
    hide NextExec, HasExec, Params, Entries;
  }

  lemma SpillInFront(runs: seq<seq<Event>>)
    requires runs != [] && !HasExec(runs[0])
    ensures NoSpill(runs) <==> NoSpill(runs[1..]) && Covered(|Params(runs[0])|, |Entries(runs[0])|, runs[1..])
  {
    forall i, j | NextExec(runs, i, j)
      ensures runs[j] == runs[1..][j - 1]
      ensures if i == 0 then FirstExec(runs[1..], j - 1)
              else NextExec(runs[1..], i - 1, j - 1) && runs[i] == runs[1..][i - 1]
    {
      if i != 0 {
        NextExecShifts(runs, i - 1, j - 1);
      }
    }
    forall i, j | NextExec(runs[1..], i, j)
      ensures NextExec(runs, i + 1, j + 1)
    {
      NextExecShifts(runs, i, j);
    }
    forall j | FirstExec(runs[1..], j)
      ensures NextExec(runs, 0, j + 1)
    {
      FirstExecShifts(runs, j);
    }
    hide NextExec, FirstExec, HasExec, Params, Entries;
  }

  /** From an accumulator that carries parameters and variables of sections already passed. */
  lemma {:induction false} OwnIfNoSpill(a: Acc, events: seq<Event>, environ: seq<string>)
    requires AtBoundary(a, events) && a.exec.None?
    requires NoSpillFrom(|a.params|, |a.envs|, Runs(events))
    ensures Launched(a, events, environ) == OwnCommands(Runs(events), environ)
    decreases |events|
  {
    hide *;
    BlankCarriesNothing();
    if events == [] {
      NothingLaunched(a, environ);
    } else {
      var k := RunLength(events);
      var run, rest := events[..k], events[k..];
      RunsHead(events);
      FirstRun(a, events, environ);
      HeadOfRuns(|a.params|, |a.envs|, run, Runs(rest), environ);
      if HasExec(run) {
        OwnIfNoSpill(BLANK, rest, environ);
        OwnCommand(a, run, events[0].section, environ);
      } else {
        CarriedSizes(a, run, events[0].section);
        OwnIfNoSpill(Gathered(a, run, events[0].section), rest, environ);
      }
    }
  }

  /** An empty environment shows every spill. */
  lemma {:induction false} NoSpillIfOwn(a: Acc, events: seq<Event>)
    requires AtBoundary(a, events) && a.exec.None?
    requires Launched(a, events, []) == OwnCommands(Runs(events), [])
    ensures NoSpillFrom(|a.params|, |a.envs|, Runs(events))
    decreases |events|
  {
    hide *;
    BlankCarriesNothing();
    if events == [] {
      NothingLaunched(a, []);
    } else {
      var k := RunLength(events);
      var run, rest := events[..k], events[k..];
      var b := Gathered(a, run, events[0].section);
      RunsHead(events);
      FirstRun(a, events, []);
      HeadOfRuns(|a.params|, |a.envs|, run, Runs(rest), []);
      if HasExec(run) {
        SameHeads(Launch(b, []), Launched(BLANK, rest, []), CommandOf(run, []), OwnCommands(Runs(rest), []));
        NoSpillIfOwn(BLANK, rest);
        OwnCommand(a, run, events[0].section, []);
      } else {
        CarriedSizes(a, run, events[0].section);
        NoSpillIfOwn(b, rest);
      }
    }
  }

  lemma BlankCarriesNothing()
    ensures BLANK.exec.None? && |BLANK.params| == |BLANK.envs| == 0
  {
  }

  lemma NothingLaunched(a: Acc, environ: seq<string>)
    requires a.exec.None?
    ensures Launched(a, [], environ) == [] == OwnCommands(Runs([]), environ)
    ensures NoSpillFrom(|a.params|, |a.envs|, Runs([]))
  {
  }

  lemma CarriedSizes(a: Acc, run: seq<Event>, section: string)
    requires a.exec.None?
    ensures var b, p := Gathered(a, run, section), |Params(run)|;
            |b.params| == (if |a.params| < p then p else |a.params|) && |b.envs| == |a.envs| + |Entries(run)|
  {
  }

  lemma HeadOfRuns(p: nat, e: nat, run: seq<Event>, runs: seq<seq<Event>>, environ: seq<string>)
    ensures OwnCommands([run] + runs, environ)
            == if HasExec(run) then [CommandOf(run, environ)] + OwnCommands(runs, environ)
               else OwnCommands(runs, environ)
    ensures NoSpillFrom(p, e, [run] + runs) <==>
            if HasExec(run) then p <= |Params(run)| && e == 0 && NoSpillFrom(0, 0, runs)
            else NoSpillFrom(if p < |Params(run)| then |Params(run)| else p, e + |Entries(run)|, runs)
  {
    assert ([run] + runs)[1..] == runs;
  }

  lemma SameHeads(x: Command, xs: seq<Command>, y: Command, ys: seq<Command>)
    ensures [x] + xs == [y] + ys <==> x == y && xs == ys
  {
    assert ([x] + xs)[1..] == xs && ([y] + ys)[1..] == ys;
  }

  /** The command launched for a section is its own if nothing carried shows; without inherited variables, only if. */
  lemma OwnCommand(a: Acc, run: seq<Event>, section: string, environ: seq<string>)
    requires a.exec.None? && HasExec(run)
    ensures var own := Launch(Gathered(a, run, section), environ) == CommandOf(run, environ);
            && (|a.params| <= |Params(run)| && a.envs == [] ==> own)
            && (environ == [] && own ==> |a.params| <= |Params(run)| && a.envs == [])
  {
    var cmd, own := Launch(Gathered(a, run, section), environ), CommandOf(run, environ);
    assert |cmd.argv| == 1 + |Overlay(Params(run), a.params)| && |own.argv| == 1 + |Params(run)|;
    if environ == [] {
      assert |cmd.env| == |a.envs| + |Entries(run)| && |own.env| == |Entries(run)|;
    }
    if a.envs == [] {
      assert a.envs + Entries(run) == Entries(run);
    }
  }

  /**
   Section isolation. Every section that names an executable is launched as its own command, whatever the runner
   inherits, if and only if no section without one spills into the next that has one. An empty environment tells.
  */
  lemma SectionIsolation(events: seq<Event>)
    requires FitAll(BLANK, events)
    ensures (forall environ :: Launched(BLANK, events, environ) == OwnCommands(Runs(events), environ))
            <==> NoSpill(Runs(events))
    ensures Launched(BLANK, events, []) == OwnCommands(Runs(events), []) <==> NoSpill(Runs(events))
  {
    NoSpillFront(0, 0, Runs(events));
    assert NoSpill(Runs(events)) <==> NoSpillFrom(0, 0, Runs(events)) by {
      assert NoSpillFrom(0, 0, Runs(events)) <==> Covered(0, 0, Runs(events)) && NoSpill(Runs(events));
    }
    assert AtBoundary(BLANK, events);
    hide NoSpillFrom, NoSpill, Launched, OwnCommands, Runs;
    if Launched(BLANK, events, []) == OwnCommands(Runs(events), []) {
      NoSpillIfOwn(BLANK, events);
    }
    if NoSpill(Runs(events)) {
      forall environ
        ensures Launched(BLANK, events, environ) == OwnCommands(Runs(events), environ)
      {
        OwnIfNoSpill(BLANK, events, environ);
      }
    }
  }

  lemma {:induction false} OwnOnePerRun(runs: seq<seq<Event>>, environ: seq<string>)
    requires forall run :: run in runs ==> HasExec(run)
    ensures OnePerRun(OwnCommands(runs, environ), runs, environ)
    decreases |runs|
  {
    if runs != [] {
      OwnOnePerRun(runs[1..], environ);
    }
  }

  /**
   Group-by. For every configuration that fits, the runner launches as many commands as there are sections if and
   only if every section names an executable; they are then exactly the commands of the sections, in order.
  */
  lemma GroupBy(events: seq<Event>, environ: seq<string>)
    requires FitAll(BLANK, events)
    ensures |Launched(BLANK, events, environ)| == |Runs(events)| <==> forall run :: run in Runs(events) ==> HasExec(run)
    ensures (forall run :: run in Runs(events) ==> HasExec(run))
            <==> OnePerRun(Launched(BLANK, events, environ), Runs(events), environ)
  {
    CountFrom(BLANK, events, environ);
    ExecutablesAll(Runs(events));
    if forall run :: run in Runs(events) ==> HasExec(run) {
      SectionIsolation(events);
      OwnOnePerRun(Runs(events), environ);
    }
  }

  /** A section without an executable can leak: its parameter ends up in the next command. */
  lemma SectionWithoutExecLeaks()
    ensures var events := [Event("a", "param", "x"), Event("b", "exec", "y")];
            FitAll(BLANK, events) && Launched(BLANK, events, []) == [Command(["y", "x"], ["exec=y"])]
  {
    var e1, e2 := Event("a", "param", "x"), Event("b", "exec", "y");
    var events := [e1, e2];
    var a1 := Feed(BLANK, e1);
    assert a1 == Acc(Some("a"), None, ["x"], 1, [], 2);
    var a2 := Feed(a1, e2);
    assert EnvEntry(e2) == "exec=y";
    assert a2 == Acc(Some("b"), Some("y"), ["x"], 0, ["exec=y"], 5);
    assert events[1..] == [e2] && events[1..][1..] == [];
    assert Inherited([], 1) == [];
    assert FeedAll(BLANK, events) == FeedAll(a1, [e2]) == FeedAll(a2, []) == a2;
    assert FitAll(a2, []) && FitAll(a1, [e2]);
    assert LaunchAll(a2, [], []) == [] && LaunchAll(a1, [e2], []) == [] && LaunchAll(BLANK, events, []) == [];
    assert Launch(a2, []) == Command(["y", "x"], ["exec=y"]);
    assert Flush(a2, []) == [Command(["y", "x"], ["exec=y"])];
    assert Launched(BLANK, events, []) == [] + Flush(a2, []);
  }

  // ----- How large a section may be

  /** The sizes ini_handle's arrays are made for. */
  ghost predicate RunFits(run: seq<Event>) {
    && SlotsOf(run) <= 2 * MAX_ARGC - 1
    && |Params(run)| <= MAX_ARGC - 1 && |Entries(run)| <= MAX_ARGC
    && forall e :: e in run ==> Copyable(e)
  }

  lemma {:induction false} PrefixFits(run: seq<Event>)
    requires run != [] && RunFits(run)
    ensures RunFits(run[..|run| - 1])
  {
  }

  lemma {:induction false} RunFitsAll(a: Acc, run: seq<Event>, section: string)
    requires run != [] && SameSection(run, section) && RunFits(run)
    requires a.section != Some(section) && (a.exec.Some? || a == BLANK) && Roomy(a) && a.slots < 2 * MAX_ARGC
    ensures FitAll(a, run)
    decreases |run|
  {
    var n := |run| - 1;
    assert run == run[..n] + [run[n]];
    FeedSplit(a, run[..n], [run[n]], []);
    GatherRun(a, run, section, []);
    var b := FeedAll(a, run[..n]);
    assert run[n] in run;
    if n > 0 {
      PrefixFits(run);
      RunFitsAll(a, run[..n], section);
      GatherRun(a, run[..n], section, []);
    } else {
      assert run[..n] == [];
    }
    assert [run[n]][1..] == [];
    assert Feed(b, run[n]) == FeedAll(b, [run[n]]) == Gathered(BLANK, run, section);
    assert Fits(b, run[n]);
  }

  /** A configuration whose sections each name an executable and respect the sizes never trips an ASSERT. */
  lemma {:induction false} SectionsFit(a: Acc, events: seq<Event>)
    requires AtBoundary(a, events) && (a.exec.Some? || a == BLANK) && Roomy(a) && a.slots < 2 * MAX_ARGC
    requires forall run :: run in Runs(events) ==> HasExec(run) && RunFits(run)
    ensures FitAll(a, events)
    decreases |events|
  {
    if events != [] {
      var k := RunLength(events);
      var run, rest := events[..k], events[k..];
      assert events == run + rest;
      RunsHead(events);
      assert HasExec(run) && RunFits(run);
      RunFitsAll(a, run, events[0].section);
      GatherRun(a, run, events[0].section, []);
      SectionsFit(FeedAll(a, run), rest);
      FeedSplit(a, run, rest, []);
    }
  }

  /** A configuration whose sections each name an executable and respect the sizes launches one command per section. */
  lemma EverySectionLaunched(events: seq<Event>, environ: seq<string>)
    requires forall run :: run in Runs(events) ==> HasExec(run) && RunFits(run)
    ensures FitAll(BLANK, events)
    ensures OnePerRun(Launched(BLANK, events, environ), Runs(events), environ)
  {
    SectionsFit(BLANK, events);
    GroupBy(events, environ);
  }
}
