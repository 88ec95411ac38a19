/** What the service runner should launch: the commands of a configuration, as functions on its event stream. */
module RunnerCommands {

  datatype Option<+T> = None | Some(value: T)

  /** One callback of the INI parser. */
  datatype Event = Event(section: string, name: string, value: string)

  /** What a launched child sees. */
  datatype Command = Command(argv: seq<string>, env: seq<string>)

  const MAX_ARGC := 64
  const MAX_STR_LEN := 255

  // ----- The configuration, section by section

  /** The number of leading events that belong to the section of the first one. */
  function RunLength(events: seq<Event>): (k: nat)
    requires events != []
    ensures 0 < k <= |events|
    ensures forall i :: 0 <= i < k ==> events[i].section == events[0].section
    ensures k < |events| ==> events[k].section != events[0].section
    decreases |events|
  {
    if |events| == 1 || events[1].section != events[0].section then 1 else 1 + RunLength(events[1..])
  }

  /** The maximal stretches of events with the same section, in order. */
  function Runs(events: seq<Event>): seq<seq<Event>>
    decreases |events|
  {
    if events == [] then []
    else
      var k := RunLength(events);
      [events[..k]] + Runs(events[k..])
  }

  function LastExec(run: seq<Event>): Option<string>
    decreases |run|
  {
    if run == [] then None
    else if run[|run| - 1].name == "exec" then Some(run[|run| - 1].value)
    else LastExec(run[..|run| - 1])
  }

  predicate HasExec(run: seq<Event>) {
    LastExec(run).Some?
  }

  function Params(run: seq<Event>): seq<string>
    decreases |run|
  {
    if run == [] then []
    else Params(run[..|run| - 1]) + if run[|run| - 1].name == "param" then [run[|run| - 1].value] else []
  }

  /** snprintf into a slot cuts the entry off. */
  function EnvEntry(e: Event): (s: string)
    ensures s <= e.name + "=" + e.value
    ensures |s| < MAX_STR_LEN
    ensures s == e.name + "=" + e.value || |s| == MAX_STR_LEN - 1
  {
    var s := e.name + "=" + e.value;
    if |s| < MAX_STR_LEN then s else s[..MAX_STR_LEN - 1]
  }

  function Entries(run: seq<Event>): seq<string>
    decreases |run|
  {
    if run == [] then []
    else Entries(run[..|run| - 1]) + if run[|run| - 1].name != "param" then [EnvEntry(run[|run| - 1])] else []
  }

  /** As much of the inherited environment as there is room for after n entries. */
  function Inherited(environ: seq<string>, n: nat): seq<string> {
    if n + |environ| <= MAX_ARGC then environ else if n <= MAX_ARGC then environ[..MAX_ARGC - n] else []
  }

  /** The command a section stands for. */
  function CommandOf(run: seq<Event>, environ: seq<string>): Command
    requires HasExec(run)
  {
    Command([LastExec(run).value] + Params(run), Entries(run) + Inherited(environ, |Entries(run)|))
  }

  /** The commands of the sections that name an executable, in order. */
  function OwnCommands(runs: seq<seq<Event>>, environ: seq<string>): seq<Command>
    decreases |runs|
  {
    if runs == [] then []
    else (if HasExec(runs[0]) then [CommandOf(runs[0], environ)] else []) + OwnCommands(runs[1..], environ)
  }

  /** Section j is the first one from section i on that names an executable, and i is not j itself. */
  ghost predicate NextExec(runs: seq<seq<Event>>, i: int, j: int) {
    0 <= i < j < |runs| && HasExec(runs[j]) && forall k :: i <= k < j ==> !HasExec(runs[k])
  }

  /**
   A section without an executable has no variables, and no more parameters than the next section that has one,
   if there is such a section.
  */
  ghost predicate NoSpill(runs: seq<seq<Event>>) {
    forall i, j :: NextExec(runs, i, j) ==> Entries(runs[i]) == [] && |Params(runs[i])| <= |Params(runs[j])|
  }

  // ----- The accumulator that ini_handle keeps, with the storage abstracted

  /**
   The command under construction: `params` are the non-NULL entries behind params[0], of which the first n are
   counted by n_params; `slots` is the number of string slots used.
  */
  datatype Acc = Acc(section: Option<string>, exec: Option<string>, params: seq<string>, n: nat,
                     envs: seq<string>, slots: nat)

  const BLANK := Acc(None, None, [], 0, [], 0)

  /** execute_command. */
  function Launch(a: Acc, environ: seq<string>): Command
    requires a.exec.Some?
  {
    Command([a.exec.value] + a.params, a.envs + Inherited(environ, |a.envs|))
  }

  predicate NewSection(a: Acc, e: Event) {
    a.section != Some(e.section)
  }

  /** The accumulator after the section change, if there is one. */
  function Turn(a: Acc, e: Event): Acc {
    if !NewSection(a, e) then a
    else
      var b := if a.exec.Some? then BLANK else a;
      b.(section := Some(e.section), n := 0, slots := b.slots + 1)
  }

  /** The accumulator after storing the event itself. */
  function Store(a: Acc, e: Event): Acc {
    var b := if e.name == "exec" then a.(exec := Some(e.value), slots := a.slots + 1) else a;
    if e.name == "param" then
      b.(params := if b.n < |b.params| then b.params[b.n := e.value] else b.params + [e.value],
         n := b.n + 1, slots := b.slots + 1)
    else b.(envs := b.envs + [EnvEntry(e)], slots := b.slots + 1)
  }

  function Feed(a: Acc, e: Event): Acc {
    Store(Turn(a, e), e)
  }

  /** What ini_handle launches when it is given e. */
  function Launches(a: Acc, e: Event, environ: seq<string>): seq<Command> {
    if NewSection(a, e) && a.exec.Some? then [Launch(a, environ)] else []
  }

  /** Room for every array of the command. */
  predicate Roomy(a: Acc) {
    a.slots <= 2 * MAX_ARGC && a.n <= |a.params| <= MAX_ARGC - 1 && |a.envs| <= MAX_ARGC
  }

  /** What strncpy stores fits a slot with its terminator; snprintf cuts everything else off. */
  predicate Copyable(e: Event) {
    |e.section| < MAX_STR_LEN && (e.name == "exec" || e.name == "param" ==> |e.value| < MAX_STR_LEN)
  }

  /** Neither an ASSERT of ini_handle fails nor does it write past an array or leave a vector unterminated. */
  predicate Fits(a: Acc, e: Event) {
    && a.slots < 2 * MAX_ARGC && Roomy(a) && Roomy(Feed(a, e))
    && Copyable(e)
  }

  predicate FitAll(a: Acc, events: seq<Event>)
    decreases |events|
  {
    Roomy(a) && (events != [] ==> Fits(a, events[0]) && FitAll(Feed(a, events[0]), events[1..]))
  }

  function FeedAll(a: Acc, events: seq<Event>): Acc
    decreases |events|
  {
    if events == [] then a else FeedAll(Feed(a, events[0]), events[1..])
  }

  /** What is launched while the events are fed, without the last command. */
  function LaunchAll(a: Acc, events: seq<Event>, environ: seq<string>): seq<Command>
    decreases |events|
  {
    if events == [] then []
    else Launches(a, events[0], environ) + LaunchAll(Feed(a, events[0]), events[1..], environ)
  }

  /** The flush in main after parsing. */
  function Flush(a: Acc, environ: seq<string>): seq<Command> {
    if a.exec.Some? then [Launch(a, environ)] else []
  }

  /** Everything the runner launches for a configuration. */
  function Launched(a: Acc, events: seq<Event>, environ: seq<string>): seq<Command> {
    LaunchAll(a, events, environ) + Flush(FeedAll(a, events), environ)
  }
}
