/**
 The playing-state logs of utils/src/avsession_sysevent.cpp on values: what the logs of a bundle hold
 is a function of the updates the bundle has seen since it was last reported.
 */
module PlayingLogsSpec {
  import opened StringOrder

  const REPORT_SIZE := 100
  const STATE_INITIAL := 2
  const SESSION_CMD_MAX := 18

  datatype Update =
    | State(appVersion: string, state: nat, appType: string)
    | MetaQuality(metaQuality: nat)
    | CommandQuality(commandQuality: nat)
    | PlaybackState(playbackState: nat)
    | Control(control: nat, caller: string)
    | SupportIntent(supportIntent: string)
    | SupportAvqueue(supportAvqueue: bool)

  /** An update and the clock when it came. */
  datatype Timed = Timed(update: Update, time: nat)

  type History = seq<Timed>

  datatype Kind = StateLog | MetaLog | CommandLog | PlaybackLog | ControlLog

  datatype Entry = Entry(value: nat, caller: string, time: nat)

  // ---------- One log ----------

  /** What an update would log where; nothing for the updates without a log. */
  function EntryFor(kind: Kind, t: Timed): seq<Entry> {
    match (kind, t.update)
    case (StateLog, State(_, state, _)) => [Entry(state, "", t.time)]
    case (MetaLog, MetaQuality(q)) => [Entry(q, "", t.time)]
    case (CommandLog, CommandQuality(q)) => [Entry(q, "", t.time)]
    case (PlaybackLog, PlaybackState(s)) => [Entry(s, "", t.time)]
    case (ControlLog, Control(c, caller)) => [Entry(c, caller, t.time)]
    case _ => []
  }

  function Inputs(kind: Kind, h: History): seq<Entry> {
    if h == [] then [] else Inputs(kind, h[..|h| - 1]) + EntryFor(kind, h[|h| - 1])
  }

  /** The value remembered as the last one, before anything has been logged. */
  function Sentinel(kind: Kind): nat {
    match kind
    case StateLog => STATE_INITIAL
    case ControlLog => SESSION_CMD_MAX
    case _ => 0
  }

  function LastValue(kind: Kind, log: seq<Entry>): nat {
    if log == [] then Sentinel(kind) else log[|log| - 1].value
  }

  /** The log after one more input: meta quality is always logged, the others when they differ from the last. */
  function Logging(kind: Kind, log: seq<Entry>, e: Entry): seq<Entry> {
    if kind.MetaLog? || e.value != LastValue(kind, log) then log + [e] else log
  }

  function LoggedInputs(kind: Kind, inputs: seq<Entry>): seq<Entry> {
    if inputs == [] then [] else Logging(kind, LoggedInputs(kind, inputs[..|inputs| - 1]), inputs[|inputs| - 1])
  }

  function Logged(kind: Kind, h: History): seq<Entry> { LoggedInputs(kind, Inputs(kind, h)) }

  function Values(log: seq<Entry>): seq<nat> { seq(|log|, i requires 0 <= i < |log| => log[i].value) }

  function Callers(log: seq<Entry>): seq<string> { seq(|log|, i requires 0 <= i < |log| => log[i].caller) }

  function Times(log: seq<Entry>): seq<nat> { seq(|log|, i requires 0 <= i < |log| => log[i].time) }

  function Before(prev: nat, es: seq<Entry>, i: nat): nat
    requires i <= |es|
  {
    if i == 0 then prev else es[i - 1].value
  }

  predicate StutterFree(prev: nat, es: seq<Entry>) {
    forall i :: 0 <= i < |es| ==> es[i].value != Before(prev, es, i)
  }

  function FirstChange(prev: nat, inputs: seq<Entry>): seq<Entry>
    requires inputs != []
  {
    if inputs[0].value != prev then [inputs[0]] else []
  }

  /** The inputs that differ from the input right before them. */
  function Changes(prev: nat, inputs: seq<Entry>): seq<Entry>
    decreases |inputs|
  {
    if inputs == [] then [] else FirstChange(prev, inputs) + Changes(inputs[0].value, inputs[1..])
  }

  lemma ChangesStart(prev: nat, inputs: seq<Entry>)
    requires inputs != []
    ensures Changes(prev, inputs) == FirstChange(prev, inputs) + Changes(inputs[0].value, inputs[1..])
  {
  }

  lemma {:induction false} ChangesGrow(prev: nat, inputs: seq<Entry>)
    requires inputs != []
    ensures var n := |inputs| - 1;
            Changes(prev, inputs) ==
            Changes(prev, inputs[..n]) + if inputs[n].value != Before(prev, inputs, n) then [inputs[n]] else []
    decreases |inputs|
  {
    hide Changes;
    var n := |inputs| - 1;
    var init, rest, value := inputs[..n], inputs[1..], inputs[0].value;
    ChangesStart(prev, inputs);
    if n == 0 {
      assert rest == [] && init == [];
      NoChanges(value);
      NoChanges(prev);
    } else {
      ChangesGrow(value, rest);
      ChangesStart(prev, init);
      assert init[1..] == rest[..n - 1] && init[0] == inputs[0] && rest[n - 1] == inputs[n];
    }
  }

  /** The last logged value is the last input, so comparing with the one is comparing with the other. */
  lemma LastIsLastInput(kind: Kind, inputs: seq<Entry>, n: nat)
    requires n <= |inputs| && !kind.MetaLog?
    ensures LastValue(kind, LoggedInputs(kind, inputs[..n])) == Before(Sentinel(kind), inputs, n)
  {
  }

  /** Every log but meta quality holds exactly the changes among its inputs; meta quality holds them all. */
  lemma {:induction false} LogsAreChanges(kind: Kind, inputs: seq<Entry>)
    ensures LoggedInputs(kind, inputs) == if kind.MetaLog? then inputs else Changes(Sentinel(kind), inputs)
    decreases |inputs|
  {
    hide Changes, LastValue, Before, Sentinel;
    if inputs == [] {
      NoChanges(Sentinel(kind));
    } else {
      var n := |inputs| - 1;
      LogsAreChanges(kind, inputs[..n]);
      assert inputs == inputs[..n] + [inputs[n]];
      if !kind.MetaLog? {
        ChangesGrow(Sentinel(kind), inputs);
        LastIsLastInput(kind, inputs, n);
      }
    }
  }

  lemma NoChanges(prev: nat)
    ensures Changes(prev, []) == []
  {
  }

  lemma StutterFreeGrows(prev: nat, log: seq<Entry>, e: Entry)
    requires StutterFree(prev, log)
    requires e.value != Before(prev, log, |log|)
    ensures StutterFree(prev, log + [e])
  {
    var grown := log + [e];
    assert grown[|log|] == e;
    forall i | 0 <= i < |grown|
      ensures grown[i].value != Before(prev, grown, i)
    {
      assert Before(prev, grown, i) == Before(prev, log, i);
      if i < |log| { assert grown[i] == log[i]; }
    }
  }

  lemma {:induction false} LogsAreStutterFree(kind: Kind, inputs: seq<Entry>)
    requires !kind.MetaLog?
    ensures StutterFree(Sentinel(kind), LoggedInputs(kind, inputs))
    decreases |inputs|
  {
    if inputs != [] {
      LogsAreStutterFree(kind, inputs[..|inputs| - 1]);
      var log, e := LoggedInputs(kind, inputs[..|inputs| - 1]), inputs[|inputs| - 1];
      if e.value != LastValue(kind, log) { StutterFreeGrows(Sentinel(kind), log, e); }
    }
  }

  /** One more update: its own log may grow by its entry, the others stay. */
  lemma LoggedGrows(kind: Kind, h: History, t: Timed)
    ensures Logged(kind, h + [t]) ==
            var e := EntryFor(kind, t); if e == [] then Logged(kind, h) else Logging(kind, Logged(kind, h), e[0])
  {
    var e, all := EntryFor(kind, t), Inputs(kind, h + [t]);
    assert (h + [t])[..|h|] == h;
    assert all == Inputs(kind, h) + e;
    if e == [] { assert all == Inputs(kind, h); }
    if e != [] { assert all[..|all| - 1] == Inputs(kind, h) && all[|all| - 1] == e[0]; }
  }

  // ---------- The other fields ----------

  datatype Details = Details(appVersion: string, appType: string, supportIntent: string, supportAvqueue: bool)

  function DetailsOf(h: History): Details {
    if h == [] then Details("", "default", "default", false) else
      var d := DetailsOf(h[..|h| - 1]);
      match h[|h| - 1].update
      case State(version, _, appType) => d.(appVersion := version, appType := appType)
      case SupportIntent(intent) => d.(supportIntent := intent)
      case SupportAvqueue(avqueue) => d.(supportAvqueue := avqueue)
      case _ => d
  }

  // ---------- Reports ----------

  /** What is written for a bundle. */
  datatype Report = Report(
    bundleName: string, state: seq<nat>, stateTime: seq<nat>, metaQuality: seq<nat>, metaQualityTime: seq<nat>,
    commandQuality: seq<nat>, commandQualityTime: seq<nat>, playbackState: seq<nat>, playbackStateTime: seq<nat>,
    control: seq<nat>, callerBundleName: seq<string>, controlTime: seq<nat>, details: Details)

  function ReportOf(bundleName: string, h: History): Report {
    var s, m, c, p, k :=
      Logged(StateLog, h), Logged(MetaLog, h), Logged(CommandLog, h), Logged(PlaybackLog, h), Logged(ControlLog, h);
    Report(
      bundleName, Values(s), Times(s), Values(m), Times(m), Values(c), Times(c), Values(p), Times(p),
      Values(k), Callers(k), Times(k), DetailsOf(h))
  }

  datatype Flush = Flush(bundleName: string, history: History)

  // ---------- The machine ----------

  /** The bundles with updates that have not been reported, and everything that has. */
  datatype Logs = Logs(live: map<string, History>, flushed: seq<Flush>)

  datatype Op = Updated(bundleName: string, t: Timed) | Reported(name: string) | ReportedAll

  function HistoryOf(s: Logs, bundleName: string): History {
    if bundleName in s.live then s.live[bundleName] else []
  }

  function KindOf(u: Update): seq<Kind> {
    match u
    case State(_, _, _) => [StateLog]
    case MetaQuality(_) => [MetaLog]
    case CommandQuality(_) => [CommandLog]
    case PlaybackState(_) => [PlaybackLog]
    case Control(_, _) => [ControlLog]
    case _ => []
  }

  /** Whether the log that an update went to is full. */
  predicate IsFull(u: Update, h: History) { KindOf(u) != [] && |Logged(KindOf(u)[0], h)| >= REPORT_SIZE }

  function Flushed(s: Logs, bundleName: string): Logs {
    if bundleName in s.live then
      Logs(s.live - {bundleName}, s.flushed + [Flush(bundleName, s.live[bundleName])])
    else s
  }

  function Recorded(s: Logs, bundleName: string, t: Timed): Logs {
    s.(live := s.live[bundleName := HistoryOf(s, bundleName) + [t]])
  }

  function AfterUpdate(s: Logs, bundleName: string, t: Timed): Logs {
    var r := Recorded(s, bundleName, t);
    if IsFull(t.update, r.live[bundleName]) then Flushed(r, bundleName) else r
  }

  function FlushedEach(s: Logs, keys: seq<string>): Logs {
    if keys == [] then s else Flushed(FlushedEach(s, keys[..|keys| - 1]), keys[|keys| - 1])
  }

  ghost function Step(s: Logs, op: Op): Logs {
    match op
    case Updated(bundleName, t) => AfterUpdate(s, bundleName, t)
    case Reported(name) => Flushed(s, name)
    case ReportedAll => FlushedEach(s, Sorted(s.live.Keys))
  }

  ghost function Run(s: Logs, ops: seq<Op>): Logs {
    if ops == [] then s else Step(Run(s, ops[..|ops| - 1]), ops[|ops| - 1])
  }

  const NOTHING := Logs(map[], [])
}
