/** What a report shows of the updates behind it, list by list, and which updates cause a report. */
module PlayingLogsReports {
  import opened PlayingLogsSpec

  // ---------- Where the entries come from ----------

  /** Each kind of update is an input of its own log and of no other. */
  lemma EntriesByUpdate(t: Timed, kind: Kind)
    ensures EntryFor(kind, t) ==
            match t.update
            case State(_, state, _) => if kind == StateLog then [Entry(state, "", t.time)] else []
            case MetaQuality(q) => if kind == MetaLog then [Entry(q, "", t.time)] else []
            case CommandQuality(q) => if kind == CommandLog then [Entry(q, "", t.time)] else []
            case PlaybackState(s) => if kind == PlaybackLog then [Entry(s, "", t.time)] else []
            case Control(c, caller) => if kind == ControlLog then [Entry(c, caller, t.time)] else []
            case SupportIntent(_) => []
            case SupportAvqueue(_) => []
  {
  }

  /** A log grows by an entry unless that repeats the value it remembers. */
  predicate GrowsBy(before: seq<Entry>, after: seq<Entry>, e: Entry, remembered: nat) {
    after == if e.value == remembered then before else before + [e]
  }

  function Remembered(log: seq<Entry>, sentinel: nat): nat { if log == [] then sentinel else log[|log| - 1].value }

  /** One update, log by log: the logs start from 2 for the state, 18 for control and 0 for the others. */
  lemma LogsByUpdate(h: History, t: Timed)
    ensures var g := h + [t];
            var s, m, c, p, k := Logged(StateLog, h), Logged(MetaLog, h), Logged(CommandLog, h),
                                 Logged(PlaybackLog, h), Logged(ControlLog, h);
            && (if t.update.State? then
                  GrowsBy(s, Logged(StateLog, g), Entry(t.update.state, "", t.time), Remembered(s, 2))
                else Logged(StateLog, g) == s)
            && (Logged(MetaLog, g) ==
                if t.update.MetaQuality? then m + [Entry(t.update.metaQuality, "", t.time)] else m)
            && (if t.update.CommandQuality? then
                  GrowsBy(c, Logged(CommandLog, g), Entry(t.update.commandQuality, "", t.time), Remembered(c, 0))
                else Logged(CommandLog, g) == c)
            && (if t.update.PlaybackState? then
                  GrowsBy(p, Logged(PlaybackLog, g), Entry(t.update.playbackState, "", t.time), Remembered(p, 0))
                else Logged(PlaybackLog, g) == p)
            && (if t.update.Control? then
                  GrowsBy(k, Logged(ControlLog, g), Entry(t.update.control, t.update.caller, t.time), Remembered(k, 18))
                else Logged(ControlLog, g) == k)
  {
    hide Logged;
    forall kind: Kind { LoggedGrows(kind, h, t); }
  }

  /** Two lists of a report are the values and the times of one log, entry by entry. */
  predicate Columns(values: seq<nat>, times: seq<nat>, log: seq<Entry>) {
    && |values| == |times| == |log|
    && forall i :: 0 <= i < |log| ==> values[i] == log[i].value && times[i] == log[i].time
  }

  /** A report has every log under its own name, with its own times. */
  lemma ReportColumns(bundleName: string, h: History)
    ensures var r := ReportOf(bundleName, h);
            && r.bundleName == bundleName
            && Columns(r.state, r.stateTime, Logged(StateLog, h))
            && Columns(r.metaQuality, r.metaQualityTime, Logged(MetaLog, h))
            && Columns(r.commandQuality, r.commandQualityTime, Logged(CommandLog, h))
            && Columns(r.playbackState, r.playbackStateTime, Logged(PlaybackLog, h))
            && Columns(r.control, r.controlTime, Logged(ControlLog, h))
            && |r.callerBundleName| == |r.control|
            && forall i :: 0 <= i < |r.control| ==> r.callerBundleName[i] == Logged(ControlLog, h)[i].caller
  {
    hide Logged;
  }

  /** The other fields hold what the last update of each has said. */
  lemma DetailsByUpdate(h: History, t: Timed)
    ensures DetailsOf([]) == Details("", "default", "default", false)
    ensures var d := DetailsOf(h);
            DetailsOf(h + [t]) ==
            match t.update
            case State(version, _, appType) => Details(version, appType, d.supportIntent, d.supportAvqueue)
            case SupportIntent(intent) => Details(d.appVersion, d.appType, intent, d.supportAvqueue)
            case SupportAvqueue(avqueue) => Details(d.appVersion, d.appType, d.supportIntent, avqueue)
            case _ => d
  {
    assert (h + [t])[..|h|] == h;
  }

  // ---------- Which updates cause a report ----------

  /** How many entries the log has that an update goes to; none for updates without a log. */
  function LogLength(u: Update, h: History): nat {
    match u
    case State(_, _, _) => |Logged(StateLog, h)|
    case MetaQuality(_) => |Logged(MetaLog, h)|
    case CommandQuality(_) => |Logged(CommandLog, h)|
    case PlaybackState(_) => |Logged(PlaybackLog, h)|
    case Control(_, _) => |Logged(ControlLog, h)|
    case SupportIntent(_) => 0
    case SupportAvqueue(_) => 0
  }

  /** An update is added to its bundle's history; a log of 100 entries has the history reported and forgotten. */
  lemma UpdateExactly(s: Logs, b: string, t: Timed)
    ensures var h := (if b in s.live then s.live[b] else []) + [t];
            Step(s, Updated(b, t)) ==
            if LogLength(t.update, h) >= 100 then Logs(s.live - {b}, s.flushed + [Flush(b, h)])
            else Logs(s.live[b := h], s.flushed)
  {
    hide Logged;
    var h := HistoryOf(s, b) + [t];
    assert s.live[b := h] - {b} == s.live - {b};
  }

  /** A report writes what is live of a bundle and forgets it; there is none for a bundle that is not live. */
  lemma ReportExactly(s: Logs, b: string)
    ensures Step(s, Reported(b)) ==
            if b in s.live then Logs(s.live - {b}, s.flushed + [Flush(b, s.live[b])]) else s
  {
  }
}
