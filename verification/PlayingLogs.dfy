/** The playing-state logs of utils/src/avsession_sysevent.cpp: one object per bundle, and the map of them. */
module PlayingLogs {
  import opened PlayingLogsRuns
  import opened PlayingLogsSpec
  import opened PlayingLogsWritten
  import opened StringOrder

  // ---------- Parallel lists ----------

  /** Two parallel lists hold a log of the given history. */
  ghost predicate Holds(values: seq<nat>, times: seq<nat>, kind: Kind, h: History) {
    values == Values(Logged(kind, h)) && times == Times(Logged(kind, h))
  }

  /** The value remembered as the last one. */
  predicate IsLast(last: nat, values: seq<nat>, kind: Kind) {
    last == if values == [] then Sentinel(kind) else values[|values| - 1]
  }

  lemma PushIsLast(values: seq<nat>, value: nat, kind: Kind)
    ensures IsLast(value, values + [value], kind)
  {
  }

  lemma OtherLogsStay(values: seq<nat>, times: seq<nat>, kind: Kind, h: History, t: Timed)
    requires Holds(values, times, kind, h) && EntryFor(kind, t) == []
    ensures Holds(values, times, kind, h + [t])
  {
    hide Logged, Values, Times;
    LoggedGrows(kind, h, t);
  }

  lemma CallersStay(callers: seq<string>, h: History, t: Timed)
    requires callers == Callers(Logged(ControlLog, h)) && EntryFor(ControlLog, t) == []
    ensures callers == Callers(Logged(ControlLog, h + [t]))
  {
    LoggedGrows(ControlLog, h, t);
  }

  /** The log of an update grows unless its value is the last one. */
  lemma OwnLogGrows(values: seq<nat>, times: seq<nat>, last: nat, kind: Kind, h: History, t: Timed, e: Entry)
    requires Holds(values, times, kind, h) && EntryFor(kind, t) == [e]
    requires !kind.MetaLog? ==> IsLast(last, values, kind)
    ensures kind.MetaLog? || e.value != last ==> Holds(values + [e.value], times + [e.time], kind, h + [t])
    ensures !kind.MetaLog? && e.value == last ==> Holds(values, times, kind, h + [t])
  {
    hide Logged;
    LoggedGrows(kind, h, t);
  }

  lemma CallersGrow(
    values: seq<nat>, times: seq<nat>, callers: seq<string>, last: nat, h: History, t: Timed, e: Entry)
    requires Holds(values, times, ControlLog, h) && callers == Callers(Logged(ControlLog, h))
    requires IsLast(last, values, ControlLog) && EntryFor(ControlLog, t) == [e]
    ensures callers + (if e.value != last then [e.caller] else []) == Callers(Logged(ControlLog, h + [t]))
  {
    hide Logged;
    LoggedGrows(ControlLog, h, t);
  }

  lemma DetailsGrow(h: History, t: Timed)
    ensures DetailsOf(h + [t]) ==
            match t.update
            case State(version, _, appType) => DetailsOf(h).(appVersion := version, appType := appType)
            case SupportIntent(intent) => DetailsOf(h).(supportIntent := intent)
            case SupportAvqueue(avqueue) => DetailsOf(h).(supportAvqueue := avqueue)
            case _ => DetailsOf(h)
  {
    assert (h + [t])[..|h|] == h;
  }

  lemma FlushNone(s: Logs)
    ensures FlushedEach(s, []) == s
  {
  }

  lemma FlushNext(s: Logs, keys: seq<string>, i: nat)
    requires i < |keys|
    ensures FlushedEach(s, keys[..i + 1]) == Flushed(FlushedEach(s, keys[..i]), keys[i])
  {
    assert keys[..i + 1][..i] == keys[..i];
  }

  /** Updates without a log never cause a report. */
  lemma NeverFull(s: Logs, bundleName: string, t: Timed)
    requires KindOf(t.update) == []
    ensures AfterUpdate(s, bundleName, t) == Recorded(s, bundleName, t)
  {
  }

  lemma ReportsAllKeys(s: Logs)
    ensures Step(s, ReportedAll) == FlushedEach(s, Sorted(s.live.Keys))
  {
  }

  // ---------- One bundle ----------

  class PlayingStateInfo {
    var bundleName: string
    var appVersion: string
    var state: seq<nat>
    var stateTime: seq<nat>
    var metaQuality: seq<nat>
    var metaQualityTime: seq<nat>
    var commandQuality: seq<nat>
    var commandQualityTime: seq<nat>
    var playbackState: seq<nat>
    var playbackStateTime: seq<nat>
    var control: seq<nat>
    var callerBundleName: seq<string>
    var controlTime: seq<nat>
    var appType: string
    var supportIntent: string
    var supportAvqueue: bool
    var lastState: nat
    var lastCommandQuality: nat
    var lastPlaybackState: nat
    var lastControl: nat
    /** The updates since the object was made. */
    ghost var history: History

    constructor (name: string)
      ensures Valid() && history == [] && bundleName == name
    {
      bundleName, appVersion, appType, supportIntent, supportAvqueue := name, "", "default", "default", false;
      state, stateTime, metaQuality, metaQualityTime, commandQuality, commandQualityTime := [], [], [], [], [], [];
      playbackState, playbackStateTime, control, callerBundleName, controlTime := [], [], [], [], [];
      lastState, lastCommandQuality, lastPlaybackState, lastControl := STATE_INITIAL, 0, 0, SESSION_CMD_MAX;
      history := [];
    }

    ghost predicate StateHolds()
      reads `state, `stateTime, `lastState, `history
    {
      Holds(state, stateTime, StateLog, history) && IsLast(lastState, state, StateLog)
    }

    ghost predicate MetaHolds()
      reads `metaQuality, `metaQualityTime, `history
    {
      Holds(metaQuality, metaQualityTime, MetaLog, history)
    }

    ghost predicate CommandHolds()
      reads `commandQuality, `commandQualityTime, `lastCommandQuality, `history
    {
      Holds(commandQuality, commandQualityTime, CommandLog, history)
      && IsLast(lastCommandQuality, commandQuality, CommandLog)
    }

    ghost predicate PlaybackHolds()
      reads `playbackState, `playbackStateTime, `lastPlaybackState, `history
    {
      Holds(playbackState, playbackStateTime, PlaybackLog, history)
      && IsLast(lastPlaybackState, playbackState, PlaybackLog)
    }

    ghost predicate ControlHolds()
      reads `control, `controlTime, `callerBundleName, `lastControl, `history
    {
      Holds(control, controlTime, ControlLog, history) && IsLast(lastControl, control, ControlLog)
      && callerBundleName == Callers(Logged(ControlLog, history))
    }

    ghost predicate DetailsHold()
      reads `appVersion, `appType, `supportIntent, `supportAvqueue, `history
    {
      Details(appVersion, appType, supportIntent, supportAvqueue) == DetailsOf(history)
    }

    ghost predicate LogsHold()
      reads this
    {
      StateHolds() && MetaHolds() && CommandHolds() && PlaybackHolds() && ControlHolds()
    }

    ghost predicate Valid()
      reads this
    {
      LogsHold() && DetailsHold()
    }

    /** What is written for this bundle. */
    function AsReport(): Report
      reads this
    {
      Report(
        bundleName, state, stateTime, metaQuality, metaQualityTime, commandQuality, commandQualityTime, playbackState,
        playbackStateTime, control, callerBundleName, controlTime,
        Details(appVersion, appType, supportIntent, supportAvqueue))
    }

    lemma SizesOfLogs()
      requires Valid()
      ensures |state| == |Logged(StateLog, history)| && |metaQuality| == |Logged(MetaLog, history)|
      ensures |commandQuality| == |Logged(CommandLog, history)| && |playbackState| == |Logged(PlaybackLog, history)|
      ensures |control| == |Logged(ControlLog, history)|
    {
      hide Logged, DetailsOf;
    }

    lemma ReportsItsHistory()
      requires Valid()
      ensures AsReport() == ReportOf(bundleName, history)
    {
      hide Logged, Values, Times, Callers, DetailsOf;
    }

    /** An update leaves the logs alone that it has no entry for. */
    lemma OthersStay(t: Timed)
      requires LogsHold()
      ensures EntryFor(StateLog, t) == [] ==> Holds(state, stateTime, StateLog, history + [t])
      ensures EntryFor(MetaLog, t) == [] ==> Holds(metaQuality, metaQualityTime, MetaLog, history + [t])
      ensures EntryFor(CommandLog, t) == [] ==> Holds(commandQuality, commandQualityTime, CommandLog, history + [t])
      ensures EntryFor(PlaybackLog, t) == [] ==> Holds(playbackState, playbackStateTime, PlaybackLog, history + [t])
      ensures EntryFor(ControlLog, t) == [] ==> Holds(control, controlTime, ControlLog, history + [t])
      ensures EntryFor(ControlLog, t) == [] ==> callerBundleName == Callers(Logged(ControlLog, history + [t]))
    {
      hide Holds, Logged;
      if EntryFor(StateLog, t) == [] { OtherLogsStay(state, stateTime, StateLog, history, t); }
      if EntryFor(MetaLog, t) == [] { OtherLogsStay(metaQuality, metaQualityTime, MetaLog, history, t); }
      if EntryFor(CommandLog, t) == [] { OtherLogsStay(commandQuality, commandQualityTime, CommandLog, history, t); }
      if EntryFor(PlaybackLog, t) == [] { OtherLogsStay(playbackState, playbackStateTime, PlaybackLog, history, t); }
      if EntryFor(ControlLog, t) == [] {
        OtherLogsStay(control, controlTime, ControlLog, history, t);
        CallersStay(callerBundleName, history, t);
      }
    }

    method UpdateState(newState: nat, time: nat)
      requires LogsHold()
      modifies `state, `stateTime, `lastState, `history
      ensures LogsHold() && history == old(history) + [Timed(State(appVersion, newState, appType), time)]
    {
      hide Holds, IsLast, Logged, Sentinel;
      ghost var t := Timed(State(appVersion, newState, appType), time);
      OthersStay(t);
      OwnLogGrows(state, stateTime, lastState, StateLog, history, t, Entry(newState, "", time));
      PushIsLast(state, newState, StateLog);
      if newState != lastState {
        lastState := newState;
        state, stateTime := state + [newState], stateTime + [time];
      }
      history := history + [t];
    }

    /** A state update of an application, which also says which application that is. */
    method UpdateApplication(version: string, newState: nat, newType: string, time: nat)
      requires Valid()
      modifies `appVersion, `appType, `state, `stateTime, `lastState, `history
      ensures Valid() && history == old(history) + [Timed(State(version, newState, newType), time)]
    {
      hide DetailsOf, PlayingStateInfo.StateHolds, PlayingStateInfo.MetaHolds, PlayingStateInfo.CommandHolds,
        PlayingStateInfo.PlaybackHolds, PlayingStateInfo.ControlHolds;
      DetailsGrow(history, Timed(State(version, newState, newType), time));
      appVersion, appType := version, newType;
      UpdateState(newState, time);
    }

    method UpdateMetaQuality(quality: nat, time: nat)
      requires Valid()
      modifies `metaQuality, `metaQualityTime, `history
      ensures Valid() && history == old(history) + [Timed(MetaQuality(quality), time)]
    {
      hide Holds, DetailsOf, Logged;
      ghost var t := Timed(MetaQuality(quality), time);
      DetailsGrow(history, t);
      OthersStay(t);
      OwnLogGrows(metaQuality, metaQualityTime, 0, MetaLog, history, t, Entry(quality, "", time));
      metaQuality, metaQualityTime := metaQuality + [quality], metaQualityTime + [time];
      history := history + [t];
    }

    method UpdateCommandQuality(quality: nat, time: nat)
      requires Valid()
      modifies `commandQuality, `commandQualityTime, `lastCommandQuality, `history
      ensures Valid() && history == old(history) + [Timed(CommandQuality(quality), time)]
    {
      hide Holds, IsLast, DetailsOf, Logged, Callers, Sentinel;
      ghost var t := Timed(CommandQuality(quality), time);
      DetailsGrow(history, t);
      OthersStay(t);
      OwnLogGrows(
        commandQuality, commandQualityTime, lastCommandQuality, CommandLog, history, t, Entry(quality, "", time));
      PushIsLast(commandQuality, quality, CommandLog);
      if quality != lastCommandQuality {
        lastCommandQuality := quality;
        commandQuality, commandQualityTime := commandQuality + [quality], commandQualityTime + [time];
      }
      history := history + [t];
    }

    method UpdatePlaybackState(newState: nat, time: nat)
      requires Valid()
      modifies `playbackState, `playbackStateTime, `lastPlaybackState, `history
      ensures Valid() && history == old(history) + [Timed(PlaybackState(newState), time)]
    {
      hide Holds, IsLast, DetailsOf, Logged, Callers, Sentinel;
      ghost var t := Timed(PlaybackState(newState), time);
      DetailsGrow(history, t);
      OthersStay(t);
      OwnLogGrows(
        playbackState, playbackStateTime, lastPlaybackState, PlaybackLog, history, t, Entry(newState, "", time));
      PushIsLast(playbackState, newState, PlaybackLog);
      if newState != lastPlaybackState {
        lastPlaybackState := newState;
        playbackState, playbackStateTime := playbackState + [newState], playbackStateTime + [time];
      }
      history := history + [t];
    }

    method UpdateControl(command: nat, caller: string, time: nat)
      requires Valid()
      modifies `control, `controlTime, `lastControl, `callerBundleName, `history
      ensures Valid() && history == old(history) + [Timed(Control(command, caller), time)]
    {
      hide Holds, IsLast, DetailsOf, Logged, Callers, Sentinel;
      ghost var t := Timed(Control(command, caller), time);
      DetailsGrow(history, t);
      OthersStay(t);
      OwnLogGrows(control, controlTime, lastControl, ControlLog, history, t, Entry(command, caller, time));
      CallersGrow(control, controlTime, callerBundleName, lastControl, history, t, Entry(command, caller, time));
      PushIsLast(control, command, ControlLog);
      if command != lastControl {
        lastControl := command;
        control, controlTime := control + [command], controlTime + [time];
        callerBundleName := callerBundleName + [caller];
      }
      history := history + [t];
    }

    method UpdateSupportIntent(intent: string, ghost time: nat)
      requires Valid()
      modifies `supportIntent, `history
      ensures Valid() && history == old(history) + [Timed(SupportIntent(intent), time)]
    {
      hide Holds, DetailsOf, Logged;
      ghost var t := Timed(SupportIntent(intent), time);
      OthersStay(t);
      DetailsGrow(history, t);
      supportIntent := intent;
      history := history + [t];
    }

    method UpdateSupportAvqueue(avqueue: bool, ghost time: nat)
      requires Valid()
      modifies `supportAvqueue, `history
      ensures Valid() && history == old(history) + [Timed(SupportAvqueue(avqueue), time)]
    {
      hide Holds, DetailsOf, Logged;
      ghost var t := Timed(SupportAvqueue(avqueue), time);
      OthersStay(t);
      DetailsGrow(history, t);
      supportAvqueue := avqueue;
      history := history + [t];
    }
  }

  // ---------- All bundles ----------

  ghost function Reports(flushed: seq<Flush>): seq<Report> {
    seq(|flushed|, i requires 0 <= i < |flushed| => ReportOf(flushed[i].bundleName, flushed[i].history))
  }

  class AVSessionSysEvent {
    var playingStateInfos: map<string, PlayingStateInfo>
    /** The statistics written so far. */
    var written: seq<Report>
    /** The histories they were written for. */
    ghost var flushed: seq<Flush>

    /** One object per bundle, each with its own name. */
    ghost predicate InfosValid()
      reads `playingStateInfos, playingStateInfos.Values
    {
      && (forall b :: b in playingStateInfos ==>
            playingStateInfos[b].Valid() && playingStateInfos[b].bundleName == b)
      && (forall b, c :: b in playingStateInfos && c in playingStateInfos && b != c ==>
            playingStateInfos[b] != playingStateInfos[c])
    }

    ghost predicate Valid()
      reads this, playingStateInfos.Values
    {
      InfosValid() && written == Reports(flushed)
    }

    ghost function Live(): map<string, History>
      reads `playingStateInfos, playingStateInfos.Values
    {
      map b | b in playingStateInfos :: playingStateInfos[b].history
    }

    ghost function View(): Logs
      reads this, playingStateInfos.Values
    {
      Logs(Live(), flushed)
    }

    constructor ()
      ensures Valid() && View() == NOTHING && playingStateInfos == map[]
    {
      playingStateInfos, written, flushed := map[], [], [];
    }

    method GetPlayingStateInfo(bundleName: string) returns (info: PlayingStateInfo)
      requires Valid()
      modifies this`playingStateInfos
      ensures Valid() && fresh(playingStateInfos.Values - old(playingStateInfos.Values))
      ensures bundleName in playingStateInfos && playingStateInfos[bundleName] == info
      ensures playingStateInfos.Keys == old(View()).live.Keys + {bundleName}
      ensures forall b :: b in playingStateInfos && b != bundleName ==>
                playingStateInfos[b].history == old(View()).live[b]
      ensures info.history == HistoryOf(old(View()), bundleName)
    {
      hide PlayingStateInfo.Valid;
      if bundleName !in playingStateInfos {
        var made := new PlayingStateInfo(bundleName);
        assert forall b :: b in playingStateInfos ==> playingStateInfos[b] in playingStateInfos.Values;
        playingStateInfos := playingStateInfos[bundleName := made];
      }
      info := playingStateInfos[bundleName];
    }

    /** Forgets a bundle; its object is deleted. */
    method Erase(bundleName: string)
      requires InfosValid()
      modifies `playingStateInfos
      ensures InfosValid() && Live() == old(Live()) - {bundleName}
      ensures playingStateInfos.Values <= old(playingStateInfos.Values)
    {
      hide PlayingStateInfo.Valid;
      playingStateInfos := playingStateInfos - {bundleName};
    }

    method HiSysWrite(info: PlayingStateInfo)
      requires info.Valid() && written == Reports(flushed)
      modifies `written, `flushed
      ensures flushed == old(flushed) + [Flush(info.bundleName, info.history)] && written == Reports(flushed)
    {
      hide PlayingStateInfo.Valid, PlayingStateInfo.AsReport, ReportOf;
      info.ReportsItsHistory();
      written := written + [info.AsReport()];
      flushed := flushed + [Flush(info.bundleName, info.history)];
    }

    method ReportPlayingState(bundleName: string)
      requires Valid()
      modifies this
      ensures Valid() && View() == Flushed(old(View()), bundleName)
      ensures playingStateInfos.Values <= old(playingStateInfos.Values)
    {
      hide PlayingStateInfo.Valid, Reports;
      if bundleName !in playingStateInfos { return; }
      HiSysWrite(playingStateInfos[bundleName]);
      Erase(bundleName);
    }

    method ReportEach(keys: seq<string>)
      requires Valid()
      modifies this
      ensures Valid() && View() == FlushedEach(old(View()), keys)
      ensures playingStateInfos.Values <= old(playingStateInfos.Values)
    {
      hide *;
      ghost var before := View();
      FlushNone(before);
      for i := 0 to |keys|
        invariant Valid() && View() == FlushedEach(before, keys[..i])
        invariant playingStateInfos.Values <= old(playingStateInfos.Values)
      {
        FlushNext(before, keys, i);
        ReportPlayingState(keys[i]);
      }
      assert keys[..|keys|] == keys;
    }

    lemma KeysOfView()
      ensures View().live.Keys == playingStateInfos.Keys
    {
    }

    method ReportPlayingStateAll()
      requires Valid()
      modifies this
      ensures Valid() && View() == Step(old(View()), ReportedAll)
      ensures playingStateInfos.Values <= old(playingStateInfos.Values)
    {
      hide *;
      KeysOfView();
      ReportsAllKeys(View());
      var keys := SortedKeys(playingStateInfos.Keys);
      ReportEach(keys);
    }

    /** One bundle's object has taken the update t, and nothing else has changed since s but that it exists. */
    lemma RecordedHere(s: Logs, bundleName: string, t: Timed)
      requires bundleName in playingStateInfos && flushed == s.flushed
      requires playingStateInfos.Keys == s.live.Keys + {bundleName}
      requires playingStateInfos[bundleName].history == HistoryOf(s, bundleName) + [t]
      requires forall b :: b in playingStateInfos && b != bundleName ==> playingStateInfos[b].history == s.live[b]
      ensures View() == Recorded(s, bundleName, t)
    {
      assert Live() == Recorded(s, bundleName, t).live;
    }

    /** Reports a bundle whose log has reached the report size. */
    method ReportIfFull(bundleName: string, size: nat, ghost s: Logs, ghost t: Timed)
      requires Valid() && View() == Recorded(s, bundleName, t)
      requires IsFull(t.update, View().live[bundleName]) == (size >= REPORT_SIZE)
      modifies this
      ensures Valid() && View() == AfterUpdate(s, bundleName, t)
      ensures playingStateInfos.Values <= old(playingStateInfos.Values)
    {
      hide Valid, View, IsFull, Flushed;
      if size < REPORT_SIZE { return; }
      ReportPlayingState(bundleName);
    }

    method UpdateState(bundleName: string, appVersion: string, state: nat, appType: string, time: nat)
      requires Valid()
      modifies this, playingStateInfos.Values
      ensures Valid() && fresh(playingStateInfos.Values - old(playingStateInfos.Values))
      ensures View() == AfterUpdate(old(View()), bundleName, Timed(State(appVersion, state, appType), time))
    {
      hide PlayingStateInfo.Valid, Reports, Logged, Recorded, AfterUpdate;
      ghost var s, t := View(), Timed(State(appVersion, state, appType), time);
      var info := GetPlayingStateInfo(bundleName);
      assert info in playingStateInfos.Values;
      info.UpdateApplication(appVersion, state, appType, time);
      RecordedHere(s, bundleName, t);
      info.SizesOfLogs();
      ReportIfFull(bundleName, |info.state|, s, t);
    }

    method UpdateMetaQuality(bundleName: string, metaQuality: nat, time: nat)
      requires Valid()
      modifies this, playingStateInfos.Values
      ensures Valid() && fresh(playingStateInfos.Values - old(playingStateInfos.Values))
      ensures View() == AfterUpdate(old(View()), bundleName, Timed(MetaQuality(metaQuality), time))
    {
      hide PlayingStateInfo.Valid, Reports, Logged, Recorded, AfterUpdate;
      ghost var s, t := View(), Timed(MetaQuality(metaQuality), time);
      var info := GetPlayingStateInfo(bundleName);
      assert info in playingStateInfos.Values;
      info.UpdateMetaQuality(metaQuality, time);
      RecordedHere(s, bundleName, t);
      info.SizesOfLogs();
      ReportIfFull(bundleName, |info.metaQuality|, s, t);
    }

    method UpdateCommandQuality(bundleName: string, commandQuality: nat, time: nat)
      requires Valid()
      modifies this, playingStateInfos.Values
      ensures Valid() && fresh(playingStateInfos.Values - old(playingStateInfos.Values))
      ensures View() == AfterUpdate(old(View()), bundleName, Timed(CommandQuality(commandQuality), time))
    {
      hide PlayingStateInfo.Valid, Reports, Logged, Recorded, AfterUpdate;
      ghost var s, t := View(), Timed(CommandQuality(commandQuality), time);
      var info := GetPlayingStateInfo(bundleName);
      assert info in playingStateInfos.Values;
      info.UpdateCommandQuality(commandQuality, time);
      RecordedHere(s, bundleName, t);
      info.SizesOfLogs();
      ReportIfFull(bundleName, |info.commandQuality|, s, t);
    }

    method UpdatePlaybackState(bundleName: string, playbackState: nat, time: nat)
      requires Valid()
      modifies this, playingStateInfos.Values
      ensures Valid() && fresh(playingStateInfos.Values - old(playingStateInfos.Values))
      ensures View() == AfterUpdate(old(View()), bundleName, Timed(PlaybackState(playbackState), time))
    {
      hide PlayingStateInfo.Valid, Reports, Logged, Recorded, AfterUpdate;
      ghost var s, t := View(), Timed(PlaybackState(playbackState), time);
      var info := GetPlayingStateInfo(bundleName);
      assert info in playingStateInfos.Values;
      info.UpdatePlaybackState(playbackState, time);
      RecordedHere(s, bundleName, t);
      info.SizesOfLogs();
      ReportIfFull(bundleName, |info.playbackState|, s, t);
    }

    method UpdateControl(bundleName: string, control: nat, callerBundleName: string, time: nat)
      requires Valid()
      modifies this, playingStateInfos.Values
      ensures Valid() && fresh(playingStateInfos.Values - old(playingStateInfos.Values))
      ensures View() == AfterUpdate(old(View()), bundleName, Timed(Control(control, callerBundleName), time))
    {
      hide PlayingStateInfo.Valid, Reports, Logged, Recorded, AfterUpdate;
      ghost var s, t := View(), Timed(Control(control, callerBundleName), time);
      var info := GetPlayingStateInfo(bundleName);
      assert info in playingStateInfos.Values;
      info.UpdateControl(control, callerBundleName, time);
      RecordedHere(s, bundleName, t);
      info.SizesOfLogs();
      ReportIfFull(bundleName, |info.control|, s, t);
    }

    method UpdateSupportIntent(bundleName: string, supportIntent: string, ghost time: nat)
      requires Valid()
      modifies this, playingStateInfos.Values
      ensures Valid() && fresh(playingStateInfos.Values - old(playingStateInfos.Values))
      ensures View() == AfterUpdate(old(View()), bundleName, Timed(SupportIntent(supportIntent), time))
    {
      hide PlayingStateInfo.Valid, Reports, Logged, Recorded, AfterUpdate;
      ghost var s, t := View(), Timed(SupportIntent(supportIntent), time);
      var info := GetPlayingStateInfo(bundleName);
      assert info in playingStateInfos.Values;
      info.UpdateSupportIntent(supportIntent, time);
      RecordedHere(s, bundleName, t);
      NeverFull(s, bundleName, t);
    }

    method UpdateSupportAvqueue(bundleName: string, supportAvqueue: bool, ghost time: nat)
      requires Valid()
      modifies this, playingStateInfos.Values
      ensures Valid() && fresh(playingStateInfos.Values - old(playingStateInfos.Values))
      ensures View() == AfterUpdate(old(View()), bundleName, Timed(SupportAvqueue(supportAvqueue), time))
    {
      hide PlayingStateInfo.Valid, Reports, Logged, Recorded, AfterUpdate;
      ghost var s, t := View(), Timed(SupportAvqueue(supportAvqueue), time);
      var info := GetPlayingStateInfo(bundleName);
      assert info in playingStateInfos.Values;
      info.UpdateSupportAvqueue(supportAvqueue, time);
      RecordedHere(s, bundleName, t);
      NeverFull(s, bundleName, t);
    }

    /** What has been written of one log of a bundle, report by report, and then what it holds now. */
    ghost function AllValues(kind: Kind, bundleName: string): seq<nat>
      reads this, playingStateInfos.Values
    {
      WrittenValues(kind, bundleName, written) +
      if bundleName in playingStateInfos then ReportValues(kind, playingStateInfos[bundleName].AsReport()) else []
    }

    lemma AllValuesAreTheLog(kind: Kind, bundleName: string)
      requires Valid()
      ensures AllValues(kind, bundleName) == Values(WrittenLog(kind, bundleName, View()))
    {
      hide PlayingStateInfo.Valid, PlayingStateInfo.AsReport, ReportOf, ReportValues, WrittenOf, Logged, LoggedInputs;
      hide ReportedPeriods, Reports, WrittenValues;
      ReportedValues(kind, bundleName, flushed);
      ghost var reported, live := ReportedPeriods(kind, bundleName, flushed), HistoryOf(View(), bundleName);
      ReportShowsLog(kind, bundleName, live);
      OneMorePeriod(kind, reported, live);
      ValuesAdd(WrittenOf(kind, reported), Logged(kind, live));
      if bundleName in playingStateInfos {
        playingStateInfos[bundleName].ReportsItsHistory();
      } else {
        NoLog(kind);
      }
    }
  }

  // ---------- Written values ----------

  /** The list of a report that holds a log. */
  function ReportValues(kind: Kind, r: Report): seq<nat> {
    match kind
    case StateLog => r.state
    case MetaLog => r.metaQuality
    case CommandLog => r.commandQuality
    case PlaybackLog => r.playbackState
    case ControlLog => r.control
  }

  /** Those lists of a bundle's reports, one after the other. */
  function WrittenValues(kind: Kind, bundleName: string, written: seq<Report>): seq<nat> {
    if written == [] then [] else
      var r := written[|written| - 1];
      WrittenValues(kind, bundleName, written[..|written| - 1])
      + if r.bundleName == bundleName then ReportValues(kind, r) else []
  }

  lemma ReportShowsLog(kind: Kind, bundleName: string, h: History)
    ensures ReportValues(kind, ReportOf(bundleName, h)) == Values(Logged(kind, h))
    ensures ReportOf(bundleName, h).bundleName == bundleName
  {
  }

  lemma OneMorePeriod(kind: Kind, periods: seq<seq<Entry>>, h: History)
    ensures WrittenOf(kind, periods + [Inputs(kind, h)]) == WrittenOf(kind, periods) + Logged(kind, h)
  {
    assert (periods + [Inputs(kind, h)])[..|periods|] == periods;
  }

  lemma NoLog(kind: Kind)
    ensures Values(Logged(kind, [])) == []
  {
  }

  lemma {:induction false} ReportedValues(kind: Kind, bundleName: string, flushed: seq<Flush>)
    ensures WrittenValues(kind, bundleName, Reports(flushed)) ==
            Values(WrittenOf(kind, ReportedPeriods(kind, bundleName, flushed)))
    decreases |flushed|
  {
    hide ReportOf, ReportValues, Inputs, Logged, WrittenOf;
    if flushed == [] {
      NoPeriods(kind);
    } else {
      var n := |flushed| - 1;
      var init, f := flushed[..n], flushed[n];
      ReportedValues(kind, bundleName, init);
      assert Reports(flushed)[..n] == Reports(init);
      assert Reports(flushed)[n] == ReportOf(f.bundleName, f.history);
      ReportShowsLog(kind, f.bundleName, f.history);
      if f.bundleName == bundleName {
        OneMorePeriod(kind, ReportedPeriods(kind, bundleName, init), f.history);
        ValuesAdd(WrittenOf(kind, ReportedPeriods(kind, bundleName, init)), Logged(kind, f.history));
      } else {
        assert ReportedPeriods(kind, bundleName, flushed) == ReportedPeriods(kind, bundleName, init);
        assert WrittenValues(kind, bundleName, Reports(flushed)) == WrittenValues(kind, bundleName, Reports(init));
      }
    }
  }

  lemma NoPeriods(kind: Kind)
    ensures Values(WrittenOf(kind, [])) == []
  {
  }

  /** The values written and held of a log are those of the changes, exactly if all report boundaries are seamless. */
  ghost predicate WrittenRight(values: seq<nat>, kind: Kind, bundleName: string, ops: seq<Op>) {
    var inputs := Inputs(kind, SentTo(bundleName, ops));
    if kind.MetaLog? then values == Values(inputs)
    else values == Values(Changes(Sentinel(kind), inputs)) <==>
         AllSeamless(Sentinel(kind), Periods(kind, bundleName, Run(NOTHING, ops)))
  }

  /** Any run of updates and reports on a fresh object. */
  method Replay(ops: seq<Op>) returns (events: AVSessionSysEvent)
    ensures fresh(events) && events.Valid() && events.View() == Run(NOTHING, ops)
    ensures Bounded(events.View())
    ensures forall kind: Kind, b: string :: WrittenRight(events.AllValues(kind, b), kind, b, ops)
  {
    hide *;
    events := new AVSessionSysEvent();
    NothingRun();
    for i := 0 to |ops|
      invariant fresh(events) && events.Valid() && fresh(events.playingStateInfos.Values)
      invariant events.View() == Run(NOTHING, ops[..i])
    {
      OneMoreOp(ops, i);
      Apply(events, ops[i]);
    }
    assert ops[..|ops|] == ops;
    NothingIsBounded();
    RunsKeepBounds(NOTHING, ops);
    forall kind: Kind, b: string
      ensures WrittenRight(events.AllValues(kind, b), kind, b, ops)
    {
      events.AllValuesAreTheLog(kind, b);
      LogIsWrittenRight(kind, b, ops);
    }
  }

  lemma LogIsWrittenRight(kind: Kind, b: string, ops: seq<Op>)
    ensures WrittenRight(Values(WrittenLog(kind, b, Run(NOTHING, ops))), kind, b, ops)
  {
    hide WrittenLog, Run, Periods, AllSeamless, Changes, Inputs, SentTo;
    WrittenLogsAreChanges(kind, ops, b);
  }

  lemma OneMoreOp(ops: seq<Op>, i: nat)
    requires i < |ops|
    ensures Run(NOTHING, ops[..i + 1]) == Step(Run(NOTHING, ops[..i]), ops[i])
  {
    hide Step;
    assert ops[..i + 1][..i] == ops[..i];
  }

  lemma NothingIsBounded()
    ensures Bounded(NOTHING)
  {
  }

  method Apply(events: AVSessionSysEvent, op: Op)
    requires events.Valid()
    modifies events, events.playingStateInfos.Values
    ensures events.Valid() && fresh(events.playingStateInfos.Values - old(events.playingStateInfos.Values))
    ensures events.View() == Step(old(events.View()), op)
  {
    hide AVSessionSysEvent.Valid, AVSessionSysEvent.View, AfterUpdate, Flushed;
    match op
    case Reported(name) => events.ReportPlayingState(name);
    case ReportedAll => events.ReportPlayingStateAll();
    case Updated(b, t) =>
      match t.update
      case State(version, state, appType) => events.UpdateState(b, version, state, appType, t.time);
      case MetaQuality(q) => events.UpdateMetaQuality(b, q, t.time);
      case CommandQuality(q) => events.UpdateCommandQuality(b, q, t.time);
      case PlaybackState(s) => events.UpdatePlaybackState(b, s, t.time);
      case Control(c, caller) => events.UpdateControl(b, c, caller, t.time);
      case SupportIntent(intent) => events.UpdateSupportIntent(b, intent, t.time);
      case SupportAvqueue(avqueue) => events.UpdateSupportAvqueue(b, avqueue, t.time);
  }
}
