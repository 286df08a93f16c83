/** What every run of the room controller keeps, from mounting to unmounting. */
module PickerInvariants {
  import opened PickerSpec

  predicate IsArmed(t: Timers, timer: Timer) {
    exists id :: id in t.armed && t.armed[id] == timer
  }

  /** Every timeout still to come is in timeoutIds, so that clearing the list clears it. */
  predicate TimersTracked(t: Timers) {
    forall id :: id in t.armed ==> id in t.timeoutIds && id < t.next
  }

  predicate OneScanTimer(t: Timers) {
    forall i, j :: i in t.armed && j in t.armed && t.armed[i] == t.armed[j] == ScanTimer ==> i == j
  }

  /** The scan lock always waits for an event that releases it. */
  predicate ScanLockKept(k: Lock, t: Timers) {
    && (IsArmed(t, ScanTimer) <==> k.isAllCancel && !k.scanDelay)
    && (k.isAllCancel && k.scanDelay ==> k.scanStatus == 0)
    && (!k.isAllCancel ==> !k.scanDelay)
  }

  predicate NothingPending(b: Board) {
    forall i: nat :: i < |b.rooms| ==> !On(b.pending, i)
  }

  /** The select lock waits for a click timer or for the scan lock; without locks nothing is pending. */
  predicate SelectLockKept(k: Lock, t: Timers, b: Board) {
    && (k.isSelectProcessing ==> IsArmed(t, ClickTimer) || k.isAllCancel)
    && (!k.isSelectProcessing && !k.isAllCancel ==> NothingPending(b))
  }

  /** What the component shows of the room list is what the room list says. */
  predicate AggregatesAgree(b: Board) {
    && (forall i: nat :: i < |b.rooms| ==>
          && i in b.roomIsSelect && b.roomIsSelect[i] == Selected(b.rooms[i], b.playTaskId)
          && i in b.currVolume && b.currVolume[i] == b.rooms[i].volume)
    && b.isAllSelecting == AllSelected(b.rooms, b.playTaskId)
  }

  predicate Inv(v: View) {
    && TimersTracked(v.timers) && OneScanTimer(v.timers)
    && ScanLockKept(v.lock, v.timers)
    && SelectLockKept(v.lock, v.timers, v.board)
    && AggregatesAgree(v.board)
  }

  // ---------- Timers ----------

  lemma ArmAdds(t: Timers, timer: Timer)
    requires TimersTracked(t)
    ensures TimersTracked(Arm(t, timer))
    ensures forall u :: IsArmed(Arm(t, timer), u) <==> u == timer || IsArmed(t, u)
    ensures OneScanTimer(t) && (timer == ScanTimer ==> !IsArmed(t, ScanTimer)) ==> OneScanTimer(Arm(t, timer))
  {
    var r := Arm(t, timer);
    assert r.armed[t.next] == timer;
    forall u | IsArmed(t, u)
      ensures IsArmed(r, u)
    {
      var id :| id in t.armed && t.armed[id] == u;
      assert id in r.armed && r.armed[id] == u;
    }
  }

  lemma FiringRemoves(t: Timers, id: nat)
    requires TimersTracked(t) && OneScanTimer(t) && id in t.armed
    ensures var r := t.(armed := t.armed - {id});
            && TimersTracked(r) && OneScanTimer(r)
            && (t.armed[id] == ScanTimer ==> !IsArmed(r, ScanTimer))
            && (t.armed[id] == ClickTimer ==> (IsArmed(r, ScanTimer) <==> IsArmed(t, ScanTimer)))
  {
    var r := t.(armed := t.armed - {id});
    if IsArmed(t, ScanTimer) && t.armed[id] == ClickTimer {
      var other :| other in t.armed && t.armed[other] == ScanTimer;
      assert other in r.armed && r.armed[other] == ScanTimer;
    }
  }

  lemma ClearedTimers(t: Timers)
    requires TimersTracked(t)
    ensures ClearTimers(t).armed == map[]
  {
  }

  // ---------- The handlers ----------

  lemma RefreshedKeeps(v: View)
    requires TimersTracked(v.timers) && OneScanTimer(v.timers) && ScanLockKept(v.lock, v.timers)
    ensures Inv(Refreshed(v))
  {
    hide Selected, AllSelected, ShellRefreshed;
    ClearedTimers(v.timers);
  }

  lemma ScanStatusKeeps(v: View, status: int)
    requires Inv(v)
    ensures Inv(OnScanStatus(v, status))
  {
    hide Selected, AllSelected, Send;
    ClearedTimers(v.timers);
    ArmAdds(ClearTimers(v.timers), ScanTimer);
  }

  lemma TimerKeeps(v: View, id: nat)
    requires Inv(v)
    ensures Inv(Fired(v, id))
  {
    hide Selected, AllSelected;
    if id in v.timers.armed {
      FiringRemoves(v.timers, id);
    }
  }

  lemma ClickKeeps(v: View, index: nat)
    requires Inv(v)
    ensures Inv(OnCheckbox(v, index)) && Inv(OnRoom(v, index)) && Inv(OnAllSelect(v))
  {
    hide Selected, AllSelected, Send, Chosen;
    ArmAdds(v.timers, ClickTimer);
  }

  lemma DeviceKeeps(v: View, connected: bool)
    requires Inv(v)
    ensures Inv(OnDevice(v, connected))
  {
    hide Selected, AllSelected, Send;
    ArmAdds(v.timers, ClickTimer);
  }

  lemma KeyKeeps(v: View, key: int)
    requires Inv(v)
    ensures Inv(OnKey(v, key))
  {
    hide KeyedVolume, SyncMaxVolume, VolumeChanges;
    var b, r := v.board, OnKey(v, key).board;
    assert |r.rooms| == |b.rooms|;
    forall i: nat | i < |b.rooms|
      ensures Selected(r.rooms[i], r.playTaskId) == Selected(b.rooms[i], b.playTaskId)
      ensures i in r.currVolume && r.currVolume[i] == r.rooms[i].volume
    {
    }
  }

  lemma SliderKeeps(v: View, index: nat, value: real, ended: bool)
    requires Inv(v)
    ensures Inv(OnSlider(v, index, value, ended))
  {
    hide SyncMaxVolume, Send;
    if index < |v.board.rooms| {
      var b, r := v.board, OnSlider(v, index, value, ended).board;
      assert |r.rooms| == |b.rooms|;
      forall i: nat | i < |b.rooms|
        ensures Selected(r.rooms[i], r.playTaskId) == Selected(b.rooms[i], b.playTaskId)
        ensures i in r.currVolume && r.currVolume[i] == r.rooms[i].volume
      {
      }
    }
  }

  lemma StepKeeps(v: View, e: Event)
    requires Inv(v)
    ensures Inv(Step(v, e))
  {
    hide Refreshed, ScanStatusChange, Fired, OnCheckbox, OnRoom, OnAllSelect, OnDevice, OnKey, OnSlider, OnScanStatus;
    match e
    case RoomList(rooms) => RefreshedKeeps(v.(board := v.board.(rooms := rooms)));
    case PlayTask(task) => RefreshedKeeps(v.(board := v.board.(playTaskId := task)));
    case KeyInput(key) => KeyKeeps(v, key);
    case ScanStatus(status) => ScanStatusKeeps(v, status);
    case RoomClick(index) => ClickKeeps(v, index);
    case CheckboxClick(index) => ClickKeeps(v, index);
    case AllSelectClick => ClickKeeps(v, 0);
    case DeviceClick(connected) => DeviceKeeps(v, connected);
    case SliderMove(index, value, ended) => SliderKeeps(v, index, value, ended);
    case TimerFires(id) => TimerKeeps(v, id);
    case _ =>
  }

  /** Every state a mounted component can reach satisfies the invariant. */
  lemma {:induction false} RunsKeep(events: seq<Event>)
    ensures Inv(Run(MOUNTED, events))
  {
    hide Step;
    if events != [] {
      var before := events[..|events| - 1];
      RunsKeep(before);
      StepKeeps(Run(MOUNTED, before), events[|events| - 1]);
    }
  }

  // ---------- Consequences ----------

  /** Nothing fires into a component that has disappeared. */
  lemma UnmountedIsSilent(events: seq<Event>, id: nat)
    ensures var v := Unmounted(Run(MOUNTED, events));
            v.timers.armed == map[] && Fired(v, id) == v
  {
    hide Run, Step;
    RunsKeep(events);
    ClearedTimers(Run(MOUNTED, events).timers);
  }

  /** The locks are off and no room of the list is pending. */
  predicate Released(v: View) {
    !v.lock.isAllCancel && !v.lock.scanDelay && !v.lock.isSelectProcessing && NothingPending(v.board)
  }

  /** No scan starts in a run: none is announced while the last status is another. */
  predicate NoScanStarts(v: View, events: seq<Event>) {
    forall k :: 0 <= k < |events| && events[k] == ScanStatus(0) ==> Run(v, events[..k]).lock.scanStatus == 0
  }

  /** The end of the scan has been announced in a run. */
  predicate EndAnnounced(events: seq<Event>) {
    exists k :: 0 <= k < |events| && events[k].ScanStatus? && events[k].status != 0
  }

  /** A scan lock whose scan timer runs, or has fired, or is over, by what has happened since it began. */
  predicate ScanGoes(v: View, id: nat, fired: bool, announced: bool) {
    && (!fired ==> id in v.timers.armed && v.timers.armed[id] == ScanTimer)
    && (fired ==> !IsArmed(v.timers, ScanTimer))
    && (v.lock.isAllCancel <==> !(fired && announced))
    && (v.lock.isAllCancel ==> (v.lock.scanDelay <==> fired) && (v.lock.scanStatus == 0 <==> !announced))
    && (announced ==> v.lock.scanStatus != 0)
  }

  /** One event takes the scan lock on; the event that completes the two releases it. */
  lemma ScanGoesOn(v: View, id: nat, fired: bool, announced: bool, e: Event)
    requires Inv(v) && ScanGoes(v, id, fired, announced)
    requires e == ScanStatus(0) ==> v.lock.scanStatus == 0
    ensures var f, a := fired || e == TimerFires(id), announced || (e.ScanStatus? && e.status != 0);
            && ScanGoes(Step(v, e), id, f, a)
            && (f && a && !(fired && announced) ==> Released(Step(v, e)))
  {
    hide Selected, AllSelected, AnySelected, Send, ShellRefreshed, Chosen, KeyedRooms, Numbered, VolumeChanges;
    hide SelectedVolumes, SyncMaxVolume, MenuStateChange, SetHouseMusic, PlaysTask, BoardShown, BoardPending;
    hide AggregatesAgree, Volumes, SelectedFlags;
    ArmAdds(v.timers, ClickTimer);
    if e.TimerFires? && e.id in v.timers.armed { FiringRemoves(v.timers, e.id); }
  }

  /**
   From the start of a scan, whatever else happens before the next one starts: the scan lock holds until
   its timer has fired and the end of the scan has been announced, in either order, and the event that
   completes the two releases everything.
   */
  lemma {:induction false} ScanLockIsReleased(v: View, id: nat, events: seq<Event>)
    requires Inv(v) && v.lock.isAllCancel && v.lock.scanStatus == 0
    requires id in v.timers.armed && v.timers.armed[id] == ScanTimer && NoScanStarts(v, events)
    ensures Run(v, events).lock.isAllCancel <==> !(TimerFires(id) in events && EndAnnounced(events))
    ensures ScanGoes(Run(v, events), id, TimerFires(id) in events, EndAnnounced(events)) && Inv(Run(v, events))
    ensures events != [] && TimerFires(id) in events && EndAnnounced(events) ==>
              var init := events[..|events| - 1];
              (TimerFires(id) in init && EndAnnounced(init)) || Released(Run(v, events))
    decreases |events|
  {
    hide Inv, Step, ScanGoes, Released;
    if events == [] {
      ScanBegins(v, id);
    } else {
      var init, e := events[..|events| - 1], events[|events| - 1];
      assert events == init + [e];
      ScanStartsBefore(v, events);
      ScanLockIsReleased(v, id, init);
      AnnouncedBefore(init, e);
      ScanGoesOn(Run(v, init), id, TimerFires(id) in init, EndAnnounced(init), e);
      StepKeeps(Run(v, init), e);
      LockOfScan(Run(v, events), id, TimerFires(id) in events, EndAnnounced(events));
    }
  }

  lemma ScanBegins(v: View, id: nat)
    requires Inv(v) && v.lock.isAllCancel && v.lock.scanStatus == 0
    requires id in v.timers.armed && v.timers.armed[id] == ScanTimer
    ensures ScanGoes(v, id, false, false)
  {
  }

  lemma LockOfScan(v: View, id: nat, fired: bool, announced: bool)
    requires ScanGoes(v, id, fired, announced)
    ensures v.lock.isAllCancel <==> !(fired && announced)
  {
  }

  lemma ScanStartsBefore(v: View, events: seq<Event>)
    requires events != [] && NoScanStarts(v, events)
    ensures var n := |events| - 1;
            NoScanStarts(v, events[..n]) && (events[n] == ScanStatus(0) ==> Run(v, events[..n]).lock.scanStatus == 0)
  {
    hide Run;
    var n := |events| - 1;
    forall k | 0 <= k < n && events[..n][k] == ScanStatus(0)
      ensures Run(v, events[..n][..k]).lock.scanStatus == 0
    {
      assert events[..n][..k] == events[..k] && events[k] == ScanStatus(0);
    }
  }

  lemma AnnouncedBefore(init: seq<Event>, e: Event)
    ensures EndAnnounced(init + [e]) <==> EndAnnounced(init) || (e.ScanStatus? && e.status != 0)
  {
    var events := init + [e];
    assert forall k :: 0 <= k < |init| ==> events[k] == init[k];
    assert events[|init|] == e;
  }

  /** With the timer already fired, the lock waits only for the announcement. */
  lemma DelayedScanLockIsReleased(v: View, status: int)
    requires Inv(v) && v.lock.isAllCancel && v.lock.scanDelay && status != 0
    ensures v.lock.scanStatus == 0 && Released(OnScanStatus(v, status))
  {
    hide Selected, AllSelected, Send;
  }

  /** A select lock without a scan lock has a click timer, and the firing of any click timer releases it. */
  lemma SelectLockIsReleased(v: View)
    requires Inv(v) && v.lock.isSelectProcessing && !v.lock.isAllCancel
    ensures exists id :: id in v.timers.armed && v.timers.armed[id] == ClickTimer
    ensures forall id :: id in v.timers.armed && v.timers.armed[id] == ClickTimer ==> Released(Fired(v, id))
  {
    hide Selected, AllSelected;
  }

  // ---------- The selection during a scan ----------

  /** The events that fire a click timer still to come. */
  predicate FiresClickTimer(v: View, e: Event) {
    e.TimerFires? && e.id in v.timers.armed && v.timers.armed[e.id] == ClickTimer
  }

  /** While the scan lock stays, the select lock ends exactly when a click timer fires. */
  lemma SelectionOpensExactly(v: View, e: Event)
    requires Inv(v) && v.lock.isAllCancel && v.lock.isSelectProcessing
    ensures var w := Step(v, e);
            w.lock.isAllCancel ==> (w.lock.isSelectProcessing <==> !FiresClickTimer(v, e))
  {
    hide Selected, AllSelected, AnySelected, Send, ShellRefreshed, Chosen, SyncMaxVolume, MenuStateChange;
    hide SetHouseMusic, PlaysTask, BoardShown, BoardPending, BoardIdle, KeyedRooms, AggregatesAgree;
  }

  /** The clicks that set a click timer: those on a device or a checkbox under the lock, and all others without. */
  predicate SetsClickTimer(v: View, e: Event) {
    || (e.DeviceClick? && v.shell.hasProxy && v.shell.houseMusicIsSelect)
    || (e.CheckboxClick? && Clickable(v.board.rooms, e.index))
    || (e.RoomClick? && Clickable(v.board.rooms, e.index) && !v.lock.isSelectProcessing)
    || (e.AllSelectClick? && !v.lock.isSelectProcessing)
  }

  /** During a scan, a click timer appears exactly with such a click. */
  lemma ClickTimerAppearsExactly(v: View, e: Event)
    requires Inv(v) && v.lock.isAllCancel && !IsArmed(v.timers, ClickTimer)
    ensures IsArmed(Step(v, e).timers, ClickTimer) <==> SetsClickTimer(v, e)
  {
    hide Selected, AllSelected, AnySelected, Send, ShellRefreshed, Chosen, SyncMaxVolume, MenuStateChange;
    hide SetHouseMusic, PlaysTask, BoardShown, BoardPending, BoardIdle, KeyedRooms, AggregatesAgree;
    ArmAdds(v.timers, ClickTimer);
    ArmAdds(ClearTimers(v.timers), ScanTimer);
  }

  predicate AllPending(b: Board) { forall i: nat :: i < |b.rooms| ==> On(b.pending, i) }

  /** A list with rooms whose flags are not set: the refresh leaves the flags alone. */
  predicate BringsFreeRooms(v: View, e: Event) {
    e.RoomList? && exists i: nat :: i < |e.rooms| && !On(v.board.pending, i)
  }

  /** The events that free a room: a click timer with rooms to free, and a list with rooms whose flags are not set. */
  predicate FreesARoom(v: View, e: Event) {
    (FiresClickTimer(v, e) && v.board.rooms != []) || BringsFreeRooms(v, e)
  }

  lemma OneMorePending(b: Board, index: nat)
    requires AllPending(b)
    ensures AllPending(b.(pending := b.pending[index := true]))
  {
    var c := b.(pending := b.pending[index := true]);
    forall i: nat | i < |c.rooms|
      ensures On(c.pending, i)
    {
      assert On(b.pending, i);
    }
  }

  /** While the scan lock stays, all rooms stay pending exactly unless such an event comes. */
  lemma RoomsStayPendingExactly(v: View, e: Event)
    requires Inv(v) && v.lock.isAllCancel && AllPending(v.board)
    ensures Step(v, e).lock.isAllCancel ==> (AllPending(Step(v, e).board) <==> !FreesARoom(v, e))
  {
    hide Selected, AllSelected, AnySelected, Send, ShellRefreshed, Chosen, SyncMaxVolume, MenuStateChange;
    hide SetHouseMusic, PlaysTask, AggregatesAgree, KeyedRoom, VolumeChanges, SelectedVolumes;
    var w := Step(v, e);
    match e
    case RoomList(rooms) =>
      assert w.board.rooms == rooms && w.board.pending == v.board.pending;
      assert BringsFreeRooms(v, e) <==> !AllPending(w.board);
    case KeyInput(key) =>
      assert |w.board.rooms| == |v.board.rooms| && w.board.pending == v.board.pending;
    case SliderMove(_, _, _) =>
      assert |w.board.rooms| == |v.board.rooms| && w.board.pending == v.board.pending;
    case TimerFires(_) =>
      if FiresClickTimer(v, e) && v.board.rooms != [] {
        var first: nat := 0;
        assert first < |w.board.rooms| && !On(w.board.pending, first);
      }
    case RoomClick(index) => OneMorePending(v.board, index);
    case CheckboxClick(index) => OneMorePending(v.board, index);
    case _ =>
  }

  predicate LockedThroughout(v: View, events: seq<Event>) {
    forall k :: 0 <= k <= |events| ==> Run(v, events[..k]).lock.isAllCancel
  }

  predicate PendingThroughout(v: View, events: seq<Event>) {
    forall k :: 0 <= k <= |events| ==> AllPending(Run(v, events[..k]).board)
  }

  predicate NothingFreed(v: View, events: seq<Event>) {
    forall k :: 0 <= k < |events| ==> !FreesARoom(Run(v, events[..k]), events[k])
  }

  lemma LastOfRun(v: View, events: seq<Event>)
    requires events != []
    ensures var init, e := events[..|events| - 1], events[|events| - 1];
            && (LockedThroughout(v, events) <==> LockedThroughout(v, init) && Run(v, events).lock.isAllCancel)
            && (PendingThroughout(v, events) <==> PendingThroughout(v, init) && AllPending(Run(v, events).board))
            && (NothingFreed(v, events) <==> NothingFreed(v, init) && !FreesARoom(Run(v, init), e))
  {
    hide Run, AllPending, FreesARoom;
    var init := events[..|events| - 1];
    assert forall k :: 0 <= k <= |init| ==> init[..k] == events[..k];
    assert forall k :: 0 <= k < |init| ==> init[k] == events[k];
    assert events[..|events|] == events;
  }

  /** As long as the scan lock holds, every listed room is pending throughout exactly if no event frees one. */
  lemma {:induction false} PendingThroughoutTheScan(v: View, events: seq<Event>)
    requires Inv(v) && AllPending(v.board) && LockedThroughout(v, events)
    ensures Inv(Run(v, events))
    ensures PendingThroughout(v, events) <==> NothingFreed(v, events)
    decreases |events|
  {
    hide Inv, Step, AllPending, FreesARoom;
    if events != [] {
      var init, e := events[..|events| - 1], events[|events| - 1];
      LastOfRun(v, events);
      PendingThroughoutTheScan(v, init);
      StepKeeps(Run(v, init), e);
      hide PendingThroughout, NothingFreed, LockedThroughout;
      LastIsIn(v, init);
      if AllPending(Run(v, init).board) { RoomsStayPendingExactly(Run(v, init), e); }
    } else {
      assert events[..0] == [];
    }
  }

  lemma LastIsIn(v: View, events: seq<Event>)
    ensures LockedThroughout(v, events) ==> Run(v, events).lock.isAllCancel
    ensures PendingThroughout(v, events) ==> AllPending(Run(v, events).board)
  {
    hide Run, AllPending;
    assert events[..|events|] == events;
  }

  /** A scan starts with every listed room pending. */
  lemma ScanStartsPending(v: View)
    requires Inv(v) && v.lock.scanStatus != 0
    ensures var w := OnScanStatus(v, 0); w.lock.isAllCancel && w.lock.isSelectProcessing && AllPending(w.board)
  {
    hide Selected, AllSelected, Send;
  }

  /**
   The scan lock does not hold the selection for its whole length: a click timer started by a device
   click during the scan ends the pending state of every room while the scan lock is still on.
   */
  lemma ClickTimerOpensSelectionDuringScan(v: View, connected: bool)
    requires Inv(v) && v.lock.isAllCancel && v.shell.hasProxy && v.shell.houseMusicIsSelect
    ensures var id, w := v.timers.next, OnDevice(v, connected);
            && id in w.timers.armed
            && Fired(w, id).lock.isAllCancel && !Fired(w, id).lock.isSelectProcessing
            && NothingPending(Fired(w, id).board)
  {
    hide Selected, Send;
  }
}
