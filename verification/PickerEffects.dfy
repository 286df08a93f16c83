/**
 What each message, click and timer does to the page and sends to the extension, stated on the rooms
 themselves: event by event, with all that stays as it was.
 */
module PickerEffects {
  import opened PickerInvariants
  import opened PickerSelection
  import opened PickerSpec

  /** A room is selected if it plays the task, there is a task, and its fault code is not 1. */
  lemma SelectedExactly(room: Room, task: string)
    ensures Selected(room, task) <==> room.playTask == task && task != "" && room.faultCode != 1
  {
  }

  lemma RefreshIsSilent(v: View)
    requires !v.shell.hasProxy
    ensures Refreshed(v).shell.sent == v.shell.sent && !Refreshed(v).shell.hasProxy
  {
    hide AllSelected, AnySelected, MaxVolume, BoardShown, ClearTimers;
  }

  /** Without a proxy nothing is ever sent. */
  lemma SilentWithoutProxy(v: View, e: Event)
    requires !v.shell.hasProxy
    ensures Step(v, e).shell.sent == v.shell.sent && (Step(v, e).shell.hasProxy <==> e.RemoteReady?)
  {
    hide Selected, AllSelected, AnySelected, MaxVolume, Chosen, PlaysTask, KeyedRooms, SelectedVolumes, VolumeChanges;
    hide BoardPending, BoardIdle, Refreshed, ClearTimers, Arm, InCall, Clickable;
    match e
    case RoomList(rooms) => RefreshIsSilent(v.(board := v.board.(rooms := rooms)));
    case PlayTask(task) => RefreshIsSilent(v.(board := v.board.(playTaskId := task)));
    case _ =>
  }

  /** A timeout of a kind has been set under the next number. */
  function WithTimer(t: Timers, timer: Timer): Timers {
    Timers(t.timeoutIds + [t.next], t.armed[t.next := timer], t.next + 1)
  }

  /** Every listed room waits, and its slider is hidden; flags beyond the list are as they were. */
  ghost predicate AllWait(w: Board, v: Board) {
    && (forall i: nat :: i < |v.rooms| ==> On(w.pending, i) && !On(w.visible, i))
    && (forall i: nat :: i >= |v.rooms| ==>
          (On(w.pending, i) <==> On(v.pending, i)) && (On(w.visible, i) <==> On(v.visible, i)))
    && w == v.(pending := w.pending, visible := w.visible)
  }

  /** No listed room waits, and the sliders are those of the selected rooms. */
  ghost predicate NoneWaits(w: Board, v: Board) {
    && (forall i: nat :: i < |v.rooms| ==>
          !On(w.pending, i) && (On(w.visible, i) <==> Selected(v.rooms[i], v.playTaskId)))
    && (forall i: nat :: i >= |v.rooms| ==>
          (On(w.pending, i) <==> On(v.pending, i)) && (On(w.visible, i) <==> On(v.visible, i)))
    && w == v.(pending := w.pending, visible := w.visible)
  }

  lemma FillingFlags(flags: Flags, n: nat, value: bool)
    ensures forall i: nat :: On(flags + Filled(n, value), i) <==> if i < n then value else On(flags, i)
  {
  }

  lemma SelectingFlags(flags: Flags, rooms: seq<Room>, task: string)
    ensures forall i: nat :: On(flags + SelectedFlags(rooms, task), i) <==>
                             if i < |rooms| then Selected(rooms[i], task) else On(flags, i)
  {
    hide Selected;
  }

  lemma PendingWaits(b: Board)
    ensures AllWait(BoardPending(b), b)
  {
    hide On, Filled;
    FillingFlags(b.pending, |b.rooms|, true);
    FillingFlags(b.visible, |b.rooms|, false);
  }

  lemma IdleLetsGo(b: Board)
    ensures NoneWaits(BoardIdle(b), b)
  {
    hide Selected, On, Filled, SelectedFlags;
    FillingFlags(b.pending, |b.rooms|, false);
    SelectingFlags(b.visible, b.rooms, b.playTaskId);
  }

  lemma ClearingClears(t: Timers)
    requires TimersTracked(t)
    ensures ClearTimers(t) == t.(timeoutIds := [], armed := map[])
  {
    assert t.armed - (set id | id in t.timeoutIds) == map[];
  }

  // ---------- Clicks ----------

  /**
   A click on all rooms. Unless the list is not empty and all of it selected, the whole list is sent and all
   are asked for; otherwise the null room is sent and none is. All rooms wait for three seconds at most.
   */
  lemma AllSelectDoes(v: View)
    requires !v.lock.isSelectProcessing
    ensures var w, rooms := Step(v, AllSelectClick), v.board.rooms;
            var some := rooms == [] || exists i :: 0 <= i < |rooms| && !Selected(rooms[i], v.board.playTaskId);
            && AllWait(w.board, v.board)
            && w == View(v.lock.(isSelectProcessing := true), WithTimer(v.timers, ClickTimer), w.board,
                         v.shell.(sent := w.shell.sent))
            && (v.shell.hasProxy ==>
                  w.shell.sent == v.shell.sent + [
                    RoomSelectChange(if some then rooms else [Room("", "", 0.0, 0, 0)]), RoomIsSelectAll(some)])
  {
    hide Selected, BoardPending, AllWait;
    PendingWaits(v.board);
  }

  /** Under the select lock clicks on all rooms and on a room do nothing, and on a faulty or unlisted room neither. */
  lemma RefusedClicks(v: View, index: nat)
    ensures v.lock.isSelectProcessing ==> Step(v, AllSelectClick) == Step(v, RoomClick(index)) == v
    ensures index >= |v.board.rooms| || v.board.rooms[index].faultCode == 1 ==>
              Step(v, RoomClick(index)) == Step(v, CheckboxClick(index)) == v
    ensures !v.lock.isSelectProcessing ==> Step(v, RoomClick(index)) == Step(v, CheckboxClick(index))
  {
    hide Selected, AllSelected, Chosen;
  }

  /** A click on a checkbox: that room waits, and the choice it asks for is remembered and sent. */
  lemma CheckboxDoes(v: View, index: nat)
    requires Inv(v) && index < |v.board.rooms| && v.board.rooms[index].faultCode != 1
    ensures var w, rooms := Step(v, CheckboxClick(index)), v.board.rooms;
            var chosen, choice := ChosenIndices(rooms, v.board.playTaskId, index), w.shell.selectRooms;
            && |choice| == |chosen|
            && (forall j :: 0 <= j < |chosen| ==> chosen[j] < |rooms| && choice[j] == rooms[chosen[j]])
            && w == View(v.lock.(isSelectProcessing := true), WithTimer(v.timers, ClickTimer),
                         v.board.(pending := v.board.pending[index := true]),
                         v.shell.(selectRooms := choice, sent := w.shell.sent))
            && (v.shell.hasProxy ==>
                  w.shell.sent == v.shell.sent + [
                    RoomSelectChange(if choice == [] then [Room("", "", 0.0, 0, 0)] else choice)])
  {
    hide Selected, ChosenIndices, Chosen;
    ChosenAreTheRoomsThere(v.board.rooms, v.board.playTaskId, index, !On(v.board.roomIsSelect, index));
  }

  /**
   A click on a device: house music that is selected is given up with the null room, and all rooms wait; a
   device that is not connected is asked for.
   */
  lemma DeviceDoes(v: View, connected: bool)
    ensures var w := Step(v, DeviceClick(connected));
            var leaves := v.shell.hasProxy && v.shell.houseMusicIsSelect;
            && (if leaves then AllWait(w.board, v.board) else w.board == v.board)
            && w == View(v.lock.(isSelectProcessing := leaves || v.lock.isSelectProcessing),
                         if leaves then WithTimer(v.timers, ClickTimer) else v.timers, w.board,
                         v.shell.(sent := w.shell.sent))
            && (v.shell.hasProxy ==>
                  w.shell.sent == v.shell.sent
                  + (if leaves then [RoomSelectChange([Room("", "", 0.0, 0, 0)])] else [])
                  + (if connected then [] else [SelectedDeviceInfo]))
  {
    hide Selected, BoardPending, AllWait;
    PendingWaits(v.board);
  }

  // ---------- Volumes ----------

  /** The greatest volume of the selected rooms, 0 at least. */
  predicate IsMaxVolume(m: real, rooms: seq<Room>, task: string) {
    && 0.0 <= m
    && (forall i :: 0 <= i < |rooms| && Selected(rooms[i], task) ==> rooms[i].volume <= m)
    && (m != 0.0 ==> exists i :: 0 <= i < |rooms| && Selected(rooms[i], task) && rooms[i].volume == m)
  }

  /** A slider: its room gets the volume; at the end of the movement the room, numbered, and the maximum are sent. */
  lemma SliderDoes(v: View, index: nat, value: real, ended: bool)
    requires index < |v.board.rooms|
    ensures var w, b := Step(v, SliderMove(index, value, ended)), v.board;
            var told := ended && v.shell.hasProxy;
            var room := b.rooms[index].(volume := value);
            var room := if told then room.(description := index + 1) else room;
            && w == v.(board := b.(rooms := b.rooms[index := room], currVolume := b.currVolume[index := value]),
                       shell := v.shell.(roomMaxVolume := w.shell.roomMaxVolume, sent := w.shell.sent))
            && (!told ==> w.shell == v.shell)
            && (told ==>
                  IsMaxVolume(w.shell.roomMaxVolume, w.board.rooms, b.playTaskId)
                  && w.shell.sent ==
                     v.shell.sent + [RoomVolumeChange(room), MaxVolumeSync(w.shell.roomMaxVolume)])
  {
    hide Selected, MaxVolume;
    MaxVolumeIsGreatest(Step(v, SliderMove(index, value, ended)).board.rooms, v.board.playTaskId);
  }

  /** A slider of a room that is not listed does nothing. */
  lemma SliderBeyondTheList(v: View, index: nat, value: real, ended: bool)
    requires index >= |v.board.rooms|
    ensures Step(v, SliderMove(index, value, ended)) == v
  {
  }

  /** Levels are steps of 20/3 to the nearest whole volume, and back to the nearest level. */
  lemma LevelsAreNearest(volume: real, level: int)
    ensures -0.5 < Level(volume) as real - volume * 0.15 <= 0.5
    ensures -0.5 < LevelVolume(level) - level as real * 20.0 / 3.0 <= 0.5
  {
  }

  /** A volume key: every room is sent with its number and its volume after the key, and then the maximum. */
  lemma KeyDoes(v: View, key: int)
    ensures var w, b := Step(v, KeyInput(key)), v.board;
            && |w.board.rooms| == |b.rooms|
            && (forall i :: 0 <= i < |b.rooms| ==>
                  var before, after := b.rooms[i], w.board.rooms[i];
                  && after == before.(volume := after.volume,
                                      description := if v.shell.hasProxy then i + 1 else before.description)
                  && (Selected(before, b.playTaskId) ==>
                        Level(after.volume) == ClampedLevel(Level(before.volume) + (if key == 16 then 1 else -1)))
                  && (!Selected(before, b.playTaskId) ==> after.volume == before.volume))
            && IsMaxVolume(w.shell.roomMaxVolume, w.board.rooms, b.playTaskId)
            && w == v.(board := b.(rooms := w.board.rooms, currVolume := w.board.currVolume),
                       shell := v.shell.(roomMaxVolume := w.shell.roomMaxVolume, sent := w.shell.sent))
            && (v.shell.hasProxy ==>
                  w.shell.sent ==
                  v.shell.sent + seq(|w.board.rooms|, i requires 0 <= i < |w.board.rooms| =>
                                                        RoomVolumeChange(w.board.rooms[i]))
                  + [MaxVolumeSync(w.shell.roomMaxVolume)])
  {
    hide Selected, MaxVolume, Level, KeyedVolume, ClampedLevel;
    var rooms := Step(v, KeyInput(key)).board.rooms;
    MaxVolumeIsGreatest(rooms, v.board.playTaskId);
    forall i | 0 <= i < |v.board.rooms| { KeyMovesLevel(v.board.rooms[i].volume, key); }
    assert VolumeChanges(rooms) == seq(|rooms|, i requires 0 <= i < |rooms| => RoomVolumeChange(rooms[i]));
  }

  // ---------- Messages ----------

  /** The flag of the menu: a change sends both flags and whether house music is picked. */
  lemma MenuDoes(v: View, on: bool)
    ensures var w := Step(v, MenuShown(on));
            && w == v.(shell := v.shell.(menuShown := on, sent := w.shell.sent))
            && (v.shell.hasProxy ==>
                  w.shell.sent == v.shell.sent +
                  if on == v.shell.menuShown then [] else
                    [MenuShow(on), SubMenuExpanded(v.shell.subMenuExpanded),
                     SelectHomeMusicSys(on && v.shell.houseMusicIsSelect)])
  {
  }

  /** And of the submenu. */
  lemma SubMenuDoes(v: View, on: bool)
    ensures var w := Step(v, SubMenu(on));
            && w == v.(shell := v.shell.(subMenuExpanded := on, sent := w.shell.sent))
            && (v.shell.hasProxy ==>
                  w.shell.sent == v.shell.sent +
                  if on == v.shell.subMenuExpanded then [] else
                    [MenuShow(v.shell.menuShown), SubMenuExpanded(on),
                     SelectHomeMusicSys(v.shell.menuShown && v.shell.houseMusicIsSelect)])
  {
  }

  /** The session type: outside calls house music is selected exactly if a listed room plays the task. */
  lemma SessionTypeDoes(v: View, sessionType: string)
    ensures var w := Step(v, SessionType(sessionType));
            var rooms, task := v.board.rooms, v.board.playTaskId;
            && w == v.(shell := v.shell.(sessionType := sessionType, houseMusicIsSelect := w.shell.houseMusicIsSelect,
                                         sent := w.shell.sent))
            && (w.shell.houseMusicIsSelect <==>
                sessionType != "voice_call" && sessionType != "video_call"
                && task != "" && exists i :: 0 <= i < |rooms| && rooms[i].playTask == task)
            && (v.shell.hasProxy ==>
                  w.shell.sent == v.shell.sent +
                  if w.shell.houseMusicIsSelect == v.shell.houseMusicIsSelect then []
                  else [SelectHomeMusicSys(v.shell.menuShown && w.shell.houseMusicIsSelect)])
  {
  }

  /** The flags and volumes are those of the rooms; waiting rooms are let go, unless the scan lock holds them. */
  predicate FlagsDerived(w: Board, v: Board, held: bool) {
    && w.rooms == v.rooms && w.playTaskId == v.playTaskId
    && (forall i: nat :: i < |v.rooms| ==>
          && (On(w.roomIsSelect, i) <==> Selected(v.rooms[i], v.playTaskId))
          && (On(w.visible, i) <==> Selected(v.rooms[i], v.playTaskId))
          && i in w.currVolume && w.currVolume[i] == v.rooms[i].volume
          && (On(w.pending, i) <==> held && On(v.pending, i)))
    && (w.isAllSelecting <==> v.rooms != [] && forall i :: 0 <= i < |v.rooms| ==> Selected(v.rooms[i], v.playTaskId))
  }

  /** House music is selected outside calls if a room is; then the maximum is sent, after a change of that flag. */
  predicate ShellDerived(w: Shell, v: Shell, rooms: seq<Room>, task: string) {
    var any := exists i :: 0 <= i < |rooms| && Selected(rooms[i], task);
    && (w.houseMusicIsSelect <==> any && v.sessionType != "voice_call" && v.sessionType != "video_call")
    && (if any then IsMaxVolume(w.roomMaxVolume, rooms, task) else w.roomMaxVolume == v.roomMaxVolume)
    && w == v.(houseMusicIsSelect := w.houseMusicIsSelect, roomMaxVolume := w.roomMaxVolume, sent := w.sent)
    && (v.hasProxy ==>
          w.sent == v.sent
          + (if w.houseMusicIsSelect == v.houseMusicIsSelect then []
             else [SelectHomeMusicSys(v.menuShown && w.houseMusicIsSelect)])
          + (if any then [MaxVolumeSync(w.roomMaxVolume)] else []))
  }

  /** All that is derived from the rooms when a list or a task has been taken over. */
  predicate Derived(w: View, v: View) {
    var held := v.lock.isAllCancel;
    && FlagsDerived(w.board, v.board, held)
    && ShellDerived(w.shell, v.shell, v.board.rooms, v.board.playTaskId)
    && w.lock == v.lock.(isSelectProcessing := held && v.lock.isSelectProcessing)
    && w.timers == if held then v.timers else v.timers.(timeoutIds := [], armed := map[])
  }

  lemma ShownIsDerived(b: Board, held: bool)
    ensures FlagsDerived(BoardShown(b, held).(isAllSelecting := AllSelected(b.rooms, b.playTaskId)), b, held)
  {
    hide Selected, On, Filled, SelectedFlags;
    FillingFlags(b.pending, |b.rooms|, false);
    SelectingFlags(b.visible, b.rooms, b.playTaskId);
    SelectingFlags(b.roomIsSelect, b.rooms, b.playTaskId);
  }

  lemma ShellIsDerived(h: Shell, rooms: seq<Room>, task: string)
    ensures ShellDerived(ShellRefreshed(h, rooms, task), h, rooms, task)
  {
    hide Selected, MaxVolume;
    MaxVolumeIsGreatest(rooms, task);
  }

  lemma RefreshDerives(v: View)
    requires TimersTracked(v.timers)
    ensures Derived(Refreshed(v), v)
  {
    hide BoardShown, ShellRefreshed, AllSelected, FlagsDerived, ShellDerived, ClearTimers;
    ShownIsDerived(v.board, v.lock.isAllCancel);
    ShellIsDerived(v.shell, v.board.rooms, v.board.playTaskId);
    ClearingClears(v.timers);
  }

  /** The room list and the task. */
  lemma ListAndTaskDo(v: View, rooms: seq<Room>, task: string)
    requires Inv(v)
    ensures Derived(Step(v, RoomList(rooms)), v.(board := v.board.(rooms := rooms)))
    ensures if task == v.board.playTaskId then Step(v, PlayTask(task)) == v
            else Derived(Step(v, PlayTask(task)), v.(board := v.board.(playTaskId := task)))
  {
    hide Refreshed, Derived;
    RefreshDerives(v.(board := v.board.(rooms := rooms)));
    RefreshDerives(v.(board := v.board.(playTaskId := task)));
  }

  /** The scan status: the start locks everything, and its end lets go of what the scan timer has left. */
  lemma ScanStatusDoes(v: View, status: int)
    requires Inv(v) && status != v.lock.scanStatus
    ensures var w := Step(v, ScanStatus(status));
            if status == 0 then
              && AllWait(w.board, v.board)
              && w == View(Lock(0, false, true, true),
                           WithTimer(v.timers.(timeoutIds := [], armed := map[]), ScanTimer), w.board,
                           v.shell.(sent := w.shell.sent))
              && (v.shell.hasProxy ==> w.shell.sent == v.shell.sent + [GetHomeMusicInfo])
            else if v.lock.scanDelay then
              NoneWaits(w.board, v.board)
              && w == v.(board := w.board, lock := Lock(status, false, false, false))
            else
              w == v.(lock := v.lock.(scanStatus := status))
  {
    hide BoardPending, BoardIdle, AllWait, NoneWaits, ClearTimers;
    PendingWaits(v.board);
    IdleLetsGo(v.board);
    ClearingClears(v.timers);
  }

  /** Timers send nothing. A click timer lets all rooms go; the scan timer does so only after the end of the scan. */
  lemma TimersDo(v: View, id: nat)
    requires id in v.timers.armed
    ensures var w, rest := Step(v, TimerFires(id)), v.timers.(armed := v.timers.armed - {id});
            if v.timers.armed[id] == ClickTimer then
              NoneWaits(w.board, v.board)
              && w == v.(timers := rest, board := w.board, lock := v.lock.(isSelectProcessing := false))
            else if v.lock.scanDelay || v.lock.scanStatus == 0 then
              w == v.(timers := rest, lock := v.lock.(scanDelay := true))
            else
              NoneWaits(w.board, v.board)
              && w == v.(timers := rest, board := w.board, lock := Lock(v.lock.scanStatus, false, false, false))
  {
    hide BoardIdle, NoneWaits;
    IdleLetsGo(v.board);
  }

  /** The component as it is mounted. */
  lemma MountedExactly()
    ensures MOUNTED.lock == Lock(-1, false, false, false) && MOUNTED.timers == Timers([], map[], 0)
    ensures MOUNTED.board == Board([], "", map[], map[], map[], map[], false)
    ensures MOUNTED.shell == Shell("audio", false, false, false, 0.0, [], false, [])
  {
  }

  /** Unmounting: the locks are off and no timer is left; the rest is as it was. */
  lemma UnmountingDoes(v: View)
    requires Inv(v)
    ensures Unmounted(v) == v.(timers := v.timers.(timeoutIds := [], armed := map[]),
                               lock := Lock(v.lock.scanStatus, v.lock.scanDelay, false, false))
  {
    ClearingClears(v.timers);
  }
}
