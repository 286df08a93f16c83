/**
 The logic of the AVCastPicker component of avpicker/avpicker.js: fields assigned by event handlers,
 some of them watched, with loops over the room list. Every handler is proved against its function
 in PickerSpec.
 */
module Picker {
  import opened PickerInvariants
  import opened PickerSpec

  // ---------- One turn of the loops over the room list ----------

  lemma LoopStart(flags: Flags)
    ensures forall value :: Filled(0, value) == map[]
    ensures forall task :: SelectedFlags([], task) == map[]
    ensures Volumes([]) == map[]
    ensures forall task :: MaxVolume([], task) == 0.0
  {
  }

  lemma FilledStep(flags: Flags, z: nat, value: bool)
    ensures flags + Filled(z + 1, value) == (flags + Filled(z, value))[z := value]
  {
  }

  lemma SelectedFlagsStep(flags: Flags, rooms: seq<Room>, z: nat, task: string)
    requires z < |rooms|
    ensures flags + SelectedFlags(rooms[..z + 1], task) ==
            (flags + SelectedFlags(rooms[..z], task))[z := Selected(rooms[z], task)]
  {
    hide Selected;
  }

  lemma VolumesStep(volumes: map<nat, real>, rooms: seq<Room>, z: nat)
    requires z < |rooms|
    ensures volumes + Volumes(rooms[..z + 1]) == (volumes + Volumes(rooms[..z]))[z := rooms[z].volume]
  {
  }

  lemma SelectedVolumesStep(volumes: map<nat, real>, rooms: seq<Room>, z: nat, task: string)
    requires z < |rooms|
    ensures volumes + SelectedVolumes(rooms[..z + 1], task) ==
            var before := volumes + SelectedVolumes(rooms[..z], task);
            if Selected(rooms[z], task) then before[z := rooms[z].volume] else before
  {
    hide Selected;
  }

  lemma MaxVolumeStep(rooms: seq<Room>, z: nat, task: string)
    requires z < |rooms|
    ensures MaxVolume(rooms[..z + 1], task) ==
            var before := MaxVolume(rooms[..z], task);
            if Selected(rooms[z], task) && before < rooms[z].volume then rooms[z].volume else before
  {
    hide Selected;
    assert rooms[..z + 1][..z] == rooms[..z];
  }

  class AVCastPicker {
    var roomListService: seq<Room>
    var playTaskIdStr: string
    var sessionType: string
    var isMenuShow: bool
    var isSubMenuExpanded: bool
    var scanStatus: int
    var scanDelay: bool
    var isAllCancel: bool
    var isSelectProcessing: bool
    var roomSelectStatusPending: Flags
    var roomVolumeVisible: Flags
    var roomIsSelect: Flags
    var roomCurrVolume: map<nat, real>
    var isAllSelecting: bool
    var houseMusicIsSelect: bool
    var roomMaxVolume: real
    var isSelectRoomListService: seq<Room>
    var timeoutIds: seq<nat>
    /** The timer service: what setTimeout has started and is still to come. */
    var armed: map<nat, Timer>
    var nextTimer: nat
    /** Whether extensionProxy is set, and what it has been sent. */
    var hasProxy: bool
    var sent: seq<Sent>

    function LockNow(): Lock
      reads `scanStatus, `scanDelay, `isAllCancel, `isSelectProcessing
    {
      Lock(scanStatus, scanDelay, isAllCancel, isSelectProcessing)
    }

    function TimersNow(): Timers
      reads `timeoutIds, `armed, `nextTimer
    {
      Timers(timeoutIds, armed, nextTimer)
    }

    function BoardNow(): Board
      reads `roomListService, `playTaskIdStr, `roomSelectStatusPending, `roomVolumeVisible, `roomIsSelect
      reads `roomCurrVolume, `isAllSelecting
    {
      Board(roomListService, playTaskIdStr, roomSelectStatusPending, roomVolumeVisible, roomIsSelect, roomCurrVolume,
            isAllSelecting)
    }

    function ShellNow(): Shell
      reads `sessionType, `isMenuShow, `isSubMenuExpanded, `houseMusicIsSelect, `roomMaxVolume
      reads `isSelectRoomListService, `hasProxy, `sent
    {
      Shell(sessionType, isMenuShow, isSubMenuExpanded, houseMusicIsSelect, roomMaxVolume, isSelectRoomListService,
            hasProxy, sent)
    }

    function Now(): View
      reads this
    {
      View(LockNow(), TimersNow(), BoardNow(), ShellNow())
    }

    /** Construction and aboutToAppear. */
    constructor ()
      ensures Now() == MOUNTED
    {
      roomListService, playTaskIdStr, sessionType := [], "", "audio";
      isMenuShow, isSubMenuExpanded := false, false;
      scanStatus, scanDelay, isAllCancel, isSelectProcessing := -1, false, false, false;
      roomSelectStatusPending, roomVolumeVisible, roomIsSelect, roomCurrVolume := map[], map[], map[], map[];
      isAllSelecting, houseMusicIsSelect, roomMaxVolume, isSelectRoomListService := false, false, 0.0, [];
      timeoutIds, armed, nextTimer := [], map[], 0;
      hasProxy, sent := false, [];
    }

    // ---------- The proxy and the timer service ----------

    method SendOut(s: Sent)
      modifies `sent
      ensures ShellNow() == Send(old(ShellNow()), s)
    {
      if hasProxy {
        sent := sent + [s];
      }
    }

    method SetTimeout(timer: Timer)
      modifies `timeoutIds, `armed, `nextTimer
      ensures TimersNow() == Arm(old(TimersNow()), timer)
    {
      var id := nextTimer;
      armed := armed[id := timer];
      nextTimer := nextTimer + 1;
      timeoutIds := timeoutIds + [id];
    }

    method ClearTimer()
      modifies `timeoutIds, `armed
      ensures TimersNow() == ClearTimers(old(TimersNow()))
    {
      for i := 0 to |timeoutIds|
        invariant timeoutIds == old(timeoutIds)
        invariant armed == old(armed) - (set id | id in timeoutIds[..i])
      {
        armed := armed - {timeoutIds[i]};
      }
      assert timeoutIds[..|timeoutIds|] == timeoutIds;
      timeoutIds := [];
    }

    // ---------- The room list ----------

    predicate CheckRoomIsSelect(index: nat)
      requires index < |roomListService|
      reads this
    {
      Selected(roomListService[index], playTaskIdStr)
    }

    method SetHouseMusicIsSelect(on: bool)
      modifies `houseMusicIsSelect, `sent
      ensures ShellNow() ==
              SetHouseMusic(old(ShellNow()), on)
    {
      if houseMusicIsSelect != on {
        houseMusicIsSelect := on;
        SelectHomeMusicSysWatch();
      }
    }

    method SelectHomeMusicSysWatch()
      modifies `sent
      ensures ShellNow() == Send(old(ShellNow()), SelectHomeMusicSys(isMenuShow && houseMusicIsSelect))
    {
      SendOut(SelectHomeMusicSys(isMenuShow && houseMusicIsSelect));
    }

    method FindRoomMaxVolume() returns (max: real)
      ensures max == MaxVolume(roomListService, playTaskIdStr)
    {
      max := 0.0;
      for i := 0 to |roomListService|
        invariant max == MaxVolume(roomListService[..i], playTaskIdStr)
      {
        assert roomListService[..i + 1][..i] == roomListService[..i];
        if max < roomListService[i].volume && CheckRoomIsSelect(i) {
          max := roomListService[i].volume;
        }
      }
      assert roomListService[..|roomListService|] == roomListService;
    }

    method GetCurrIsAllSelectStatus() returns (all: bool)
      ensures all == AllSelected(roomListService, playTaskIdStr)
    {
      all := true;
      for i := 0 to |roomListService|
        invariant all <==> forall j :: 0 <= j < i ==> Selected(roomListService[j], playTaskIdStr)
      {
        if !CheckRoomIsSelect(i) {
          all := false;
        }
      }
      return all && |roomListService| > 0;
    }

    /** The greatest volume is worked out anew and reported. */
    method SyncRoomMaxVolume()
      modifies `roomMaxVolume, `sent
      ensures ShellNow() == SyncMaxVolume(old(ShellNow()), roomListService, playTaskIdStr)
    {
      hide MaxVolume;
      roomMaxVolume := FindRoomMaxVolume();
      RoomMaxVolumeChange();
    }

    /** What the loop of refreshRoomList assigns for one room. */
    method ShowRoom(z: nat)
      requires z < |roomListService|
      modifies `roomSelectStatusPending, `roomIsSelect, `roomCurrVolume, `roomVolumeVisible
      ensures roomSelectStatusPending ==
              if isAllCancel then old(roomSelectStatusPending) else old(roomSelectStatusPending)[z := false]
      ensures roomIsSelect == old(roomIsSelect)[z := CheckRoomIsSelect(z)]
      ensures roomVolumeVisible == old(roomVolumeVisible)[z := CheckRoomIsSelect(z)]
      ensures roomCurrVolume == old(roomCurrVolume)[z := roomListService[z].volume]
    {
      if !isAllCancel {
        roomSelectStatusPending := roomSelectStatusPending[z := false];
      }
      roomIsSelect := roomIsSelect[z := CheckRoomIsSelect(z)];
      roomCurrVolume := roomCurrVolume[z := roomListService[z].volume];
      roomVolumeVisible := roomVolumeVisible[z := roomIsSelect[z]];
    }

    /** The loop of refreshRoomList. */
    method ShowRooms() returns (all: bool, any: bool, max: real)
      modifies `roomSelectStatusPending, `roomIsSelect, `roomCurrVolume, `roomVolumeVisible
      ensures BoardNow() == BoardShown(old(BoardNow()), isAllCancel)
      ensures (all && |roomListService| > 0) == AllSelected(roomListService, playTaskIdStr)
      ensures any == AnySelected(roomListService, playTaskIdStr)
      ensures max == MaxVolume(roomListService, playTaskIdStr)
    {
      hide Selected, MaxVolume, Filled, SelectedFlags, Volumes;
      LoopStart(old(roomSelectStatusPending));
      all, any, max := true, false, 0.0;
      for z := 0 to |roomListService|
        invariant roomSelectStatusPending ==
                  if isAllCancel then old(roomSelectStatusPending) else old(roomSelectStatusPending) + Filled(z, false)
        invariant roomIsSelect == old(roomIsSelect) + SelectedFlags(roomListService[..z], playTaskIdStr)
        invariant roomVolumeVisible == old(roomVolumeVisible) + SelectedFlags(roomListService[..z], playTaskIdStr)
        invariant roomCurrVolume == old(roomCurrVolume) + Volumes(roomListService[..z])
        invariant all <==> forall j :: 0 <= j < z ==> Selected(roomListService[j], playTaskIdStr)
        invariant any <==> exists j :: 0 <= j < z && Selected(roomListService[j], playTaskIdStr)
        invariant max == MaxVolume(roomListService[..z], playTaskIdStr)
      {
        FilledStep(old(roomSelectStatusPending), z, false);
        SelectedFlagsStep(old(roomIsSelect), roomListService, z, playTaskIdStr);
        SelectedFlagsStep(old(roomVolumeVisible), roomListService, z, playTaskIdStr);
        VolumesStep(old(roomCurrVolume), roomListService, z);
        MaxVolumeStep(roomListService, z, playTaskIdStr);
        ShowRoom(z);
        if !roomIsSelect[z] {
          all := false;
        } else {
          any := true;
          if max < roomListService[z].volume {
            max := roomListService[z].volume;
          }
        }
      }
      assert roomListService[..|roomListService|] == roomListService;
    }

    /** The end of refreshRoomList: what the selection means for the rest of the component. */
    method ShowSelection(all: bool, any: bool, max: real)
      requires (all && |roomListService| > 0) == AllSelected(roomListService, playTaskIdStr)
      requires any == AnySelected(roomListService, playTaskIdStr) && max == MaxVolume(roomListService, playTaskIdStr)
      modifies `isSelectProcessing, `isAllSelecting, `houseMusicIsSelect, `roomMaxVolume, `sent
      ensures isSelectProcessing == (isAllCancel && old(isSelectProcessing))
      ensures isAllSelecting == AllSelected(roomListService, playTaskIdStr)
      ensures ShellNow() == ShellRefreshed(old(ShellNow()), roomListService, playTaskIdStr)
    {
      hide AnySelected, AllSelected, MaxVolume, Send, LockNow, BoardNow;
      if !isAllCancel {
        isSelectProcessing := false;
      }
      isAllSelecting := all && |roomListService| > 0;
      SetHouseMusicIsSelect(any && sessionType != "voice_call" && sessionType != "video_call");
      if any {
        roomMaxVolume := max;
        RoomMaxVolumeChange();
      }
    }

    method RefreshRoomList()
      modifies this
      ensures Now() == Refreshed(old(Now()))
    {
      hide AnySelected, AllSelected, MaxVolume, Selected, ShellRefreshed, ClearTimers, BoardShown, TimersNow, ShellNow;
      if !isAllCancel {
        ClearTimer();
      }
      var all, any, max := ShowRooms();
      ShowSelection(all, any, max);
    }

    method RoomMaxVolumeChange()
      modifies `sent
      ensures ShellNow() == Send(old(ShellNow()), MaxVolumeSync(roomMaxVolume))
    {
      SendOut(MaxVolumeSync(roomMaxVolume));
    }

    method RoomSelectStatusPendingInit()
      modifies `roomSelectStatusPending, `roomVolumeVisible, `isSelectProcessing
      ensures BoardNow() == BoardIdle(old(BoardNow())) && LockNow() == old(LockNow()).(isSelectProcessing := false)
    {
      hide Selected, Filled, SelectedFlags;
      LoopStart(roomSelectStatusPending);
      for b := 0 to |roomListService|
        invariant roomSelectStatusPending == old(roomSelectStatusPending) + Filled(b, false)
        invariant roomVolumeVisible == old(roomVolumeVisible) + SelectedFlags(roomListService[..b], playTaskIdStr)
        invariant isSelectProcessing == old(isSelectProcessing)
      {
        FilledStep(old(roomSelectStatusPending), b, false);
        SelectedFlagsStep(old(roomVolumeVisible), roomListService, b, playTaskIdStr);
        roomSelectStatusPending := roomSelectStatusPending[b := false];
        roomVolumeVisible := roomVolumeVisible[b := CheckRoomIsSelect(b)];
      }
      assert roomListService[..|roomListService|] == roomListService;
      isSelectProcessing := false;
    }

    method HideRoom(a: nat)
      modifies `roomVolumeVisible
      ensures roomVolumeVisible == old(roomVolumeVisible)[a := false]
    {
      if !(a in roomVolumeVisible && !roomVolumeVisible[a]) {
        roomVolumeVisible := roomVolumeVisible[a := false];
      }
    }

    method SetAllRoomSelectStatusPending()
      modifies `roomSelectStatusPending, `roomVolumeVisible, `isSelectProcessing
      ensures BoardNow() == BoardPending(old(BoardNow())) && LockNow() == old(LockNow()).(isSelectProcessing := true)
    {
      isSelectProcessing := true;
      hide Filled;
      LoopStart(roomSelectStatusPending);
      for a := 0 to |roomListService|
        invariant roomSelectStatusPending == old(roomSelectStatusPending) + Filled(a, true)
        invariant roomVolumeVisible == old(roomVolumeVisible) + Filled(a, false)
        invariant isSelectProcessing
      {
        FilledStep(old(roomSelectStatusPending), a, true);
        FilledStep(old(roomVolumeVisible), a, false);
        roomSelectStatusPending := roomSelectStatusPending[a := true];
        HideRoom(a);
      }
    }

    // ---------- The watches of scanStatus and scanDelay ----------

    method SetScanDelayTo(on: bool)
      modifies `scanDelay, `isAllCancel, `isSelectProcessing, `roomSelectStatusPending, `roomVolumeVisible
      ensures Now() == SetScanDelay(old(Now()), on)
      decreases on, 1
    {
      if scanDelay != on {
        scanDelay := on;
        ScanDelayWatch();
      }
    }

    method ScanDelayWatch()
      modifies `scanDelay, `isAllCancel, `isSelectProcessing, `roomSelectStatusPending, `roomVolumeVisible
      ensures Now() == ScanDelayChange(old(Now()))
      decreases scanDelay, 0
    {
      if scanStatus != 0 && scanDelay {
        RoomSelectStatusPendingInit();
        isAllCancel := false;
        SetScanDelayTo(false);
      }
    }

    method HomeMusicScanStatusChange()
      modifies this
      ensures Now() == ScanStatusChange(old(Now()))
    {
      hide TimersNow, BoardNow, ShellNow, Send, Arm, BoardPending, BoardIdle, ClearTimers;
      if scanStatus == 0 {
        ClearTimer();
        SetAllRoomSelectStatusPending();
        isAllCancel := true;
        SetScanDelayTo(false);
        SetTimeout(ScanTimer);
        SendOut(GetHomeMusicInfo);
      } else {
        ScanDelayWatch();
      }
    }

    // ---------- Messages ----------

    method RefreshHomeMusicSelectStatus()
      modifies `houseMusicIsSelect, `sent
      ensures ShellNow() ==
              SetHouseMusic(old(ShellNow()), !InCall(sessionType) && PlaysTask(roomListService, playTaskIdStr))
    {
      if sessionType == "voice_call" || sessionType == "video_call" {
        SetHouseMusicIsSelect(false);
        return;
      }
      for e := 0 to |roomListService|
        invariant playTaskIdStr == "" || forall j :: 0 <= j < e ==> roomListService[j].playTask != playTaskIdStr
        invariant ShellNow() == old(ShellNow())
      {
        if roomListService[e].playTask == playTaskIdStr && playTaskIdStr != "" {
          SetHouseMusicIsSelect(true);
          return;
        }
      }
      SetHouseMusicIsSelect(false);
    }

    method MenuStateWatch()
      modifies `sent
      ensures ShellNow() == MenuStateChange(old(ShellNow()))
    {
      if hasProxy {
        SendOut(MenuShow(isMenuShow));
        SendOut(SubMenuExpanded(isSubMenuExpanded));
        SendOut(SelectHomeMusicSys(isMenuShow && houseMusicIsSelect));
      }
    }

    method SyncToRoomVolume(key: int)
      modifies `roomListService, `roomCurrVolume
      ensures roomListService == KeyedRooms(old(roomListService), playTaskIdStr, key)
      ensures roomCurrVolume == old(roomCurrVolume) + SelectedVolumes(roomListService, playTaskIdStr)
    {
      ghost var start := roomListService;
      for k := 0 to |roomListService|
        invariant |roomListService| == |start|
        invariant forall j :: 0 <= j < k ==> roomListService[j] == KeyedRoom(start[j], playTaskIdStr, key)
        invariant forall j :: k <= j < |start| ==> roomListService[j] == start[j]
        invariant roomCurrVolume == old(roomCurrVolume) + SelectedVolumes(roomListService[..k], playTaskIdStr)
      {
        ghost var before := roomListService[..k];
        ghost var current := roomListService[k];
        if CheckRoomIsSelect(k) {
          var level := Round(roomListService[k].volume * 3.0 / 2.0 / 10.0);
          var m := if key == KEYCODE_VOLUME_UP then level + 1 else level - 1;
          if m <= 0 {
            m := 0;
          } else if m < 1 {
            m := 1;
          } else if m >= 15 {
            m := 15;
          } else if m > 14 {
            m := 14;
          }
          var volume := Round(m as real * 10.0 * 2.0 / 3.0) as real;
          roomListService := roomListService[k := roomListService[k].(volume := volume)];
          roomCurrVolume := roomCurrVolume[k := volume];
        }
        assert roomListService[..k] == before;
        assert roomListService[k] == KeyedRoom(current, playTaskIdStr, key);
        SelectedVolumesStep(old(roomCurrVolume), roomListService, k, playTaskIdStr);
      }
      assert roomListService[..|roomListService|] == roomListService;
    }

    method SendAllRoomVolumeToController()
      modifies `roomListService, `sent
      ensures roomListService == if hasProxy then Numbered(old(roomListService)) else old(roomListService)
      ensures sent == if hasProxy then old(sent) + VolumeChanges(roomListService) else old(sent)
    {
      if hasProxy {
        ghost var start := roomListService;
        for h := 0 to |roomListService|
          invariant |roomListService| == |start|
          invariant forall j :: 0 <= j < h ==> roomListService[j] == start[j].(description := j + 1)
          invariant forall j :: h <= j < |start| ==> roomListService[j] == start[j]
          invariant sent == old(sent) + VolumeChanges(roomListService[..h])
        {
          ghost var before := roomListService[..h];
          roomListService := roomListService[h := roomListService[h].(description := h + 1)];
          assert roomListService[..h] == before;
          assert VolumeChanges(roomListService[..h + 1]) ==
                 VolumeChanges(before) + [RoomVolumeChange(roomListService[h])];
          SendOut(RoomVolumeChange(roomListService[h]));
        }
        assert roomListService[..|roomListService|] == roomListService;
      }
    }

    method KeyInputEven(key: int)
      modifies `roomListService, `roomCurrVolume, `roomMaxVolume, `sent
      ensures Now() == OnKey(old(Now()), key)
    {
      hide KeyedRooms, Numbered, VolumeChanges, SelectedVolumes, SyncMaxVolume, LockNow, TimersNow;
      SyncToRoomVolume(key);
      SendAllRoomVolumeToController();
      SyncRoomMaxVolume();
    }

    // ---------- Clicks ----------

    method GetCurrSelectRoom(index: nat, wanted: bool)
      modifies `isSelectRoomListService
      ensures isSelectRoomListService == Chosen(roomListService, playTaskIdStr, index, wanted)
    {
      isSelectRoomListService := [];
      for f := 0 to |roomListService|
        invariant isSelectRoomListService == Chosen(roomListService[..f], playTaskIdStr, index, wanted)
      {
        assert roomListService[..f + 1][..f] == roomListService[..f];
        if f == index {
          if wanted {
            isSelectRoomListService := isSelectRoomListService + [roomListService[index]];
          }
        } else if CheckRoomIsSelect(f) {
          isSelectRoomListService := isSelectRoomListService + [roomListService[f]];
        }
      }
      assert roomListService[..|roomListService|] == roomListService;
    }

    /** The end of a click on one room: the choice is worked out and sent. */
    method SendSelectRoom(index: nat, wanted: bool)
      modifies `isSelectRoomListService, `sent
      ensures var chosen := Chosen(roomListService, playTaskIdStr, index, wanted);
              ShellNow() == Send(old(ShellNow()).(selectRooms := chosen),
                                 RoomSelectChange(if chosen != [] then chosen else [NULL_ROOM]))
    {
      hide Chosen;
      GetCurrSelectRoom(index, wanted);
      if |isSelectRoomListService| > 0 {
        SendOut(RoomSelectChange(isSelectRoomListService));
      } else {
        SendOut(RoomSelectChange([NULL_ROOM]));
      }
    }

    /** The click handler of a room's checkbox, and of its row once past the lock. */
    method CheckboxOnClick(index: nat)
      modifies this
      ensures Now() == OnCheckbox(old(Now()), index)
    {
      hide Chosen, Send, Arm, On, TimersNow, ShellNow;
      if index < |roomListService| && roomListService[index].faultCode != ZONE_ABNORMAL {
        roomSelectStatusPending := roomSelectStatusPending[index := true];
        isSelectProcessing := true;
        SetTimeout(ClickTimer);
        SendSelectRoom(index, !On(roomIsSelect, index));
      }
    }

    method RoomOnClick(index: nat)
      modifies this
      ensures Now() == OnRoom(old(Now()), index)
    {
      hide OnCheckbox;
      if isSelectProcessing {
        return;
      }
      CheckboxOnClick(index);
    }

    /** The start of a click on every room: all pending, until the click timer fires. */
    method PendAll()
      modifies `roomSelectStatusPending, `roomVolumeVisible, `isSelectProcessing, `timeoutIds, `armed, `nextTimer
      ensures LockNow() == old(LockNow()).(isSelectProcessing := true)
      ensures TimersNow() == Arm(old(TimersNow()), ClickTimer)
      ensures BoardNow() == BoardPending(old(BoardNow()))
    {
      hide Arm, BoardPending;
      SetAllRoomSelectStatusPending();
      SetTimeout(ClickTimer);
    }

    method AllSelectOnClickEven()
      modifies this
      ensures Now() == OnAllSelect(old(Now()))
    {
      hide AllSelected, Send, Arm, BoardPending, TimersNow, ShellNow;
      if isSelectProcessing {
        return;
      }
      PendAll();
      var all := GetCurrIsAllSelectStatus();
      if !all {
        SendOut(RoomSelectChange(roomListService));
        SendOut(RoomIsSelectAll(true));
      } else {
        SendOut(RoomSelectChange([NULL_ROOM]));
        SendOut(RoomIsSelectAll(false));
      }
    }

    method DeviceOnClick(connected: bool)
      modifies this
      ensures Now() == OnDevice(old(Now()), connected)
    {
      hide Arm, BoardPending;
      if hasProxy && houseMusicIsSelect {
        PendAll();
        SendOut(RoomSelectChange([NULL_ROOM]));
      }
      if hasProxy && !connected {
        SendOut(SelectedDeviceInfo);
      }
    }

    /** onSliderValueChange at the end of a movement. */
    method ReportSlider(index: nat)
      requires index < |roomListService|
      modifies `roomListService, `roomMaxVolume, `sent
      ensures BoardNow() == old(BoardNow()).(
                rooms := old(roomListService)[index := old(roomListService)[index].(description := index + 1)])
      ensures ShellNow() == SyncMaxVolume(Send(old(ShellNow()), RoomVolumeChange(roomListService[index])),
                                          roomListService, playTaskIdStr)
    {
      hide SyncMaxVolume, Send;
      roomListService := roomListService[index := roomListService[index].(description := index + 1)];
      SendOut(RoomVolumeChange(roomListService[index]));
      SyncRoomMaxVolume();
    }

    method SliderOnChange(index: nat, value: real, ended: bool)
      modifies this
      ensures Now() == OnSlider(old(Now()), index, value, ended)
    {
      hide MaxVolume, SyncMaxVolume, Send, LockNow, TimersNow;
      if index < |roomListService| {
        roomListService := roomListService[index := roomListService[index].(volume := value)];
        roomCurrVolume := roomCurrVolume[index := value];
        if ended && hasProxy {
          ReportSlider(index);
          assert roomListService == old(roomListService)[index := roomListService[index]];
        }
      }
    }

    // ---------- Events ----------

    method TimerFired(id: nat)
      modifies this
      ensures Now() == Fired(old(Now()), id)
    {
      if id in armed {
        var timer := armed[id];
        armed := armed - {id};
        match timer {
          case ScanTimer => SetScanDelayTo(true);
          case ClickTimer => RoomSelectStatusPendingInit();
        }
      }
    }

    method HandleMenu(e: Event)
      requires e.MenuShown? || e.SubMenu?
      modifies `isMenuShow, `isSubMenuExpanded, `sent
      ensures Now() == Step(old(Now()), e)
    {
      hide MenuStateChange, LockNow, TimersNow, BoardNow;
      match e {
        case MenuShown(on) =>
          if isMenuShow != on {
            isMenuShow := on;
            MenuStateWatch();
          }
        case SubMenu(on) =>
          if isSubMenuExpanded != on {
            isSubMenuExpanded := on;
            MenuStateWatch();
          }
      }
    }

    /** onRemoteReady. */
    method NoteProxy()
      modifies `hasProxy
      ensures ShellNow() == old(ShellNow()).(hasProxy := true)
    {
      hasProxy := true;
    }

    method HandleSessionType(t: string)
      modifies `sessionType, `houseMusicIsSelect, `sent
      ensures Now() == OnSessionType(old(Now()), t)
    {
      hide SetHouseMusic, LockNow, TimersNow, PlaysTask, InCall;
      sessionType := t;
      RefreshHomeMusicSelectStatus();
    }

    /** Messages run in the order of the events; a message with several fields is several events. */
    method Handle(e: Event)
      modifies this
      ensures Now() == Step(old(Now()), e)
    {
      hide Refreshed, ScanStatusChange, Fired, OnCheckbox, OnRoom, OnAllSelect, OnDevice, OnKey, OnSlider,
           OnSessionType, OnMenuShow, OnSubMenuExpanded, TimersNow, ShellNow;
      match e {
        case RoomList(rooms) =>
          roomListService := rooms;
          RefreshRoomList();
        case PlayTask(task) =>
          if playTaskIdStr != task {
            playTaskIdStr := task;
            RefreshRoomList();
          }
        case KeyInput(key) => KeyInputEven(key);
        case ScanStatus(status) =>
          if scanStatus != status {
            scanStatus := status;
            HomeMusicScanStatusChange();
          }
        case RoomClick(index) => RoomOnClick(index);
        case CheckboxClick(index) => CheckboxOnClick(index);
        case AllSelectClick => AllSelectOnClickEven();
        case DeviceClick(connected) => DeviceOnClick(connected);
        case SliderMove(index, value, ended) => SliderOnChange(index, value, ended);
        case TimerFires(id) => TimerFired(id);
        case SessionType(t) => HandleSessionType(t);
        case RemoteReady => NoteProxy();
        case _ => HandleMenu(e);
      }
    }

    method AboutToDisappear()
      modifies this
      ensures Now() == Unmounted(old(Now()))
    {
      ClearTimer();
      isSelectProcessing := false;
      isAllCancel := false;
    }
  }

  /** The component itself keeps the invariant in every run. */
  method Live(events: seq<Event>) returns (picker: AVCastPicker)
    ensures fresh(picker) && picker.Now() == Run(MOUNTED, events) && Inv(picker.Now())
  {
    hide Step;
    picker := new AVCastPicker();
    for i := 0 to |events|
      invariant fresh(picker) && picker.Now() == Run(MOUNTED, events[..i])
    {
      assert events[..i + 1][..i] == events[..i];
      picker.Handle(events[i]);
    }
    assert events[..|events|] == events;
    RunsKeep(events);
  }
}
