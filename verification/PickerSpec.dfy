/**
 The home-music room controller of avpicker/avpicker.js: what each of its handlers does to the
 component, as functions on a snapshot of the component's fields.

 Timers live outside the component: `armed` holds the timeouts that have been set and have neither
 fired nor been cleared. Everything handed to the extension proxy is appended to `sent`.
 */
module PickerSpec {
  const ZONE_ABNORMAL := 1
  const KEYCODE_VOLUME_UP := 16

  datatype Room = Room(roomId: string, playTask: string, volume: real, faultCode: int, description: int)

  /** The one entry of createNullRoomService. */
  const NULL_ROOM := Room("", "", 0.0, 0, 0)

  datatype Timer = ScanTimer | ClickTimer

  datatype Sent =
    | MenuShow(on: bool)
    | SubMenuExpanded(on: bool)
    | SelectHomeMusicSys(on: bool)
    | GetHomeMusicInfo
    | MaxVolumeSync(volume: real)
    | RoomSelectChange(rooms: seq<Room>)
    | RoomIsSelectAll(on: bool)
    | RoomVolumeChange(room: Room)
    | SelectedDeviceInfo

  /** A JavaScript array indexed by room; an index never assigned reads as undefined, which is falsy. */
  type Flags = map<nat, bool>

  predicate On(flags: Flags, i: nat) { i in flags && flags[i] }

  /** The first n entries assigned in a loop. */
  function Filled(n: nat, value: bool): (flags: Flags)
    ensures forall i: nat :: i in flags <==> i < n
    ensures forall i :: i in flags ==> flags[i] == value
  {
    if n == 0 then map[] else Filled(n - 1, value)[n - 1 := value]
  }

  /** The lock flags. */
  datatype Lock = Lock(scanStatus: int, scanDelay: bool, isAllCancel: bool, isSelectProcessing: bool)

  /** The timeouts: the ids the component remembers, and those still to come. */
  datatype Timers = Timers(timeoutIds: seq<nat>, armed: map<nat, Timer>, next: nat)

  /** The room list and what is shown of it, room by room. */
  datatype Board = Board(rooms: seq<Room>, playTaskId: string, pending: Flags, visible: Flags, roomIsSelect: Flags,
                         currVolume: map<nat, real>, isAllSelecting: bool)

  /** The rest of the component, and what it has sent. */
  datatype Shell = Shell(sessionType: string, menuShown: bool, subMenuExpanded: bool, houseMusicIsSelect: bool,
                         roomMaxVolume: real, selectRooms: seq<Room>, hasProxy: bool, sent: seq<Sent>)

  datatype View = View(lock: Lock, timers: Timers, board: Board, shell: Shell)

  const MOUNTED := View(Lock(-1, false, false, false), Timers([], map[], 0),
                        Board([], "", map[], map[], map[], map[], false),
                        Shell("audio", false, false, false, 0.0, [], false, []))

  // ---------- The selection, read off the room list ----------

  predicate Selected(room: Room, task: string) {
    room.playTask == task && task != "" && room.faultCode != ZONE_ABNORMAL
  }

  predicate AnySelected(rooms: seq<Room>, task: string) {
    exists i :: 0 <= i < |rooms| && Selected(rooms[i], task)
  }

  predicate AllSelected(rooms: seq<Room>, task: string) {
    rooms != [] && forall i :: 0 <= i < |rooms| ==> Selected(rooms[i], task)
  }

  function SelectedFlags(rooms: seq<Room>, task: string): Flags {
    map i: nat | 0 <= i < |rooms| :: Selected(rooms[i], task)
  }

  /** The greatest volume of a selected room, and 0 when no selected room has a positive one. */
  function MaxVolume(rooms: seq<Room>, task: string): real {
    if rooms == [] then 0.0 else
    var last, rest := rooms[|rooms| - 1], MaxVolume(rooms[..|rooms| - 1], task);
    if Selected(last, task) && rest < last.volume then last.volume else rest
  }

  /** The rooms a click on room `index` asks for: the selected ones, with `index` put in or left out. */
  function Chosen(rooms: seq<Room>, task: string, index: nat, wanted: bool): seq<Room> {
    if rooms == [] then [] else
    var n := |rooms| - 1;
    Chosen(rooms[..n], task, index, wanted) +
    (if (if n == index then wanted else Selected(rooms[n], task)) then [rooms[n]] else [])
  }

  predicate InCall(sessionType: string) { sessionType == "voice_call" || sessionType == "video_call" }

  // ---------- Sending, timers, watched properties ----------

  function Send(h: Shell, s: Sent): Shell {
    h.(sent := if h.hasProxy then h.sent + [s] else h.sent)
  }

  function ClearTimers(t: Timers): Timers {
    t.(armed := t.armed - (set id | id in t.timeoutIds), timeoutIds := [])
  }

  function Arm(t: Timers, timer: Timer): Timers {
    Timers(t.timeoutIds + [t.next], t.armed[t.next := timer], t.next + 1)
  }

  /** Assigning houseMusicIsSelect runs its watch when the value changes. */
  function SetHouseMusic(h: Shell, on: bool): Shell {
    if h.houseMusicIsSelect == on then h else
    Send(h.(houseMusicIsSelect := on), SelectHomeMusicSys(h.menuShown && on))
  }

  function SyncMaxVolume(h: Shell, rooms: seq<Room>, task: string): Shell {
    var volume := MaxVolume(rooms, task);
    Send(h.(roomMaxVolume := volume), MaxVolumeSync(volume))
  }

  // ---------- The room list and the locks ----------

  function BoardIdle(b: Board): Board {
    b.(pending := b.pending + Filled(|b.rooms|, false), visible := b.visible + SelectedFlags(b.rooms, b.playTaskId))
  }

  function BoardPending(b: Board): Board {
    b.(pending := b.pending + Filled(|b.rooms|, true), visible := b.visible + Filled(|b.rooms|, false))
  }

  function Volumes(rooms: seq<Room>): map<nat, real> {
    map i: nat | 0 <= i < |rooms| :: rooms[i].volume
  }

  /** What the loop of refreshRoomList shows; a scan lock leaves the pending flags alone. */
  function BoardShown(b: Board, isAllCancel: bool): Board {
    var flags := SelectedFlags(b.rooms, b.playTaskId);
    b.(pending := if isAllCancel then b.pending else b.pending + Filled(|b.rooms|, false),
       visible := b.visible + flags,
       roomIsSelect := b.roomIsSelect + flags,
       currVolume := b.currVolume + Volumes(b.rooms))
  }

  function ShellRefreshed(h: Shell, rooms: seq<Room>, task: string): Shell {
    var any := AnySelected(rooms, task);
    var h := SetHouseMusic(h, any && !InCall(h.sessionType));
    if any then SyncMaxVolume(h, rooms, task) else h
  }

  function Refreshed(v: View): View {
    var held := v.lock.isAllCancel;
    View(v.lock.(isSelectProcessing := held && v.lock.isSelectProcessing),
         if held then v.timers else ClearTimers(v.timers),
         BoardShown(v.board, held).(isAllSelecting := AllSelected(v.board.rooms, v.board.playTaskId)),
         ShellRefreshed(v.shell, v.board.rooms, v.board.playTaskId))
  }

  function PendingInit(v: View): View {
    v.(board := BoardIdle(v.board), lock := v.lock.(isSelectProcessing := false))
  }

  /** The watch of scanDelay; assigning false inside it runs it once more, to no effect. */
  function ScanDelayChange(v: View): View {
    if v.lock.scanStatus != 0 && v.lock.scanDelay then
      v.(board := BoardIdle(v.board), lock := Lock(v.lock.scanStatus, false, false, false))
    else
      v
  }

  function SetScanDelay(v: View, on: bool): View {
    if v.lock.scanDelay == on then v else ScanDelayChange(v.(lock := v.lock.(scanDelay := on)))
  }

  /** The watch of scanStatus. */
  function ScanStatusChange(v: View): View {
    if v.lock.scanStatus == 0 then
      View(Lock(0, false, true, true), Arm(ClearTimers(v.timers), ScanTimer), BoardPending(v.board),
           Send(v.shell, GetHomeMusicInfo))
    else
      ScanDelayChange(v)
  }

  // ---------- Messages from the extension ----------

  predicate PlaysTask(rooms: seq<Room>, task: string) {
    task != "" && exists i :: 0 <= i < |rooms| && rooms[i].playTask == task
  }

  function OnSessionType(v: View, sessionType: string): View {
    var playing := !InCall(sessionType) && PlaysTask(v.board.rooms, v.board.playTaskId);
    v.(shell := SetHouseMusic(v.shell.(sessionType := sessionType), playing))
  }

  /** The watch MenuStateChange of both menu flags. */
  function MenuStateChange(h: Shell): Shell {
    Send(Send(Send(h, MenuShow(h.menuShown)), SubMenuExpanded(h.subMenuExpanded)),
         SelectHomeMusicSys(h.menuShown && h.houseMusicIsSelect))
  }

  function OnMenuShow(v: View, on: bool): View {
    if v.shell.menuShown == on then v else v.(shell := MenuStateChange(v.shell.(menuShown := on)))
  }

  function OnSubMenuExpanded(v: View, on: bool): View {
    if v.shell.subMenuExpanded == on then v else v.(shell := MenuStateChange(v.shell.(subMenuExpanded := on)))
  }

  function OnRoomList(v: View, rooms: seq<Room>): View {
    Refreshed(v.(board := v.board.(rooms := rooms)))
  }

  function OnPlayTask(v: View, task: string): View {
    if v.board.playTaskId == task then v else Refreshed(v.(board := v.board.(playTaskId := task)))
  }

  function OnScanStatus(v: View, status: int): View {
    if v.lock.scanStatus == status then v else ScanStatusChange(v.(lock := v.lock.(scanStatus := status)))
  }

  // ---------- Volume keys ----------

  /** Math.round. */
  function Round(x: real): int { (x + 0.5).Floor }

  /** The level 0..15 a volume is shown at. */
  function Level(volume: real): int { Round(volume * 3.0 / 2.0 / 10.0) }

  function LevelVolume(level: int): real { Round(level as real * 10.0 * 2.0 / 3.0) as real }

  /** The branches of syncToRoomVolume on the level after a key. */
  function Clamped(m: int): int {
    if m <= 0 then 0
    else if m < 1 then 1
    else if m >= 15 then 15
    else if m > 14 then 14
    else m
  }

  function KeyedVolume(volume: real, key: int): real {
    LevelVolume(Clamped(if key == KEYCODE_VOLUME_UP then Level(volume) + 1 else Level(volume) - 1))
  }

  function KeyedRoom(room: Room, task: string, key: int): Room {
    if Selected(room, task) then room.(volume := KeyedVolume(room.volume, key)) else room
  }

  function KeyedRooms(rooms: seq<Room>, task: string, key: int): seq<Room> {
    seq(|rooms|, i requires 0 <= i < |rooms| => KeyedRoom(rooms[i], task, key))
  }

  function Numbered(rooms: seq<Room>): seq<Room> {
    seq(|rooms|, i requires 0 <= i < |rooms| => rooms[i].(description := i + 1))
  }

  function VolumeChanges(rooms: seq<Room>): seq<Sent> {
    seq(|rooms|, i requires 0 <= i < |rooms| => RoomVolumeChange(rooms[i]))
  }

  function SelectedVolumes(rooms: seq<Room>, task: string): map<nat, real> {
    map i: nat | 0 <= i < |rooms| && Selected(rooms[i], task) :: rooms[i].volume
  }

  function OnKey(v: View, key: int): View {
    var b := v.board;
    var keyed := KeyedRooms(b.rooms, b.playTaskId, key);
    var rooms := if v.shell.hasProxy then Numbered(keyed) else keyed;
    var board := b.(rooms := rooms, currVolume := b.currVolume + SelectedVolumes(keyed, b.playTaskId));
    var sent := if v.shell.hasProxy then v.shell.sent + VolumeChanges(rooms) else v.shell.sent;
    v.(board := board, shell := SyncMaxVolume(v.shell.(sent := sent), rooms, b.playTaskId))
  }

  // ---------- Clicks and sliders ----------

  /** A disabled row ignores clicks. */
  predicate Clickable(rooms: seq<Room>, index: nat) {
    index < |rooms| && rooms[index].faultCode != ZONE_ABNORMAL
  }

  function OnCheckbox(v: View, index: nat): View {
    if !Clickable(v.board.rooms, index) then v else
    var chosen := Chosen(v.board.rooms, v.board.playTaskId, index, !On(v.board.roomIsSelect, index));
    View(v.lock.(isSelectProcessing := true),
         Arm(v.timers, ClickTimer),
         v.board.(pending := v.board.pending[index := true]),
         Send(v.shell.(selectRooms := chosen), RoomSelectChange(if chosen != [] then chosen else [NULL_ROOM])))
  }

  function OnRoom(v: View, index: nat): View {
    if v.lock.isSelectProcessing then v else OnCheckbox(v, index)
  }

  function OnAllSelect(v: View): View {
    if v.lock.isSelectProcessing then v else
    var all := AllSelected(v.board.rooms, v.board.playTaskId);
    View(v.lock.(isSelectProcessing := true), Arm(v.timers, ClickTimer), BoardPending(v.board),
         Send(Send(v.shell, RoomSelectChange(if all then [NULL_ROOM] else v.board.rooms)), RoomIsSelectAll(!all)))
  }

  function OnDevice(v: View, connected: bool): View {
    var v := if !v.shell.hasProxy || !v.shell.houseMusicIsSelect then v else
      View(v.lock.(isSelectProcessing := true), Arm(v.timers, ClickTimer), BoardPending(v.board),
           Send(v.shell, RoomSelectChange([NULL_ROOM])));
    if connected then v else v.(shell := Send(v.shell, SelectedDeviceInfo))
  }

  /** A slider moves; only the end of the movement is reported. */
  function OnSlider(v: View, index: nat, value: real, ended: bool): View {
    if index >= |v.board.rooms| then v else
    var reported := ended && v.shell.hasProxy;
    var room := v.board.rooms[index].(volume := value);
    var room := if reported then room.(description := index + 1) else room;
    var board := v.board.(rooms := v.board.rooms[index := room], currVolume := v.board.currVolume[index := value]);
    v.(board := board,
       shell := if reported then SyncMaxVolume(Send(v.shell, RoomVolumeChange(room)), board.rooms, board.playTaskId)
                else v.shell)
  }

  // ---------- Runs ----------

  datatype Event =
    | RemoteReady
    | SessionType(sessionType: string)
    | MenuShown(on: bool)
    | SubMenu(on: bool)
    | RoomList(rooms: seq<Room>)
    | PlayTask(task: string)
    | KeyInput(key: int)
    | ScanStatus(status: int)
    | RoomClick(index: nat)
    | CheckboxClick(index: nat)
    | AllSelectClick
    | DeviceClick(connected: bool)
    | SliderMove(index: nat, value: real, ended: bool)
    | TimerFires(id: nat)

  /** A timeout that is no longer armed cannot fire. */
  function Fired(v: View, id: nat): View {
    if id !in v.timers.armed then v else
    var w := v.(timers := v.timers.(armed := v.timers.armed - {id}));
    match v.timers.armed[id]
    case ScanTimer => SetScanDelay(w, true)
    case ClickTimer => PendingInit(w)
  }

  function Step(v: View, e: Event): View {
    match e
    case RemoteReady => v.(shell := v.shell.(hasProxy := true))
    case SessionType(sessionType) => OnSessionType(v, sessionType)
    case MenuShown(on) => OnMenuShow(v, on)
    case SubMenu(on) => OnSubMenuExpanded(v, on)
    case RoomList(rooms) => OnRoomList(v, rooms)
    case PlayTask(task) => OnPlayTask(v, task)
    case KeyInput(key) => OnKey(v, key)
    case ScanStatus(status) => OnScanStatus(v, status)
    case RoomClick(index) => OnRoom(v, index)
    case CheckboxClick(index) => OnCheckbox(v, index)
    case AllSelectClick => OnAllSelect(v)
    case DeviceClick(connected) => OnDevice(v, connected)
    case SliderMove(index, value, ended) => OnSlider(v, index, value, ended)
    case TimerFires(id) => Fired(v, id)
  }

  function Run(v: View, events: seq<Event>): View {
    if events == [] then v else Step(Run(v, events[..|events| - 1]), events[|events| - 1])
  }

  /** aboutToDisappear. */
  function Unmounted(v: View): View {
    v.(timers := ClearTimers(v.timers), lock := v.lock.(isSelectProcessing := false, isAllCancel := false))
  }
}
