/** The selection, its aggregates and the volume keys: what the handlers compute means. */
module PickerSelection {
  import opened PickerInvariants
  import opened PickerSpec

  // ---------- Aggregates ----------

  /** MaxVolume bounds every selected volume, is attained when positive, and is never negative. */
  lemma {:induction false} MaxVolumeIsGreatest(rooms: seq<Room>, task: string)
    ensures forall i :: 0 <= i < |rooms| && Selected(rooms[i], task) ==> rooms[i].volume <= MaxVolume(rooms, task)
    ensures 0.0 <= MaxVolume(rooms, task)
    ensures MaxVolume(rooms, task) != 0.0 ==>
              exists i :: 0 <= i < |rooms| && Selected(rooms[i], task) && rooms[i].volume == MaxVolume(rooms, task)
  {
    if rooms != [] {
      var n := |rooms| - 1;
      MaxVolumeIsGreatest(rooms[..n], task);
      assert forall i :: 0 <= i < n ==> rooms[..n][i] == rooms[i];
      if MaxVolume(rooms, task) != 0.0 && MaxVolume(rooms, task) == MaxVolume(rooms[..n], task) {
        var i :| 0 <= i < n && Selected(rooms[..n][i], task) && rooms[..n][i].volume == MaxVolume(rooms[..n], task);
        assert rooms[i].volume == MaxVolume(rooms, task);
      }
    }
  }

  /** After a refresh every aggregate of the component agrees with the room list. */
  lemma RefreshAgrees(v: View)
    ensures var r, rooms, task := Refreshed(v), v.board.rooms, v.board.playTaskId;
            && AggregatesAgree(r.board)
            && r.shell.houseMusicIsSelect == (AnySelected(rooms, task) && !InCall(v.shell.sessionType))
            && (AnySelected(rooms, task) ==> r.shell.roomMaxVolume == MaxVolume(rooms, task))
            && (forall i: nat :: i < |rooms| ==> On(r.board.visible, i) == Selected(rooms[i], task))
  {
    hide Selected, AnySelected, AllSelected, MaxVolume;
  }

  /**
   A session-type message decides houseMusicIsSelect without looking at faults. Its answer differs
   from that of a refresh exactly when, outside a call, only faulty rooms play the task.
   */
  lemma SessionTypeIgnoresFaults(v: View, sessionType: string)
    ensures var r, rooms, task := OnSessionType(v, sessionType), v.board.rooms, v.board.playTaskId;
            r.shell.houseMusicIsSelect != Refreshed(r).shell.houseMusicIsSelect <==>
            !InCall(sessionType) && PlaysTask(rooms, task) && !AnySelected(rooms, task)
  {
    hide MaxVolume;
    var rooms, task := v.board.rooms, v.board.playTaskId;
    if AnySelected(rooms, task) {
      var i :| 0 <= i < |rooms| && Selected(rooms[i], task);
      assert rooms[i].playTask == task;
    }
  }

  lemma RunOfThree(v: View, a: Event, b: Event, c: Event)
    ensures Run(v, [a, b, c]) == Step(Step(Step(v, a), b), c)
  {
    hide Step;
    assert [a, b, c][..2] == [a, b] && [a, b][..1] == [a] && [a][..0] == [];
    assert Run(v, []) == v;
    assert Run(v, [a]) == Step(v, a);
    assert Run(v, [a, b]) == Step(Step(v, a), b);
  }

  /** One faulty room plays the task: the session-type message "audio" selects house music, a refresh does not. */
  lemma AFaultyRoomIsTakenForSelected()
    ensures var faulty := Room("r", "t", 0.0, ZONE_ABNORMAL, 0);
            var r := Run(MOUNTED, [RoomList([faulty]), PlayTask("t"), SessionType("audio")]);
            r.shell.houseMusicIsSelect && !Refreshed(r).shell.houseMusicIsSelect
  {
    hide Run, ShellRefreshed, ClearTimers, SetHouseMusic, InCall, AnySelected, PlaysTask;
    var faulty := Room("r", "t", 0.0, ZONE_ABNORMAL, 0);
    RunOfThree(MOUNTED, RoomList([faulty]), PlayTask("t"), SessionType("audio"));
    var s := Step(Step(MOUNTED, RoomList([faulty])), PlayTask("t"));
    assert s.board.rooms == [faulty] && s.board.playTaskId == "t";
    OneFaultyRoom(s, faulty);
  }

  lemma OneFaultyRoom(s: View, faulty: Room)
    requires s.board.rooms == [faulty] && faulty.playTask == s.board.playTaskId == "t"
    requires faulty.faultCode == ZONE_ABNORMAL
    ensures var r := OnSessionType(s, "audio");
            r.shell.houseMusicIsSelect && !Refreshed(r).shell.houseMusicIsSelect
  {
    hide MaxVolume, BoardShown, ClearTimers;
    assert s.board.rooms[0] == faulty && PlaysTask(s.board.rooms, "t") && !InCall("audio");
    assert !AnySelected(s.board.rooms, "t");
    RefreshAgrees(OnSessionType(s, "audio"));
  }

  // ---------- The choice a click sends ----------

  /** The positions a click on `index` asks for, in list order. */
  function ChosenIndices(rooms: seq<Room>, task: string, index: nat): seq<nat> {
    if rooms == [] then [] else
    var n := |rooms| - 1;
    ChosenIndices(rooms[..n], task, index) + (if Selected(rooms[n], task) != (n == index) then [n] else [])
  }

  /** They are the symmetric difference of the selected positions and the clicked one ... */
  lemma {:induction false} ChosenIsSymmetricDifference(rooms: seq<Room>, task: string, index: nat, i: nat)
    ensures i in ChosenIndices(rooms, task, index) <==> i < |rooms| && Selected(rooms[i], task) != (i == index)
    decreases |rooms|
  {
    hide Selected;
    if rooms != [] {
      ChosenIsSymmetricDifference(rooms[..|rooms| - 1], task, index, i);
    }
  }

  predicate IncreasingBelow(positions: seq<nat>, bound: nat) {
    && (forall j :: 0 <= j < |positions| ==> positions[j] < bound)
    && (forall j, k :: 0 <= j < k < |positions| ==> positions[j] < positions[k])
  }

  /** ... each once and in list order. */
  lemma {:induction false} ChosenIsOrdered(rooms: seq<Room>, task: string, index: nat)
    ensures IncreasingBelow(ChosenIndices(rooms, task, index), |rooms|)
    decreases |rooms|
  {
    hide Selected;
    if rooms != [] {
      ChosenIsOrdered(rooms[..|rooms| - 1], task, index);
    }
  }

  /** The rooms sent are the rooms at those positions. */
  lemma {:induction false} ChosenAreTheRoomsThere(rooms: seq<Room>, task: string, index: nat, wanted: bool)
    requires index < |rooms| ==> wanted == !Selected(rooms[index], task)
    ensures var chosen := ChosenIndices(rooms, task, index);
            && |Chosen(rooms, task, index, wanted)| == |chosen|
            && forall j :: 0 <= j < |chosen| ==>
                 chosen[j] < |rooms| && Chosen(rooms, task, index, wanted)[j] == rooms[chosen[j]]
    decreases |rooms|
  {
    if rooms != [] {
      var n := |rooms| - 1;
      ChosenAreTheRoomsThere(rooms[..n], task, index, wanted);
    }
  }

  /** In a reachable state, an accepted click on a room sends exactly that choice, or the null room. */
  lemma RoomClickSendsTheDifference(v: View, index: nat)
    requires Inv(v) && v.shell.hasProxy && !v.lock.isSelectProcessing && Clickable(v.board.rooms, index)
    ensures var rooms, chosen := v.board.rooms, ChosenIndices(v.board.rooms, v.board.playTaskId, index);
            exists choice: seq<Room> ::
              && OnRoom(v, index).shell.sent ==
                 v.shell.sent + [RoomSelectChange(if choice == [] then [NULL_ROOM] else choice)]
              && |choice| == |chosen|
              && forall j :: 0 <= j < |chosen| ==> chosen[j] < |rooms| && choice[j] == rooms[chosen[j]]
  {
    var rooms, task := v.board.rooms, v.board.playTaskId;
    var wanted := !On(v.board.roomIsSelect, index);
    ChosenAreTheRoomsThere(rooms, task, index, wanted);
    var choice := Chosen(rooms, task, index, wanted);
    assert OnRoom(v, index).shell.sent ==
           v.shell.sent + [RoomSelectChange(if choice == [] then [NULL_ROOM] else choice)];
  }

  // ---------- Volume keys ----------

  function ClampedLevel(m: int): int { if m < 0 then 0 else if m > 15 then 15 else m }

  /** The six branches clamp to 0..15. */
  lemma BranchesClamp(m: int)
    ensures Clamped(m) == ClampedLevel(m)
  {
  }

  /** A level is recovered from the volume it is stored as, which lies in 0..100. */
  lemma LevelSurvivesRounding(m: int)
    requires 0 <= m <= 15
    ensures Level(LevelVolume(m)) == m
    ensures 0.0 <= LevelVolume(m) <= 100.0
  {
  }

  lemma LevelIsMonotone(x: real, y: real)
    requires x <= y
    ensures Level(x) <= Level(y)
    ensures 0.0 <= x && y <= 100.0 ==> 0 <= Level(x) && Level(y) <= 15
  {
  }

  lemma LevelVolumeIsMonotone(m: int, n: int)
    requires m <= n
    ensures LevelVolume(m) <= LevelVolume(n)
  {
  }

  function Direction(key: int): int { if key == KEYCODE_VOLUME_UP then 1 else -1 }

  /** One key moves the level by one inside 0..15, whatever the volume was. */
  lemma KeyMovesLevel(volume: real, key: int)
    ensures Level(KeyedVolume(volume, key)) == ClampedLevel(Level(volume) + Direction(key))
    ensures 0.0 <= KeyedVolume(volume, key) <= 100.0
  {
    var m := ClampedLevel(Level(volume) + Direction(key));
    BranchesClamp(Level(volume) + Direction(key));
    LevelSurvivesRounding(m);
  }

  /** Keys never put a quieter room above a louder one. */
  lemma KeysKeepOrder(x: real, y: real, key: int)
    requires x <= y
    ensures KeyedVolume(x, key) <= KeyedVolume(y, key)
  {
    LevelIsMonotone(x, y);
    BranchesClamp(Level(x) + Direction(key));
    BranchesClamp(Level(y) + Direction(key));
    LevelVolumeIsMonotone(ClampedLevel(Level(x) + Direction(key)), ClampedLevel(Level(y) + Direction(key)));
  }

  /** The room list after a sequence of keys. */
  function AfterKeys(rooms: seq<Room>, task: string, keys: seq<int>): (r: seq<Room>)
    ensures |r| == |rooms|
    decreases |keys|
  {
    if keys == [] then rooms else KeyedRooms(AfterKeys(rooms, task, keys[..|keys| - 1]), task, keys[|keys| - 1])
  }

  /** A counter clamped to 0..15 at every step. */
  function Counter(level: int, keys: seq<int>): int
    decreases |keys|
  {
    if keys == [] then level else ClampedLevel(Counter(level, keys[..|keys| - 1]) + Direction(keys[|keys| - 1]))
  }

  /** Any sequence of keys acts on a selected room as that counter and leaves the others alone. */
  lemma {:induction false} KeysAreACounter(rooms: seq<Room>, task: string, keys: seq<int>, i: nat)
    requires i < |rooms|
    ensures var r := AfterKeys(rooms, task, keys)[i];
            && r == rooms[i].(volume := r.volume)
            && (Selected(rooms[i], task) ==> Level(r.volume) == Counter(Level(rooms[i].volume), keys))
            && (Selected(rooms[i], task) && keys != [] ==> 0.0 <= r.volume <= 100.0)
            && (!Selected(rooms[i], task) ==> r == rooms[i])
    decreases |keys|
  {
    hide Level, KeyedVolume;
    if keys != [] {
      var init, key := keys[..|keys| - 1], keys[|keys| - 1];
      KeysAreACounter(rooms, task, init, i);
      KeyMovesLevel(AfterKeys(rooms, task, init)[i].volume, key);
    }
  }

  lemma {:induction false} KeysKeepRoomOrder(rooms: seq<Room>, task: string, keys: seq<int>, i: nat, j: nat)
    requires i < |rooms| && j < |rooms| && Selected(rooms[i], task) && Selected(rooms[j], task)
    requires rooms[i].volume <= rooms[j].volume
    ensures AfterKeys(rooms, task, keys)[i].volume <= AfterKeys(rooms, task, keys)[j].volume
    decreases |keys|
  {
    hide Level, KeyedVolume;
    if keys != [] {
      var init := keys[..|keys| - 1];
      KeysKeepRoomOrder(rooms, task, init, i, j);
      KeysAreACounter(rooms, task, init, i);
      KeysAreACounter(rooms, task, init, j);
      KeysKeepOrder(AfterKeys(rooms, task, init)[i].volume, AfterKeys(rooms, task, init)[j].volume, keys[|keys| - 1]);
    }
  }

  /** k presses of volume up from any level give that level plus k, up to 15. */
  lemma {:induction false} UpsSaturate(level: int, keys: seq<int>)
    requires 0 <= level <= 15 && forall k :: 0 <= k < |keys| ==> keys[k] == KEYCODE_VOLUME_UP
    ensures Counter(level, keys) == ClampedLevel(level + |keys|)
    decreases |keys|
  {
    if keys != [] {
      UpsSaturate(level, keys[..|keys| - 1]);
    }
  }

  /** The key handler applies exactly this step to the list, apart from the numbering it sends. */
  lemma OnKeyStepsTheList(v: View, key: int, i: nat)
    requires i < |v.board.rooms|
    ensures |OnKey(v, key).board.rooms| == |v.board.rooms|
    ensures var r := OnKey(v, key).board.rooms[i];
            r == AfterKeys(v.board.rooms, v.board.playTaskId, [key])[i].(description := r.description)
  {
    hide KeyedVolume, SyncMaxVolume;
    assert AfterKeys(v.board.rooms, v.board.playTaskId, [key][..0]) == v.board.rooms;
  }

  // ---------- Runs of key messages ----------

  function KeyEvents(keys: seq<int>): (events: seq<Event>)
    ensures |events| == |keys|
  {
    seq(|keys|, i requires 0 <= i < |keys| => KeyInput(keys[i]))
  }

  /** Two rooms that differ at most in the number sent with them. */
  predicate SameButNumber(a: Room, b: Room) { a == b.(description := a.description) }

  lemma OneKeySameButNumber(a: Room, b: Room, task: string, key: int)
    requires SameButNumber(a, b)
    ensures SameButNumber(KeyedRoom(a, task, key), KeyedRoom(b, task, key))
  {
    hide KeyedVolume;
  }

  lemma OneKeyOnList(v: View, key: int, i: nat)
    requires i < |v.board.rooms|
    ensures var r := OnKey(v, key).board;
            |r.rooms| == |v.board.rooms| && r.playTaskId == v.board.playTaskId
            && SameButNumber(r.rooms[i], KeyedRoom(v.board.rooms[i], v.board.playTaskId, key))
  {
    hide KeyedRoom, SyncMaxVolume;
  }

  /** A run of key messages does to the component's list what the keys do to it, apart from the numbers sent. */
  lemma {:induction false} KeyRunStepsTheList(v: View, keys: seq<int>, i: nat)
    requires i < |v.board.rooms|
    ensures var b := Run(v, KeyEvents(keys)).board;
            |b.rooms| == |v.board.rooms| && b.playTaskId == v.board.playTaskId
            && SameButNumber(b.rooms[i], AfterKeys(v.board.rooms, v.board.playTaskId, keys)[i])
    decreases |keys|
  {
    hide OnKey, KeyedRoom;
    if keys != [] {
      var init, key := keys[..|keys| - 1], keys[|keys| - 1];
      var before := Run(v, KeyEvents(init));
      assert KeyEvents(keys)[..|keys| - 1] == KeyEvents(init);
      KeyRunStepsTheList(v, init, i);
      OneKeyOnList(before, key, i);
      OneKeySameButNumber(
        before.board.rooms[i], AfterKeys(v.board.rooms, v.board.playTaskId, init)[i], v.board.playTaskId, key);
    }
  }

  /** Any run of key messages acts on a selected room as the clamped counter and leaves the volumes of others alone. */
  lemma KeyRunIsACounter(v: View, keys: seq<int>, i: nat)
    requires i < |v.board.rooms|
    ensures |Run(v, KeyEvents(keys)).board.rooms| == |v.board.rooms|
    ensures var before, r := v.board.rooms[i], Run(v, KeyEvents(keys)).board.rooms[i];
            && r == before.(volume := r.volume, description := r.description)
            && (if Selected(before, v.board.playTaskId) then
                  Level(r.volume) == Counter(Level(before.volume), keys) && (keys != [] ==> 0.0 <= r.volume <= 100.0)
                else r.volume == before.volume)
  {
    hide Level, Run, AfterKeys, Counter;
    KeyRunStepsTheList(v, keys, i);
    KeysAreACounter(v.board.rooms, v.board.playTaskId, keys, i);
  }

  /** No run of key messages puts a quieter selected room above a louder one. */
  lemma KeyRunKeepsRoomOrder(v: View, keys: seq<int>, i: nat, j: nat)
    requires i < |v.board.rooms| && j < |v.board.rooms|
    requires Selected(v.board.rooms[i], v.board.playTaskId) && Selected(v.board.rooms[j], v.board.playTaskId)
    requires v.board.rooms[i].volume <= v.board.rooms[j].volume
    ensures |Run(v, KeyEvents(keys)).board.rooms| == |v.board.rooms|
    ensures Run(v, KeyEvents(keys)).board.rooms[i].volume <= Run(v, KeyEvents(keys)).board.rooms[j].volume
  {
    hide Level, Run, AfterKeys;
    KeyRunStepsTheList(v, keys, i);
    KeyRunStepsTheList(v, keys, j);
    KeysKeepRoomOrder(v.board.rooms, v.board.playTaskId, keys, i, j);
  }
}
