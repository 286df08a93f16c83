/** The playback state object of frameworks/common/src/avplayback_state.cpp. */
module PlaybackState {
  import opened Machine
  import opened PlaybackStateSpec
  import opened WantParamsSpec
  import opened Wrappers

  class AVPlaybackState {
    var mask: Mask
    var state: Int32
    var speed: Double
    var position: Position
    var bufferedTime: Int64
    var loopMode: Int32
    var isFavorite: bool
    var activeItemId: Int32
    var volume: Int32
    var maxVolume: Int32
    var muted: bool
    var duration: Int32
    var videoWidth: Int32
    var videoHeight: Int32
    var extras: Option<Params>

    ghost function FieldsView(): Fields
      reads this
    {
      Fields(
        state, speed, position, bufferedTime, loopMode, isFavorite, activeItemId, volume, maxVolume, muted, duration,
        videoWidth, videoHeight, extras)
    }

    ghost function View(): Playback
      reads this
    {
      Playback(mask, FieldsView())
    }

    constructor ()
      ensures View() == NewPlayback()
    {
      mask := seq(PLAYBACK_KEY_MAX, _ => false);
      state, speed, position, bufferedTime, loopMode := 0, Finite(1.0), Position.Position(0, 0), 0, 0;
      isFavorite, activeItemId, volume, maxVolume, muted := false, 0, 0, 0, false;
      duration, videoWidth, videoHeight, extras := 0, 0, 0, None;
    }

    /** The table of clone actions. */
    static method Clone(i: nat, from: AVPlaybackState, to: AVPlaybackState)
      requires i < PLAYBACK_KEY_MAX
      modifies to
      ensures to.mask == old(to.mask)
      ensures to.FieldsView() == Cloned(i, old(from.FieldsView()), old(to.FieldsView()))
    {
      match i
      case 0 => to.state := from.state;
      case 1 => to.speed := from.speed;
      case 2 => to.position := from.position;
      case 3 => to.bufferedTime := from.bufferedTime;
      case 4 => to.loopMode := from.loopMode;
      case 5 => to.isFavorite := from.isFavorite;
      case 6 => to.activeItemId := from.activeItemId;
      case 7 => to.volume := from.volume;
      case 8 => to.maxVolume := from.maxVolume;
      case 9 => to.muted := from.muted;
      case 10 => to.duration := from.duration;
      case 11 => to.videoWidth := from.videoWidth;
      case 12 => to.videoHeight := from.videoHeight;
      case _ => to.extras := from.extras;
    }

    /** The table of check actions. */
    static method Check(i: nat, newState: AVPlaybackState, oldState: AVPlaybackState) returns (changed: bool)
      requires i < PLAYBACK_KEY_MAX
      ensures changed == Changed(i, newState.FieldsView(), oldState.FieldsView())
    {
      match i
      case 0 => changed := newState.state != oldState.state;
      case 1 => changed := Differs(newState.speed, oldState.speed);
      case 2 => changed := newState.position.elapsedTime != oldState.position.elapsedTime ||
                           newState.position.updateTime != oldState.position.updateTime;
      case 3 => changed := newState.bufferedTime != oldState.bufferedTime;
      case 4 => changed := newState.loopMode != oldState.loopMode;
      case 5 => changed := newState.isFavorite != oldState.isFavorite;
      case 6 => changed := newState.activeItemId != oldState.activeItemId;
      case 7 => changed := newState.volume != oldState.volume;
      case 8 => changed := newState.maxVolume != oldState.maxVolume;
      case 9 => changed := newState.muted != oldState.muted;
      case 10 => changed := newState.duration != oldState.duration;
      case 11 => changed := newState.videoWidth != oldState.videoWidth;
      case 12 => changed := newState.videoHeight != oldState.videoHeight;
      case _ => changed := CheckExtrasChange(newState, oldState);
    }

    static method CheckExtrasChange(newState: AVPlaybackState, oldState: AVPlaybackState) returns (changed: bool)
      ensures changed == (newState.extras != oldState.extras)
    {
      if newState.extras.None? && oldState.extras.None? { return false; }
      if newState.extras.None? || oldState.extras.None? { return true; }
      changed := newState.extras.value != oldState.extras.value;
    }

    /** Hands the fields that are both set and asked for to another object; false if there are none. */
    method CopyToByMask(wanted: Mask, out: AVPlaybackState) returns (result: bool)
      modifies out
      ensures out.View() == Copied(And(old(mask), wanted), old(View()), old(out.View()))
      ensures result == exists i :: 0 <= i < 14 && old(mask)[i] && wanted[i]
      ensures out != this ==> View() == old(View())
    {
      hide Cloned;
      ghost var me, was := View(), out.View();
      result := false;
      var intersection := And(mask, wanted);
      for i := 0 to PLAYBACK_KEY_MAX
        invariant View() == me
        invariant out.View() == CopiedUpTo(intersection, me, was, i)
        invariant result == exists k :: 0 <= k < i && intersection[k]
      {
        if intersection[i] {
          Clone(i, this, out);
          out.mask := out.mask[i := true];
          result := true;
          CopyToSelf(intersection, me, i + 1);
        }
      }
      forall i | 0 <= i < PLAYBACK_KEY_MAX
        ensures intersection[i] == (old(mask)[i] && wanted[i])
      {
      }
      if result {
        var i :| 0 <= i < PLAYBACK_KEY_MAX && intersection[i];
        assert old(mask)[i] && wanted[i];
      }
    }

    method GetChangedStateMask(filter: Mask, newState: AVPlaybackState) returns (result: Mask)
      ensures result == ChangedMask(filter, newState.FieldsView(), FieldsView())
    {
      hide Changed;
      result := seq(PLAYBACK_KEY_MAX, _ => false);
      for i := 0 to PLAYBACK_KEY_MAX
        invariant forall k :: 0 <= k < PLAYBACK_KEY_MAX ==>
                    result[k] == (k < i && filter[k] && Changed(k, newState.FieldsView(), FieldsView()))
      {
        if filter[i] {
          var changed := Check(i, newState, this);
          if changed { result := result[i := true]; }
        }
      }
    }

    /** Takes over everything the other has set; false if that is nothing. */
    method CopyFrom(other: AVPlaybackState) returns (result: bool)
      modifies this
      ensures View() == Copied(old(other.mask), old(other.View()), old(View()))
      ensures result == exists i :: 0 <= i < 14 && old(other.mask)[i]
    {
      hide Cloned;
      ghost var from, was := other.View(), View();
      result := false;
      for i := 0 to PLAYBACK_KEY_MAX
        invariant other.View() == from
        invariant View() == CopiedUpTo(from.mask, from, was, i)
        invariant result == exists k :: 0 <= k < i && from.mask[k]
      {
        if other.mask[i] {
          Clone(i, other, this);
          mask := mask[i := true];
          result := true;
          CopyToSelf(from.mask, from, i + 1);
        }
      }
    }
  }

  /**
   One round of synchronisation: the sender's changed fields travel in a fresh object to the receiver.
   The filtered fields then agree exactly when the sender's mask covers what differed, and a second
   round finds nothing exactly when it also covers what was reported and reports no NaN speed.
   */
  method Sync(filter: Mask, sender: AVPlaybackState, receiver: AVPlaybackState) returns (left: Mask)
    requires sender != receiver
    modifies receiver
    ensures sender.View() == old(sender.View())
    ensures receiver.View() == Synced(filter, old(sender.View()), old(receiver.View()))
    ensures FilteredSame(filter, receiver.FieldsView(), sender.FieldsView()) <==>
            Covered(filter, old(sender.View()), old(receiver.View()))
    ensures Empty(left) <==>
            Announced(filter, old(sender.View()), old(receiver.View()))
            && !(filter[PLAYBACK_KEY_SPEED] && sender.speed.NaN?)
  {
    hide Copied, Covered, Announced, FilteredSame, ChangedMask;
    ghost var newState, oldState := sender.View(), receiver.View();
    var changed := receiver.GetChangedStateMask(filter, sender);
    var delta := new AVPlaybackState();
    var _ := sender.CopyToByMask(changed, delta);
    var _ := receiver.CopyFrom(delta);
    left := receiver.GetChangedStateMask(filter, sender);
    SyncMakesFilteredFieldsEqual(filter, newState, oldState);
    NothingLeftToSync(filter, newState, oldState);
  }
}
