/**
 The playback state of frameworks/common/src/avplayback_state.cpp on values: fourteen fields with a
 mask of those that have been set, compared and copied field by field.
 */
module PlaybackStateSpec {
  import opened Machine
  import opened WantParamsSpec
  import opened Wrappers

  const PLAYBACK_KEY_SPEED := 1
  const PLAYBACK_KEY_MAX := 14

  type Mask = m: seq<bool> | |m| == PLAYBACK_KEY_MAX witness seq(PLAYBACK_KEY_MAX, _ => false)

  /** A double up to the sign of zero; NaN differs from everything, itself included. */
  datatype Double = NaN | Infinite(negative: bool) | Finite(value: real)

  predicate Differs(a: Double, b: Double) { a.NaN? || b.NaN? || a != b }

  datatype Position = Position(elapsedTime: Int64, updateTime: Int64)

  datatype Fields = Fields(
    state: Int32, speed: Double, position: Position, bufferedTime: Int64, loopMode: Int32, isFavorite: bool,
    activeItemId: Int32, volume: Int32, maxVolume: Int32, muted: bool, duration: Int32, videoWidth: Int32,
    videoHeight: Int32, extras: Option<Params>)

  datatype Playback = Playback(mask: Mask, fields: Fields)

  function NewPlayback(): Playback {
    Playback(
      seq(PLAYBACK_KEY_MAX, _ => false),
      Fields(0, Finite(1.0), Position(0, 0), 0, 0, false, 0, 0, 0, false, 0, 0, 0, None))
  }

  /** A new object has nothing set, speed 1 and otherwise zeros. */
  lemma NothingIsSet()
    ensures var p := NewPlayback();
            && (forall k :: 0 <= k < 14 ==> !p.mask[k])
            && p.fields == Fields(0, Finite(1.0), Position(0, 0), 0, 0, false, 0, 0, 0, false, 0, 0, 0, None)
  {
  }

  // ---------- One field ----------

  /** The k-th clone action: to with its k-th field taken from the other. */
  function Cloned(k: nat, from: Fields, to: Fields): Fields
    requires k < PLAYBACK_KEY_MAX
  {
    match k
    case 0 => to.(state := from.state)
    case 1 => to.(speed := from.speed)
    case 2 => to.(position := from.position)
    case 3 => to.(bufferedTime := from.bufferedTime)
    case 4 => to.(loopMode := from.loopMode)
    case 5 => to.(isFavorite := from.isFavorite)
    case 6 => to.(activeItemId := from.activeItemId)
    case 7 => to.(volume := from.volume)
    case 8 => to.(maxVolume := from.maxVolume)
    case 9 => to.(muted := from.muted)
    case 10 => to.(duration := from.duration)
    case 11 => to.(videoWidth := from.videoWidth)
    case 12 => to.(videoHeight := from.videoHeight)
    case _ => to.(extras := from.extras)
  }

  /** The k-th check action. Extras are compared by what they hold. */
  predicate Changed(k: nat, newState: Fields, oldState: Fields)
    requires k < PLAYBACK_KEY_MAX
  {
    match k
    case 0 => newState.state != oldState.state
    case 1 => Differs(newState.speed, oldState.speed)
    case 2 => newState.position != oldState.position
    case 3 => newState.bufferedTime != oldState.bufferedTime
    case 4 => newState.loopMode != oldState.loopMode
    case 5 => newState.isFavorite != oldState.isFavorite
    case 6 => newState.activeItemId != oldState.activeItemId
    case 7 => newState.volume != oldState.volume
    case 8 => newState.maxVolume != oldState.maxVolume
    case 9 => newState.muted != oldState.muted
    case 10 => newState.duration != oldState.duration
    case 11 => newState.videoWidth != oldState.videoWidth
    case 12 => newState.videoHeight != oldState.videoHeight
    case _ => newState.extras != oldState.extras
  }

  /** The two have the same value in their k-th field. */
  predicate Same(k: nat, a: Fields, b: Fields)
    requires k < PLAYBACK_KEY_MAX
  {
    match k
    case 0 => a.state == b.state
    case 1 => a.speed == b.speed
    case 2 => a.position == b.position
    case 3 => a.bufferedTime == b.bufferedTime
    case 4 => a.loopMode == b.loopMode
    case 5 => a.isFavorite == b.isFavorite
    case 6 => a.activeItemId == b.activeItemId
    case 7 => a.volume == b.volume
    case 8 => a.maxVolume == b.maxVolume
    case 9 => a.muted == b.muted
    case 10 => a.duration == b.duration
    case 11 => a.videoWidth == b.videoWidth
    case 12 => a.videoHeight == b.videoHeight
    case _ => a.extras == b.extras
  }

  lemma CloneSetsOneField(k: nat, from: Fields, to: Fields, j: nat)
    requires k < PLAYBACK_KEY_MAX && j < PLAYBACK_KEY_MAX
    ensures Same(j, Cloned(k, from, to), if j == k then from else to)
  {
  }

  /** Checks see every difference, and besides only a speed that is not a number. */
  lemma ChangedIsDifferent(k: nat, a: Fields, b: Fields)
    requires k < PLAYBACK_KEY_MAX
    ensures Changed(k, a, b) <==> !Same(k, a, b) || (k == PLAYBACK_KEY_SPEED && a.speed.NaN?)
  {
  }

  lemma SameIsEquivalence(k: nat, a: Fields, b: Fields, c: Fields)
    requires k < PLAYBACK_KEY_MAX
    ensures Same(k, a, a) && (Same(k, a, b) ==> Same(k, b, a)) && (Same(k, a, b) && Same(k, b, c) ==> Same(k, a, c))
  {
  }

  lemma Interchange(k: nat, a: Fields, b: Fields, c: Fields)
    requires k < PLAYBACK_KEY_MAX && Same(k, a, b)
    ensures Same(k, a, c) <==> Same(k, c, b)
    ensures Changed(k, c, a) <==> Changed(k, c, b)
  {
  }

  lemma AllSame(a: Fields, b: Fields)
    requires forall k :: 0 <= k < PLAYBACK_KEY_MAX ==> Same(k, a, b)
    ensures a == b
  {
    assert Same(0, a, b) && Same(1, a, b) && Same(2, a, b) && Same(3, a, b) && Same(4, a, b);
    assert Same(5, a, b) && Same(6, a, b) && Same(7, a, b) && Same(8, a, b) && Same(9, a, b);
    assert Same(10, a, b) && Same(11, a, b) && Same(12, a, b) && Same(13, a, b);
  }

  // ---------- All fields ----------

  /** to after the first n fields have been cloned where the mask has a bit. */
  function CopiedUpTo(m: Mask, from: Playback, to: Playback, n: nat): Playback
    requires n <= PLAYBACK_KEY_MAX
  {
    if n == 0 then to else
      var before := CopiedUpTo(m, from, to, n - 1);
      if m[n - 1] then
        Playback(before.mask[n - 1 := true], Cloned(n - 1, from.fields, before.fields))
      else before
  }

  function Copied(m: Mask, from: Playback, to: Playback): Playback { CopiedUpTo(m, from, to, PLAYBACK_KEY_MAX) }

  function And(a: Mask, b: Mask): Mask {
    seq(PLAYBACK_KEY_MAX, i requires 0 <= i < PLAYBACK_KEY_MAX => a[i] && b[i])
  }

  predicate Empty(m: Mask) { forall i :: 0 <= i < PLAYBACK_KEY_MAX ==> !m[i] }

  function ChangedMask(filter: Mask, newState: Fields, oldState: Fields): Mask {
    seq(PLAYBACK_KEY_MAX, i requires 0 <= i < PLAYBACK_KEY_MAX => filter[i] && Changed(i, newState, oldState))
  }

  /** Copying by a mask takes the masked fields, sets their bits, and leaves the rest alone. */
  lemma {:induction false} CopiedField(m: Mask, from: Playback, to: Playback, n: nat, k: nat)
    requires n <= PLAYBACK_KEY_MAX && k < PLAYBACK_KEY_MAX
    ensures var r := CopiedUpTo(m, from, to, n);
            var taken := k < n && m[k];
            Same(k, r.fields, if taken then from.fields else to.fields) && r.mask[k] == (to.mask[k] || taken)
  {
    hide Same, Cloned;
    SameIsEquivalence(k, to.fields, to.fields, to.fields);
    if n > 0 {
      CopiedField(m, from, to, n - 1, k);
      var before := CopiedUpTo(m, from, to, n - 1);
      if m[n - 1] {
        CloneSetsOneField(n - 1, from.fields, before.fields, k);
        var after := Cloned(n - 1, from.fields, before.fields);
        SameIsEquivalence(k, after, before.fields, if k < n - 1 && m[k] then from.fields else to.fields);
      }
    }
  }

  /** Copying something onto itself changes none of its fields. */
  lemma CopyToSelf(m: Mask, p: Playback, n: nat)
    requires n <= PLAYBACK_KEY_MAX
    ensures CopiedUpTo(m, p, p, n).fields == p.fields
    ensures (forall i :: 0 <= i < n && m[i] ==> p.mask[i]) ==> CopiedUpTo(m, p, p, n) == p
  {
    hide Same, Cloned, CopiedUpTo;
    forall k | 0 <= k < PLAYBACK_KEY_MAX
      ensures Same(k, CopiedUpTo(m, p, p, n).fields, p.fields)
      ensures CopiedUpTo(m, p, p, n).mask[k] == (p.mask[k] || (k < n && m[k]))
    {
      CopiedField(m, p, p, n, k);
    }
    AllSame(CopiedUpTo(m, p, p, n).fields, p.fields);
    if forall i :: 0 <= i < n && m[i] ==> p.mask[i] {
      assert CopiedUpTo(m, p, p, n).mask == p.mask;
    }
  }

  // ---------- Synchronising by deltas ----------

  /** The changed fields that the sender has set, in a fresh object. */
  function Delta(filter: Mask, newState: Playback, oldState: Playback): Playback {
    Copied(And(newState.mask, ChangedMask(filter, newState.fields, oldState.fields)), newState, NewPlayback())
  }

  /** The receiver after it has taken over what the delta has set. */
  function Synced(filter: Mask, newState: Playback, oldState: Playback): Playback {
    var delta := Delta(filter, newState, oldState);
    Copied(delta.mask, delta, oldState)
  }

  predicate Sends(k: nat, filter: Mask, newState: Playback, oldState: Playback)
    requires k < PLAYBACK_KEY_MAX
  {
    filter[k] && newState.mask[k] && Changed(k, newState.fields, oldState.fields)
  }

  /** Field by field: what has changed, passes the filter and has been set is taken over, and nothing else. */
  lemma SyncedField(filter: Mask, newState: Playback, oldState: Playback, k: nat)
    requires k < PLAYBACK_KEY_MAX
    ensures var r, sent := Synced(filter, newState, oldState), Sends(k, filter, newState, oldState);
            Same(k, r.fields, if sent then newState.fields else oldState.fields)
            && r.mask[k] == (oldState.mask[k] || sent)
  {
    hide Same, Changed, CopiedUpTo;
    var m := And(newState.mask, ChangedMask(filter, newState.fields, oldState.fields));
    var delta := Delta(filter, newState, oldState);
    CopiedField(m, newState, NewPlayback(), PLAYBACK_KEY_MAX, k);
    CopiedField(delta.mask, delta, oldState, PLAYBACK_KEY_MAX, k);
    if Sends(k, filter, newState, oldState) {
      SameIsEquivalence(k, Synced(filter, newState, oldState).fields, delta.fields, newState.fields);
    }
  }

  /** Synchronising, by name: each field under its own key of filter and mask, and of no other. */
  lemma SyncedFieldsByName(filter: Mask, newState: Playback, oldState: Playback)
    ensures var r, n, o := Synced(filter, newState, oldState).fields, newState.fields, oldState.fields;
            var sent := newState.mask;
            && r.state == (if filter[0] && sent[0] then n.state else o.state)
            && r.speed == (if filter[1] && sent[1] then n.speed else o.speed)
            && r.position == (if filter[2] && sent[2] then n.position else o.position)
            && r.bufferedTime == (if filter[3] && sent[3] then n.bufferedTime else o.bufferedTime)
            && r.loopMode == (if filter[4] && sent[4] then n.loopMode else o.loopMode)
            && r.isFavorite == (if filter[5] && sent[5] then n.isFavorite else o.isFavorite)
            && r.activeItemId == (if filter[6] && sent[6] then n.activeItemId else o.activeItemId)
            && r.volume == (if filter[7] && sent[7] then n.volume else o.volume)
            && r.maxVolume == (if filter[8] && sent[8] then n.maxVolume else o.maxVolume)
            && r.muted == (if filter[9] && sent[9] then n.muted else o.muted)
            && r.duration == (if filter[10] && sent[10] then n.duration else o.duration)
            && r.videoWidth == (if filter[11] && sent[11] then n.videoWidth else o.videoWidth)
            && r.videoHeight == (if filter[12] && sent[12] then n.videoHeight else o.videoHeight)
            && r.extras == (if filter[13] && sent[13] then n.extras else o.extras)
  {
    forall k | 0 <= k < PLAYBACK_KEY_MAX { SyncedFieldIsSent(filter, newState, oldState, k); }
    hide Synced;
    var r, n, o := Synced(filter, newState, oldState).fields, newState.fields, oldState.fields;
    assert Same(0, r, if filter[0] && newState.mask[0] then n else o);
    assert Same(1, r, if filter[1] && newState.mask[1] then n else o);
    assert Same(2, r, if filter[2] && newState.mask[2] then n else o);
    assert Same(3, r, if filter[3] && newState.mask[3] then n else o);
    assert Same(4, r, if filter[4] && newState.mask[4] then n else o);
    assert Same(5, r, if filter[5] && newState.mask[5] then n else o);
    assert Same(6, r, if filter[6] && newState.mask[6] then n else o);
    assert Same(7, r, if filter[7] && newState.mask[7] then n else o);
    assert Same(8, r, if filter[8] && newState.mask[8] then n else o);
    assert Same(9, r, if filter[9] && newState.mask[9] then n else o);
    assert Same(10, r, if filter[10] && newState.mask[10] then n else o);
    assert Same(11, r, if filter[11] && newState.mask[11] then n else o);
    assert Same(12, r, if filter[12] && newState.mask[12] then n else o);
    assert Same(13, r, if filter[13] && newState.mask[13] then n else o);
  }

  lemma SyncedFieldIsSent(filter: Mask, newState: Playback, oldState: Playback, k: nat)
    requires k < PLAYBACK_KEY_MAX
    ensures Same(k, Synced(filter, newState, oldState).fields,
                 if filter[k] && newState.mask[k] then newState.fields else oldState.fields)
  {
    hide Same, Changed, Synced;
    SyncedField(filter, newState, oldState, k);
    ChangedIsDifferent(k, newState.fields, oldState.fields);
    var r := Synced(filter, newState, oldState).fields;
    if filter[k] && newState.mask[k] && !Sends(k, filter, newState, oldState) {
      Interchange(k, newState.fields, oldState.fields, r);
      SameIsEquivalence(k, newState.fields, r, r);
    }
  }

  /** Every filtered field in which the two differ has been set by the sender. */
  predicate Covered(filter: Mask, newState: Playback, oldState: Playback) {
    forall k :: 0 <= k < PLAYBACK_KEY_MAX && filter[k] && !Same(k, newState.fields, oldState.fields) ==>
      newState.mask[k]
  }

  predicate FilteredSame(filter: Mask, a: Fields, b: Fields) {
    forall k :: 0 <= k < PLAYBACK_KEY_MAX && filter[k] ==> Same(k, a, b)
  }

  /** After a delta the filtered fields agree with the sender's exactly when its mask covers what differed. */
  lemma SyncMakesFilteredFieldsEqual(filter: Mask, newState: Playback, oldState: Playback)
    ensures FilteredSame(filter, Synced(filter, newState, oldState).fields, newState.fields) <==>
            Covered(filter, newState, oldState)
  {
    hide Same, Changed, Synced;
    var r := Synced(filter, newState, oldState);
    forall k | 0 <= k < PLAYBACK_KEY_MAX
      ensures filter[k] ==>
                (Same(k, r.fields, newState.fields) <==> Same(k, newState.fields, oldState.fields) || newState.mask[k])
    {
      SyncedField(filter, newState, oldState, k);
      ChangedIsDifferent(k, newState.fields, oldState.fields);
      if !Sends(k, filter, newState, oldState) { Interchange(k, r.fields, oldState.fields, newState.fields); }
    }
  }

  /** A delta leaves every field outside the filter as it was. */
  lemma SyncLeavesTheRest(filter: Mask, newState: Playback, oldState: Playback, k: nat)
    requires k < PLAYBACK_KEY_MAX && !filter[k]
    ensures Same(k, Synced(filter, newState, oldState).fields, oldState.fields)
    ensures Synced(filter, newState, oldState).mask[k] == oldState.mask[k]
  {
    hide Same, Synced;
    SyncedField(filter, newState, oldState, k);
  }

  /** Every filtered field that the check reports has been set by the sender. */
  predicate Announced(filter: Mask, newState: Playback, oldState: Playback) {
    forall k :: 0 <= k < PLAYBACK_KEY_MAX && filter[k] && Changed(k, newState.fields, oldState.fields) ==>
      newState.mask[k]
  }

  /**
   Nothing is left to synchronise afterwards exactly when the sender had set all that was reported,
   and does not report a speed that is not a number, which is reported again for ever.
   */
  lemma NothingLeftToSync(filter: Mask, newState: Playback, oldState: Playback)
    ensures Empty(ChangedMask(filter, newState.fields, Synced(filter, newState, oldState).fields)) <==>
            Announced(filter, newState, oldState) && !(filter[PLAYBACK_KEY_SPEED] && newState.fields.speed.NaN?)
  {
    hide Same, Changed, Synced;
    var r := Synced(filter, newState, oldState);
    forall k | 0 <= k < PLAYBACK_KEY_MAX
      ensures Changed(k, newState.fields, r.fields) && filter[k] <==>
              filter[k] && ((Changed(k, newState.fields, oldState.fields) && !newState.mask[k])
                            || (k == PLAYBACK_KEY_SPEED && newState.fields.speed.NaN?))
    {
      SyncedField(filter, newState, oldState, k);
      ChangedIsDifferent(k, newState.fields, oldState.fields);
      ChangedIsDifferent(k, newState.fields, r.fields);
      if Sends(k, filter, newState, oldState) {
        SameIsEquivalence(k, r.fields, newState.fields, newState.fields);
      } else {
        Interchange(k, r.fields, oldState.fields, newState.fields);
      }
    }
    var left := ChangedMask(filter, newState.fields, r.fields);
    assert forall k :: 0 <= k < PLAYBACK_KEY_MAX ==> left[k] == (filter[k] && Changed(k, newState.fields, r.fields));
    assert filter[PLAYBACK_KEY_SPEED] && newState.fields.speed.NaN? ==> left[PLAYBACK_KEY_SPEED];
  }
}
