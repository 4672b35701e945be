/** What the calls of receivers do, in terms of positions, frames and bit numbers. */
module DispatcherCalls {
  import opened Media
  import opened Options
  import opened DispatcherSpec
  import opened DispatcherInvariant
  import opened DispatcherCore
  import opened DispatcherSafety

  // ---------------------------------------------------------------- attaching

  /** `i` is the position of the first audio frame behind `p`, or the invalid index if there is none. */
  ghost predicate NextAudio(frames: seq<DataSpec>, p: nat, i: nat) {
    if exists k :: p < k < |frames| && frames[k].media.mediaType == Audio
    then p < i < |frames| && frames[i].media.mediaType == Audio &&
         forall k | p < k < i :: frames[k].media.mediaType != Audio
    else i == INVALID_INDEX
  }

  ghost predicate LastAudio(frames: seq<DataSpec>, i: nat) {
    && i < |frames| && frames[i].media.mediaType == Audio
    && forall k | i < k < |frames| :: frames[k].media.mediaType != Audio
  }

  /** Where a new receiver starts, which of its data bits are up, and which activations it asks for. */
  ghost predicate Starts(s: State, t: State, id: nat)
    requires id in t.q.notifiers
  {
    var n := t.q.notifiers[id];
    var frames := s.q.frames;
    var audioUp := 2 * n.readIndex in t.refs.dataRef;
    var videoUp := 2 * n.readIndex + 1 in t.refs.dataRef;
    if frames == [] then
      && n.audioIndex == n.videoIndex == INVALID_INDEX && !audioUp && !videoUp
      && t.audioNeedActivate && t.videoNeedActivate
    else
      && t.videoNeedActivate == s.videoNeedActivate
      && if s.cfg.mode == AudioOnly then
           && n.audioIndex == |frames| - 1 && n.videoIndex == INVALID_INDEX && audioUp && !videoUp
           && t.audioNeedActivate == s.audioNeedActivate
         else
           && audioUp && t.audioNeedActivate == (s.audioNeedActivate || s.q.lastAudio == INVALID_INDEX)
           && (forall p | IsLastKey(frames, p) ::
                 n.videoIndex == p && NextAudio(frames, p, n.audioIndex) && videoUp)
           && ((forall p :: !IsLastKey(frames, p)) ==>
                 && n.videoIndex == INVALID_INDEX && n.audioIndex == s.q.lastAudio && !videoUp
                 && forall i | LastAudio(frames, i) :: n.audioIndex == i)
  }

  lemma KeyStart(q: Queue)
    requires QueueOK(q)
    ensures q.keys != [] ==> IsLastKey(q.frames, q.keys[|q.keys| - 1])
    ensures forall p | IsLastKey(q.frames, p) :: q.keys != [] && p == q.keys[|q.keys| - 1]
    ensures forall i | LastAudio(q.frames, i) :: i == q.lastAudio
  {
    if q.keys != [] {
      ListsLastKey(q);
    }
    forall i | LastAudio(q.frames, i)
      ensures i == q.lastAudio
    {
      assert LastOK(q.frames, q.lastAudio, true);
    }
  }

  lemma NextAudioIs(frames: seq<DataSpec>, p: nat)
    requires p < |frames| <= INVALID_INDEX
    ensures var next := NextIndex(frames, p, Audio, false);
            NextAudio(frames, p, if next == p then INVALID_INDEX else next)
  {
    NextStopSpec(frames, p + 1, Audio, false);
    hide NextStop;
    assert forall k | p < k < |frames| :: Stops(frames[k].media, Audio, false) <==> frames[k].media.mediaType == Audio;
  }

  lemma SlotBits(ref: set<nat>, slot: nat, audio: bool, video: bool)
    ensures var r := SetBits(SetBits(ref, {AudioBit(slot)}, audio), {VideoBit(slot)}, video);
            (2 * slot in r <==> audio) && (2 * slot + 1 in r <==> video)
  {
  }

  /**
   * A new receiver starts at the last key frame and at the first audio frame behind it, with both data bits up; with
   * no key frame buffered, at the last audio frame and without a video index.
   */
  lemma AttachStarts(s: State, id: nat, keyMode: bool, keyRedirect: bool)
    requires Inv(s) && id !in s.q.notifiers && |s.q.notifiers| < 16
    ensures var t := Attach(s, id, keyMode, keyRedirect);
            && id in t.q.notifiers && Starts(s, t, id)
            && t.q.notifiers[id].keyMode == keyMode && t.q.notifiers[id].keyRedirect == keyRedirect
            && t == s.(q := s.q.(notifiers := t.q.notifiers), refs := t.refs,
                       audioNeedActivate := t.audioNeedActivate, videoNeedActivate := t.videoNeedActivate)
  {
    assert QueueOK(s.q) && SlotsOK(s.q.notifiers, s.refs);
    hide Inv, QueueOK, SlotsOK, Attach, StartPosition, Starts;
    SlotsLeft(s.q.notifiers, s.refs);
    AttachIs(s, id, keyMode, keyRedirect);
    StartPositionIs(s);
    var t := Attach(s, id, keyMode, keyRedirect);
    StartsAtPosition(s, t, id);
  }

  lemma AttachIs(s: State, id: nat, keyMode: bool, keyRedirect: bool)
    requires id !in s.q.notifiers && LowestFree(s.refs.readRef, 0) < 16
    ensures Begun(s, Attach(s, id, keyMode, keyRedirect), id)
    ensures var t := Attach(s, id, keyMode, keyRedirect);
            && t.q.notifiers[id].keyMode == keyMode && t.q.notifiers[id].keyRedirect == keyRedirect
            && t == s.(q := s.q.(notifiers := t.q.notifiers), refs := t.refs,
                       audioNeedActivate := t.audioNeedActivate, videoNeedActivate := t.videoNeedActivate)
  {
    hide StartPosition, LowestFree, SetBits;
    var (_, _, audioUp, videoUp) := StartPosition(s);
    SlotBits(s.refs.dataRef, LowestFree(s.refs.readRef, 0), audioUp, videoUp);
  }

  /** Receiver `id` of `t` is new, and starts at the start position of `s`. */
  ghost predicate Begun(s: State, t: State, id: nat) {
    id in t.q.notifiers &&
    var n := t.q.notifiers[id];
    && StartPosition(s) == (n.audioIndex, n.videoIndex, 2 * n.readIndex in t.refs.dataRef,
                            2 * n.readIndex + 1 in t.refs.dataRef)
    && t.videoNeedActivate == (s.videoNeedActivate || s.q.frames == [])
    && t.audioNeedActivate == (s.audioNeedActivate || s.q.frames == [] ||
                               (s.cfg.mode != AudioOnly && s.q.lastAudio == INVALID_INDEX))
  }

  /** The start position behind the last key frame, or without one. */
  ghost predicate StartsBehind(s: State, start: (nat, nat, bool, bool)) {
    && (forall p | IsLastKey(s.q.frames, p) ::
          start.1 == p && NextAudio(s.q.frames, p, start.0) && start.2 && start.3)
    && ((forall p :: !IsLastKey(s.q.frames, p)) ==>
          && start == (s.q.lastAudio, INVALID_INDEX, true, false)
          && forall i | LastAudio(s.q.frames, i) :: start.0 == i)
  }

  lemma StartPositionIs(s: State)
    requires QueueOK(s.q)
    ensures var start := StartPosition(s);
            if s.q.frames == [] then start == (INVALID_INDEX, INVALID_INDEX, false, false)
            else if s.cfg.mode == AudioOnly then start == (|s.q.frames| - 1, INVALID_INDEX, true, false)
            else StartsBehind(s, start)
  {
    KeyStart(s.q);
    assert |s.q.frames| <= INVALID_INDEX;
    hide QueueOK, NextIndex, IsLastKey, NextAudio, LastAudio;
    if s.q.keys != [] {
      var p := s.q.keys[|s.q.keys| - 1];
      LastKeyInRange(s.q.frames, p);
      NextAudioIs(s.q.frames, p);
    }
  }

  lemma StartsAtPosition(s: State, t: State, id: nat)
    requires Begun(s, t, id)
    requires var start := StartPosition(s);
             if s.q.frames == [] then start == (INVALID_INDEX, INVALID_INDEX, false, false)
             else if s.cfg.mode == AudioOnly then start == (|s.q.frames| - 1, INVALID_INDEX, true, false)
             else StartsBehind(s, start)
    ensures Starts(s, t, id)
  {
    hide StartPosition, IsLastKey, NextAudio, LastAudio;
    if s.q.frames != [] && s.cfg.mode != AudioOnly && !(forall p :: !IsLastKey(s.q.frames, p)) {
      var p :| IsLastKey(s.q.frames, p);
    }
  }

  lemma LastKeyInRange(frames: seq<DataSpec>, p: nat)
    requires IsLastKey(frames, p)
    ensures p < |frames|
  {
  }

  // ---------------------------------------------------------------- bits

  /** Is `bit` one of the bits of the slot that serve the kind of media: 2 * slot for audio, 2 * slot + 1 for video? */
  predicate Serves(bit: nat, slot: nat, mediaType: MediaType) {
    (bit == 2 * slot && mediaType != Video) || (bit == 2 * slot + 1 && mediaType != Audio)
  }

  lemma ServesIsBits(bit: nat, slot: nat, mediaType: MediaType)
    ensures Serves(bit, slot, mediaType) <==> bit in Bits(slot, mediaType)
  {
  }

  /**
   * Reporting readiness raises exactly the receive bits of the receiver that serve the kind of media, and sets no
   * data bits but these; the two clearing calls clear exactly these bits in their field. A receiver that is not
   * attached changes nothing.
   */
  lemma BitCalls(s: State, id: nat, mediaType: MediaType, bit: nat)
    ensures var own := id in s.q.notifiers && Serves(bit, s.q.notifiers[id].readIndex, mediaType);
            var ready := NotifyReadReady(s, id, mediaType);
            && (bit in ready.refs.recvRef <==> bit in s.refs.recvRef || own)
            && (!own ==> (bit in ready.refs.dataRef <==> bit in s.refs.dataRef))
            && (bit in ClearReadBit(s, id, mediaType).refs.recvRef <==> bit in s.refs.recvRef && !own)
            && (bit in ClearDataBit(s, id, mediaType).refs.dataRef <==> bit in s.refs.dataRef && !own)
    ensures NotifyReadReady(s, id, mediaType) == s.(refs := NotifyReadReady(s, id, mediaType).refs)
    ensures ClearReadBit(s, id, mediaType) == s.(refs := ClearReadBit(s, id, mediaType).refs)
    ensures ClearDataBit(s, id, mediaType) == s.(refs := ClearDataBit(s, id, mediaType).refs)
    ensures NotifyReadReady(s, id, mediaType).refs.readRef == s.refs.readRef
    ensures ClearReadBit(s, id, mediaType).refs == s.refs.(recvRef := ClearReadBit(s, id, mediaType).refs.recvRef)
    ensures ClearDataBit(s, id, mediaType).refs == s.refs.(dataRef := ClearDataBit(s, id, mediaType).refs.dataRef)
  {
    if id in s.q.notifiers {
      ServesIsBits(bit, s.q.notifiers[id].readIndex, mediaType);
    }
    hide DataAvailable, Bits, Serves;
  }

  // ---------------------------------------------------------------- leaving and switching

  /** A detached receiver is gone with its slot and its receive bits; frames, marks and data bits stay. */
  lemma DetachLeaves(s: State, id: nat, other: nat, bit: nat)
    requires id in s.q.notifiers
    ensures var t := Detach(s, id);
            var slot := s.q.notifiers[id].readIndex;
            && (other in t.q.notifiers <==> other in s.q.notifiers && other != id)
            && (other in t.q.notifiers ==> t.q.notifiers[other] == s.q.notifiers[other])
            && (bit in t.refs.readRef <==> bit in s.refs.readRef && bit != slot)
            && (bit in t.refs.recvRef <==> bit in s.refs.recvRef && bit != 2 * slot && bit != 2 * slot + 1)
            && t == s.(q := s.q.(notifiers := t.q.notifiers), refs := t.refs) && t.refs.dataRef == s.refs.dataRef
  {
  }

  /**
   * Key mode of a receiver is switched for that receiver alone, and switching it on takes its video data bit down;
   * asking for a redirect is remembered by the dispatcher, and withdrawing it for one receiver is not.
   */
  lemma SwitchesOf(s: State, id: nat, enable: bool, other: nat, bit: nat)
    requires id in s.q.notifiers && other in s.q.notifiers
    ensures var t := ReceiverKeyMode(s, id, enable);
            && t.q.notifiers.Keys == s.q.notifiers.Keys
            && t.q.notifiers[other] ==
               (if other == id then s.q.notifiers[id].(keyMode := enable) else s.q.notifiers[other])
            && (bit in t.refs.dataRef <==>
                  bit in s.refs.dataRef && !(enable && bit == 2 * s.q.notifiers[id].readIndex + 1))
            && t.refs == s.refs.(dataRef := t.refs.dataRef)
            && t == s.(q := s.q.(notifiers := t.q.notifiers), refs := t.refs)
    ensures var t := ReceiverRedirect(s, id, enable);
            && t.q.notifiers.Keys == s.q.notifiers.Keys
            && t.q.notifiers[other] ==
               (if other == id then s.q.notifiers[id].(keyRedirect := enable) else s.q.notifiers[other])
            && t.redirect == (s.redirect || enable)
            && t == s.(q := s.q.(notifiers := t.q.notifiers), redirect := t.redirect)
  {
  }

  /** A flush empties the ring, invalidates every index and awaits a key frame; receivers, slots and bits stay. */
  lemma FlushEmpties(s: State, id: nat)
    ensures var t := Flush(s);
            && t.q.frames == [] && t.q.keys == [] && t.q.audioCnt == t.q.videoCnt == 0
            && t.q.lastAudio == t.q.lastVideo == INVALID_INDEX && t.q.notifiers.Keys == s.q.notifiers.Keys
            && (id in s.q.notifiers ==>
                  t.q.notifiers[id] ==
                  s.q.notifiers[id].(audioIndex := INVALID_INDEX, videoIndex := INVALID_INDEX))
            && t == s.(q := t.q, z := s.z.(gop := 0), waitingKey := true,
                       audioNeedActivate := true, videoNeedActivate := true)
  {
  }

  /** The three switches of the dispatcher itself. */
  lemma Switches(s: State, enable: bool)
    ensures Step(s, OpKeyMode(enable)) == (s.(keyOnly := enable), None)
    ensures Step(s, OpRedirect(enable)) == (s.(redirect := enable), None)
    ensures Step(s, OpRapid(enable)) == (s.(rapid := enable), None)
  {
  }
}
