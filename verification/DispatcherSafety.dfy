/**
 * While no sum of the adaptive resizing wraps around, every operation keeps the whole invariant: capacity, counters,
 * key list and last indices.
 */
module DispatcherSafety {
  import opened Media
  import opened Options
  import opened DispatcherSpec
  import opened DispatcherInvariant
  import opened DispatcherCore

  // ---------------------------------------------------------------- the invariant in two parts

  /** What a silent eviction would break. */
  ghost predicate TightQ(q: Queue) {
    && KeysOK(q.frames, q.keys) && CountersOK(q)
    && LastOK(q.frames, q.lastAudio, true) && LastOK(q.frames, q.lastVideo, false)
  }

  ghost predicate Tight(s: State) {
    Sized(s) && TightQ(s.q) && (s.q.frames == [] ==> AllInvalid(s.q))
  }

  lemma InvParts(s: State)
    ensures Inv(s) <==> Core(s) && Tight(s)
  {
    hide Ordered, ReserveOK, IndicesClamped, LastOK, CountersOK, Before, SlotsOK, AllInvalid;
    KeysOKNear(s.q.frames, s.q.keys);
    hide KeysOK, KeysNear;
  }

  lemma KeysOKNear(frames: seq<DataSpec>, keys: seq<nat>)
    ensures KeysOK(frames, keys) ==> KeysNear(keys, |frames|)
  {
  }

  // ---------------------------------------------------------------- making room

  /** `t` follows from `s` by removing frames from the head and by adjusting the capacity. */
  ghost predicate Stage(s: State, t: State) {
    && Sized(t) && QueueOK(t.q) && SameSlots(s.q.notifiers, t.q.notifiers)
    && (s.cfg.mode != AudioOnly ==> SameRest(s, t))
    && t.cfg == s.cfg && t.refs == s.refs && t.nextSeq == s.nextSeq && t.z.evaluating == s.z.evaluating
    && IsSuffix(t.q.frames, s.q.frames)
  }

  lemma StageTrans(s: State, t: State, u: State)
    requires Stage(s, t) && Stage(t, u)
    ensures Stage(s, u)
  {
    hide QueueOK, IsSuffix, SizingOK;
    SuffixTrans(u.q.frames, t.q.frames, s.q.frames);
  }

  lemma EvictKeeps(s: State, media: MediaData)
    requires Sized(s) && QueueOK(s.q)
    ensures var t := Evict(s, media); Stage(s, t) && |t.q.frames| < t.z.capacity
  {
    hide QueueOK, SameSlots, PopHeads;
    SameSlotsRefl(s.q.notifiers);
    var n := (if IsVideo(media) then NextDeleteVideo(s.q.frames) else 1) + 1;
    PopHeadsKeeps(s.q, n);
    PopHeadsFrames(s.q, n);
    PopHeadsSlots(s.q, n);
  }

  lemma EraseKeeps(s: State)
    requires Sized(s) && QueueOK(s.q)
    ensures Stage(s, EraseOldGop(s))
  {
    hide QueueOK, SameSlots;
    if s.cfg.mode == AudioOnly {
      FlushKeeps(s);
    } else {
      hide EraseOldGop;
      EraseOldGopKeeps(s);
      var a, b := EraseOldGopPops(s);
    }
  }

  lemma ExtendRestoreKeeps(s: State)
    requires Sized(s) && QueueOK(s.q)
    ensures Stage(s, Restore(Extend(s)))
  {
    hide QueueOK, SameSlots, Extend, Restore;
    ExtendKeeps(s);
    RestoreKeeps(Extend(s));
  }

  /** Making room leaves space for one frame, so the ring's own silent eviction never fires. */
  lemma MakeRoomKeeps(s: State, media: MediaData)
    requires Sized(s) && QueueOK(s.q)
    ensures var t := MakeRoom(s, media); Stage(s, t) && |t.q.frames| < t.z.capacity
  {
    ExtendRestoreKeeps(s);
    var u := Restore(Extend(s));
    assert Sized(u) && QueueOK(u.q);
    hide Stage, QueueOK, Extend, Restore, EraseOldGop, Evict;
    if IsKeyVideo(media) && !u.keyOnly {
      var v := EraseOldGop(u);
      EraseKeeps(u);
      StageTrans(s, u, v);
      StageOK(u, v);
      EvictKeeps(v, media);
      StageTrans(s, v, Evict(v, media));
    } else {
      EvictKeeps(u, media);
      StageTrans(s, u, Evict(u, media));
    }
  }

  lemma StageOK(s: State, t: State)
    requires Stage(s, t)
    ensures Sized(t) && QueueOK(t.q)
  {
  }

  // ---------------------------------------------------------------- appending

  lemma MarkedKeeps(q: Queue, frames: seq<DataSpec>)
    requires QueueOK(q) && Marked(q.frames, frames) && ReserveOK(frames)
    ensures QueueOK(q.(frames := frames))
  {
    CountAudioSameMedia(q.frames, frames);
  }

  lemma PushKeepsLast(frames: seq<DataSpec>, last: nat, audio: bool, d: DataSpec)
    requires LastOK(frames, last, audio)
    ensures LastOK(frames + [d], if IsAudio(d.media) == audio then |frames| else last, audio)
  {
    assert forall i | 0 <= i < |frames| :: (frames + [d])[i] == frames[i];
  }

  lemma PushKeepsKeys(frames: seq<DataSpec>, keys: seq<nat>, d: DataSpec)
    requires KeysOK(frames, keys)
    ensures KeysOK(frames + [d], if IsKeyVideo(d.media) then keys + [|frames|] else keys)
  {
    assert forall i | 0 <= i < |frames| :: (frames + [d])[i] == frames[i];
  }

  /** The queue after a push, with the bookkeeping of its kind done and arbitrary in-range indices. */
  lemma PushKeeps(q: Queue, d: DataSpec, ns: Notifiers)
    requires QueueOK(q) && |q.frames| < INVALID_INDEX && Before(q.frames, d.seqNo) && d.reserve == {}
    requires NotifiersClamped(ns, |q.frames| + 1)
    ensures QueueOK(Pushed(q, q.frames + [d], d.media, ns))
  {
    hide KeysOK, LastOK, Ordered, ReserveOK, NotifiersClamped, Before;
    CountAudioAppend(q.frames, d);
    PushKeepsKeys(q.frames, q.keys, d);
    PushKeepsLast(q.frames, q.lastAudio, true, d);
    PushKeepsLast(q.frames, q.lastVideo, false, d);
    PushKeepsFrames(q.frames, d);
  }

  lemma NotifiersKeep(q: Queue, ns: Notifiers)
    requires QueueOK(q) && NotifiersClamped(ns, |q.frames|)
    ensures QueueOK(q.(notifiers := ns))
  {
  }

  lemma RedirectToKeeps(q: Queue, next: nat, rapid: bool)
    requires QueueOK(q) && next < |q.frames|
    requires forall id | id in q.notifiers :: q.notifiers[id].readIndex < MAX_RECEIVER_SIZE
    ensures var t := RedirectTo(q, next, rapid);
            QueueOK(t) && SameSlots(q.notifiers, t.notifiers) && Marked(q.frames, t.frames)
  {
    hide KeysOK, LastOK, Ordered, ReserveOK, NotifiersClamped, Marked, SameSlots, CountersOK, RedirectMarks, AddMarks;
    var t := RedirectTo(q, next, rapid);
    RedirectMarksFrames(q, next, t.frames);
    RedirectNotifiersOK(q, next, rapid);
    hide QueueOK;
    MarkedKeeps(q, t.frames);
    NotifiersKeep(q.(frames := t.frames), t.notifiers);
  }

  lemma OnKeyRedirectKeeps(q: Queue, rapid: bool)
    requires QueueOK(q) && forall id | id in q.notifiers :: q.notifiers[id].readIndex < MAX_RECEIVER_SIZE
    ensures var t := OnKeyRedirect(q, rapid);
            QueueOK(t) && SameSlots(q.notifiers, t.notifiers) && Marked(q.frames, t.frames)
  {
    if q.keys != [] {
      var next := q.keys[|q.keys| - 1];
      assert next < |q.frames|;
      hide QueueOK, SameSlots, Marked, RedirectTo;
      RedirectToKeeps(q, next, rapid);
    }
  }

  lemma AppendQueueKeeps(s: State, media: MediaData)
    requires QueueOK(s.q) && |s.q.frames| < s.z.capacity <= INVALID_INDEX && Before(s.q.frames, s.nextSeq)
    ensures var q := AppendQueue(s, media);
            && QueueOK(q) && Before(q.frames, s.nextSeq + 1) && SameSlots(s.q.notifiers, q.notifiers)
            && |q.frames| == |s.q.frames| + 1
  {
    hide QueueOK, SameSlots, AppendNotifiers, Before, Ordered, ReserveOK, NotifiersClamped;
    QueueHas(s.q);
    ClampedGrows(s.q.notifiers, |s.q.frames|);
    AppendNotifiersOK(s, media, |s.q.frames|);
    var d := DataSpec(s.nextSeq, media, {});
    PushKeeps(s.q, d, AppendNotifiers(s, media, |s.q.frames|));
    PushKeepsFrames(s.q.frames, d);
  }

  lemma QueueHas(q: Queue)
    requires QueueOK(q)
    ensures Ordered(q.frames) && ReserveOK(q.frames) && NotifiersClamped(q.notifiers, |q.frames|)
    ensures |q.frames| <= INVALID_INDEX
  {
  }

  lemma AppendKeeps(s: State, media: MediaData)
    requires Sized(s) && |s.q.frames| < s.z.capacity && QueueOK(s.q) && Before(s.q.frames, s.nextSeq)
    requires SlotsOK(s.q.notifiers, s.refs)
    ensures var t := Append(s, media);
            && QueueOK(t.q) && Sized(t) && Before(t.q.frames, s.nextSeq + 1) && SlotsOK(t.q.notifiers, t.refs)
            && |t.q.frames| == |s.q.frames| + 1 && SameSlots(s.q.notifiers, t.q.notifiers)
  {
    AppendQueueKeeps(s, media);
    var q := AppendQueue(s, media);
    SameSlotsKeeps(s.q.notifiers, q.notifiers, s.refs);
    OnKeyRedirectKeeps(q, s.rapid);
    var r := OnKeyRedirect(q, s.rapid);
    SameSlotsKeeps(q.notifiers, r.notifiers, s.refs);
    MarkedBefore(q.frames, r.frames, s.nextSeq + 1);
    var t := Append(s, media);
    RefsKeep(t.q.notifiers, s.refs, t.refs);
  }

  // ---------------------------------------------------------------- inputs

  /** The invariant as it stands just before a frame is written. */
  ghost predicate Ready(s: State) {
    Sized(s) && QueueOK(s.q) && Before(s.q.frames, s.nextSeq) && SlotsOK(s.q.notifiers, s.refs)
  }

  lemma WriteKeeps(s: State, media: MediaData)
    requires Ready(s)
    ensures Inv(Write(s, media).(nextSeq := s.nextSeq + 1)) && Write(s, media).cfg == s.cfg
  {
    MakeRoomKeeps(s, media);
    var t := MakeRoom(s, media);
    hide QueueOK, SlotsOK, Before, MakeRoom;
    SuffixBefore(t.q.frames, s.q.frames, s.nextSeq);
    SameSlotsKeeps(s.q.notifiers, t.q.notifiers, s.refs);
    AppendKeeps(t, media);
  }

  /** Is the frame a key frame that ends the measuring of a group of pictures? */
  predicate EndsGroup(s: State, media: MediaData) {
    s.cfg.mode != AudioOnly && !s.waitingKey && s.z.evaluating && IsKeyVideo(media)
  }

  /** The base capacity that the frame would confirm is no smaller than the buffer. */
  predicate Fits(s: State, media: MediaData) {
    EndsGroup(s, media) ==> |s.q.frames| <= BaseFor(s.cfg, Wrap(s.z.baseCounter + 1))
  }

  /** Resizing shrinks the capacity below the buffer exactly for a key frame whose base capacity is too small. */
  lemma RecalculateKeeps(s: State, key: bool)
    requires Sized(s)
    ensures SizingOK(Recalculate(s.z, s.cfg, key), s.cfg, |s.q.frames|) <==>
            (key ==> |s.q.frames| <= BaseFor(s.cfg, Wrap(s.z.baseCounter + 1)))
  {
  }

  lemma RestartReady(s: State)
    requires Inv(s) && s.cfg.mode != AudioOnly
    ensures Ready(Restart(s))
  {
    FlushKeeps(s);
    SameSlotsKeeps(s.q.notifiers, Flush(s).q.notifiers, s.refs);
  }

  /** Whatever is admitted is written in a state that is ready for it, provided that its base capacity fits. */
  lemma AdmitReady(s: State, media: MediaData)
    requires Inv(s) && Fits(s, media)
    ensures match Admit(s, media)
            case None => true
            case Some(t) => Ready(t) && t.cfg == s.cfg && t.nextSeq == s.nextSeq &&
                            (t.q == s.q || t.q == Flush(s).q)
  {
    if s.cfg.mode != AudioOnly && s.waitingKey && IsKeyVideo(media) {
      RestartReady(s);
    }
    hide QueueOK, SlotsOK, Before, Flush, BaseFor;
    if s.cfg.mode != AudioOnly && !s.waitingKey && s.z.evaluating {
      RecalculateKeeps(s, IsKeyVideo(media));
    }
  }

  lemma InputKeeps(s: State, media: MediaData)
    requires Inv(s) && Fits(s, media)
    ensures Inv(Input(s, media)) && Input(s, media).cfg == s.cfg
  {
    AdmitReady(s, media);
    match Admit(s, media)
    case None =>
      BeforeMono(s.q.frames, s.nextSeq);
      hide QueueOK, SlotsOK, Before, Admit, Fits;
    case Some(t) =>
      WriteKeeps(t, media);
      hide Inv, Ready, Write, Admit, Fits;
  }

  // ---------------------------------------------------------------- other operations

  /** The same frames, more marks apart, and the same bookkeeping. */
  ghost predicate SameBooks(s: State, t: State) {
    && t.cfg == s.cfg && t.z == s.z && Marked(s.q.frames, t.q.frames)
    && t.q.keys == s.q.keys && t.q.lastAudio == s.q.lastAudio && t.q.lastVideo == s.q.lastVideo
    && t.q.audioCnt == s.q.audioCnt && t.q.videoCnt == s.q.videoCnt
    && (t.q.frames == [] && AllInvalid(s.q) ==> AllInvalid(t.q))
  }

  lemma BooksKeepTight(s: State, t: State)
    requires Tight(s) && SameBooks(s, t)
    ensures Tight(t)
  {
    CountAudioSameMedia(s.q.frames, t.q.frames);
  }

  lemma ReadKeepsBooks(s: State, id: nat, mediaType: MediaType)
    ensures SameBooks(s, Read(s, id, mediaType).0)
  {
    MarkedRefl(s.q.frames);
    if HasFrame(s, id, mediaType) {
      ReadMarks(s, id, mediaType);
      hide Marked, Delivers, AllInvalid;
    }
  }

  lemma AttachKeepsBooks(s: State, id: nat, keyMode: bool, keyRedirect: bool)
    requires CoreQ(s.q)
    ensures SameBooks(s, Attach(s, id, keyMode, keyRedirect))
  {
    hide StartPosition, LowestFree, CoreQ, Marked;
    MarkedRefl(s.q.frames);
    StartPositionOK(s);
  }

  /** The same queue with fewer receivers or other flags of theirs. */
  lemma NotifiersKeepBooks(s: State, t: State)
    requires t == s.(q := s.q.(notifiers := t.q.notifiers), refs := t.refs, redirect := t.redirect)
    requires forall id | id in t.q.notifiers ::
               && id in s.q.notifiers && t.q.notifiers[id].audioIndex == s.q.notifiers[id].audioIndex
               && t.q.notifiers[id].videoIndex == s.q.notifiers[id].videoIndex
    ensures SameBooks(s, t)
  {
  }

  lemma SameQueueKeepsBooks(s: State, t: State)
    requires t.cfg == s.cfg && t.z == s.z && t.q == s.q
    ensures SameBooks(s, t)
  {
  }

  lemma DetachKeepsBooks(s: State, id: nat)
    ensures SameBooks(s, Detach(s, id))
  {
    hide SameBooks;
    NotifiersKeepBooks(s, Detach(s, id));
  }

  lemma KeyModeKeepsBooks(s: State, id: nat, enable: bool)
    ensures SameBooks(s, ReceiverKeyMode(s, id, enable))
  {
    hide SameBooks, Bits;
    NotifiersKeepBooks(s, ReceiverKeyMode(s, id, enable));
  }

  lemma RedirectKeepsBooks(s: State, id: nat, enable: bool)
    ensures SameBooks(s, ReceiverRedirect(s, id, enable))
  {
    hide SameBooks;
    NotifiersKeepBooks(s, ReceiverRedirect(s, id, enable));
  }

  lemma ReceiverOpsKeepBooks(s: State, op: Op)
    requires CoreQ(s.q) && !op.OpInput? && !op.OpRead? && !op.OpFlush?
    ensures SameBooks(s, Step(s, op).0)
  {
    hide SameBooks, Attach, Detach, ReceiverKeyMode, ReceiverRedirect, DataAvailable, CoreQ;
    match op
    case OpAttach(id, keyMode, keyRedirect) => AttachKeepsBooks(s, id, keyMode, keyRedirect);
    case OpDetach(id) => DetachKeepsBooks(s, id);
    case OpReceiverKeyMode(id, enable) => KeyModeKeepsBooks(s, id, enable);
    case OpReceiverRedirect(id, enable) => RedirectKeepsBooks(s, id, enable);
    case _ => SameQueueKeepsBooks(s, Step(s, op).0);
  }

  lemma OtherStepsKeep(s: State, op: Op)
    requires Inv(s) && !op.OpInput?
    ensures Inv(Step(s, op).0)
  {
    InvParts(s);
    StepCore(s, op);
    var t := Step(s, op).0;
    InvParts(t);
    if op.OpFlush? {
      FlushKeeps(s);
    } else if op.OpRead? {
      ReadKeepsBooks(s, op.id, op.mediaType);
      hide Inv, Core, Tight, Step, SameBooks;
      BooksKeepTight(s, t);
    } else {
      ReceiverOpsKeepBooks(s, op);
      hide Inv, Core, Tight, Step, SameBooks;
      BooksKeepTight(s, t);
    }
  }

  lemma StepKeeps(s: State, op: Op)
    requires Inv(s) && (op.OpInput? ==> Fits(s, op.media))
    ensures Inv(Step(s, op).0) && Step(s, op).0.cfg == s.cfg
  {
    hide Inv, Input, Fits;
    if op.OpInput? {
      InputKeeps(s, op.media);
    } else {
      OtherStepsKeep(s, op);
      StepConfig(s, op);
    }
  }

  lemma InitialOK(cfg: Config)
    requires ConfigOK(cfg)
    ensures Inv(Initial(cfg))
  {
    assert forall b: nat :: b !in Initial(cfg).refs.readRef;
  }

  // ---------------------------------------------------------------- the counter of a group of pictures

  /** While a group of pictures is measured, its counter bounds the buffer. */
  ghost predicate Measured(s: State) {
    s.z.evaluating ==> s.cfg.mode != AudioOnly && (!s.waitingKey ==> |s.q.frames| <= s.z.baseCounter)
  }

  lemma DeleteHeadsRest(s: State, n: nat, force: bool)
    ensures SameRest(s, DeleteHeads(s, n, force))
  {
    hide DeleteLoop;
  }

  /** Making room leaves the measuring alone; an audio-only dispatcher may start waiting for a key frame. */
  lemma MakeRoomRest(s: State, media: MediaData)
    ensures var t := MakeRoom(s, media);
            && t.z.baseCounter == s.z.baseCounter && t.z.evaluating == s.z.evaluating && t.cfg == s.cfg
            && t.nextSeq == s.nextSeq && (s.cfg.mode != AudioOnly ==> t.waitingKey == s.waitingKey)
            && (s.waitingKey ==> t.waitingKey)
  {
    hide PopAudios, PopHeads, DeleteHeads, UpdateIndex;
    var u := Restore(Extend(s));
    var k := LastKey(u.q.keys);
    DeleteHeadsRest(u.(q := u.q.(keys := if k > 0 then [k] else u.q.keys)), k, false);
    var v := ErasePolitely(u);
    DeleteHeadsRest(v, NextDeleteVideo(v.q.frames), true);
  }

  lemma AppendRest(s: State, media: MediaData)
    ensures var t := Append(s, media);
            && t.z == s.z && t.cfg == s.cfg && t.nextSeq == s.nextSeq && t.waitingKey == s.waitingKey
            && t.keyOnly == s.keyOnly
  {
    hide AppendQueue, OnKeyRedirect;
  }

  lemma WriteRest(s: State, media: MediaData)
    requires Core(s)
    ensures var t := Write(s, media);
            && t.z.baseCounter == s.z.baseCounter && t.z.evaluating == s.z.evaluating && t.cfg == s.cfg
            && (s.cfg.mode != AudioOnly ==> t.waitingKey == s.waitingKey) && (s.waitingKey ==> t.waitingKey)
            && 0 < |t.q.frames| <= |s.q.frames| + 1
  {
    var u := MakeRoom(s, media);
    CoreParts(s);
    MakeRoomCore(s, media);
    StageCore(s, u);
    SuffixShorter(u.q.frames, s.q.frames);
    MakeRoomRest(s, media);
    hide Core, CoreQ, MakeRoom, Append, IsSuffix, CoreSized, AppendQueue;
    AppendRest(u, media);
    CoreParts(u);
    AppendQueueCore(u, media);
    AppendCore(u, media);
    assert |Append(u, media).q.frames| == |AppendQueue(u, media).frames|;
  }

  lemma OtherStepsKeepSizing(s: State, op: Op)
    requires !op.OpInput?
    ensures var t := Step(s, op).0;
            t.z.baseCounter == s.z.baseCounter && t.z.evaluating == s.z.evaluating && t.cfg == s.cfg &&
            (t.waitingKey || (t.waitingKey == s.waitingKey && |t.q.frames| == |s.q.frames|))
  {
    if op.OpRead? {
      ReadKeepsBooks(s, op.id, op.mediaType);
      hide Advance, AfterCallback, Delivers;
    }
    hide StartPosition, LowestFree, DataAvailable;
  }

  lemma AdmitCounts(s: State, media: MediaData)
    ensures match Admit(s, media)
            case None => true
            case Some(t) =>
              && t.cfg == s.cfg && t.z.baseCounter <= s.z.baseCounter + 1
              && (Measured(s) && s.z.baseCounter + 1 < UINT32 && t.z.evaluating ==>
                    t.cfg.mode != AudioOnly && (!t.waitingKey ==> |t.q.frames| < t.z.baseCounter))
  {
    hide BaseFor;
  }

  lemma InputMeasured(s: State, media: MediaData)
    requires Core(s)
    ensures Input(s, media).z.baseCounter <= s.z.baseCounter + 1
    ensures Measured(s) && s.z.baseCounter + 1 < UINT32 ==> Measured(Input(s, media))
  {
    hide Core, Write, Admit;
    AdmitCounts(s, media);
    AdmitCore(s, media);
    if Admit(s, media).Some? {
      WriteRest(Admit(s, media).value, media);
    }
  }

  /** The counter never runs ahead of the inputs. */
  lemma StepCounts(s: State, op: Op)
    requires Core(s) && s.z.baseCounter <= s.nextSeq
    ensures Step(s, op).0.z.baseCounter <= Step(s, op).0.nextSeq
  {
    hide Core, Input;
    StepSeq(s, op);
    if op.OpInput? {
      InputMeasured(s, op.media);
    } else {
      OtherStepsKeepSizing(s, op);
      hide Step;
    }
  }

  lemma StepMeasured(s: State, op: Op)
    requires Core(s) && Measured(s) && s.z.baseCounter + 1 < UINT32
    ensures Measured(Step(s, op).0)
  {
    hide Core, Input;
    if op.OpInput? {
      InputMeasured(s, op.media);
    } else {
      OtherStepsKeepSizing(s, op);
      hide Step;
    }
  }

  lemma {:induction false} RunMeasured(s: State, ops: seq<Op>)
    requires Core(s) && Measured(s) && s.z.baseCounter <= s.nextSeq && s.nextSeq + |ops| < UINT32
    ensures Measured(Run(s, ops)) && Run(s, ops).z.baseCounter <= Run(s, ops).nextSeq
    ensures Run(s, ops).nextSeq <= s.nextSeq + |ops|
    decreases ops
  {
    hide Core, Step, Measured;
    if ops != [] {
      StepCore(s, ops[0]);
      StepSeq(s, ops[0]);
      StepCounts(s, ops[0]);
      StepMeasured(s, ops[0]);
      RunMeasured(Step(s, ops[0]).0, ops[1..]);
    }
  }

  // ---------------------------------------------------------------- runs

  /** No group is measured, or its base capacity is always the initial one. */
  predicate Immune(cfg: Config) {
    cfg.maxCapacity == INITIAL_BUFFER_CAPACITY || cfg.mode == AudioOnly
  }

  /** No sum of counter and increment can wrap around in `n` operations, or it does not matter. */
  predicate Covered(cfg: Config, n: nat) {
    n + cfg.increment < UINT32 || Immune(cfg)
  }

  lemma CoveredFits(s: State, media: MediaData)
    requires Inv(s) && Covered(s.cfg, s.nextSeq + 1)
    requires !Immune(s.cfg) ==> Measured(s) && s.z.baseCounter <= s.nextSeq
    ensures Fits(s, media)
  {
  }

  lemma {:induction false} RunKeeps(s: State, ops: seq<Op>)
    requires Inv(s) && s.z.baseCounter <= s.nextSeq && Covered(s.cfg, s.nextSeq + |ops|)
    requires !Immune(s.cfg) ==> Measured(s)
    ensures Inv(Run(s, ops)) && Run(s, ops).cfg == s.cfg
    decreases ops
  {
    hide Inv, Core, Tight, Step, Measured, Fits;
    if ops != [] {
      InvParts(s);
      if ops[0].OpInput? {
        CoveredFits(s, ops[0].media);
      }
      StepKeeps(s, ops[0]);
      StepSeq(s, ops[0]);
      StepCounts(s, ops[0]);
      if !Immune(s.cfg) {
        StepMeasured(s, ops[0]);
      }
      RunKeeps(Step(s, ops[0]).0, ops[1..]);
    }
  }

  /** The whole invariant holds after every run in which the sums cannot wrap around. */
  lemma ReachableInv(cfg: Config, ops: seq<Op>)
    requires ConfigOK(cfg) && Covered(cfg, |ops|)
    ensures Inv(Run(Initial(cfg), ops)) && Run(Initial(cfg), ops).cfg == cfg
  {
    InitialOK(cfg);
    RunKeeps(Initial(cfg), ops);
  }
}
