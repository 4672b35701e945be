/**
 * What every state satisfies whatever the sums of the capacity come to: the frames are ordered, indices stay in range
 * and receivers own their slots. All operations keep it, the silent eviction of a full ring included.
 */
module DispatcherCore {
  import opened Media
  import opened Options
  import opened DispatcherSpec
  import opened DispatcherInvariant

  /** Both arguments are 32-bit fields; with a maximum of 1 an eviction would pop an empty ring. */
  ghost predicate CoreConfig(cfg: Config) {
    cfg.maxCapacity != 1 && cfg.maxCapacity < 0x8000_0000 && cfg.increment < UINT32
  }

  /** The initial capacity may exceed the maximum. */
  function Bound(cfg: Config): nat {
    if cfg.maxCapacity < INITIAL_BUFFER_CAPACITY then INITIAL_BUFFER_CAPACITY else cfg.maxCapacity
  }

  ghost predicate CoreSized(s: State) {
    && CoreConfig(s.cfg)
    && 2 <= s.z.capacity <= Bound(s.cfg) && INITIAL_BUFFER_CAPACITY <= s.z.base <= Bound(s.cfg)
    && |s.q.frames| <= Bound(s.cfg)
  }

  ghost predicate KeysNear(keys: seq<nat>, size: nat) {
    forall i | 0 <= i < |keys| :: keys[i] < size || keys[i] == 0
  }

  ghost predicate CoreQ(q: Queue) {
    KeysNear(q.keys, |q.frames|) && Ordered(q.frames) && ReserveOK(q.frames) && IndicesClamped(q)
  }

  ghost predicate Core(s: State) {
    CoreSized(s) && CoreQ(s.q) && Before(s.q.frames, s.nextSeq) && SlotsOK(s.q.notifiers, s.refs)
  }

  // ---------------------------------------------------------------- suffixes and marks

  ghost predicate IsSuffix(a: seq<DataSpec>, b: seq<DataSpec>) {
    |a| <= |b| && a == b[|b| - |a|..]
  }

  lemma SuffixBefore(a: seq<DataSpec>, b: seq<DataSpec>, next: nat)
    requires IsSuffix(a, b) && Before(b, next)
    ensures Before(a, next)
  {
    assert forall i | 0 <= i < |a| :: a[i] == b[|b| - |a| + i];
  }

  lemma SuffixTrans(a: seq<DataSpec>, b: seq<DataSpec>, c: seq<DataSpec>)
    requires IsSuffix(a, b) && IsSuffix(b, c)
    ensures IsSuffix(a, c)
  {
    assert forall i | 0 <= i < |a| :: a[i] == b[|b| - |a| + i] == c[|c| - |a| + i];
  }

  lemma SameSlotsRefl(ns: Notifiers)
    ensures SameSlots(ns, ns)
  {
  }

  /** The same frames with more read bits set. */
  ghost predicate Marked(a: seq<DataSpec>, b: seq<DataSpec>) {
    && |a| == |b|
    && forall i | 0 <= i < |a| ::
         a[i].seqNo == b[i].seqNo && a[i].media == b[i].media && a[i].reserve <= b[i].reserve
  }

  lemma MarkedBefore(a: seq<DataSpec>, b: seq<DataSpec>, next: nat)
    requires Marked(a, b) && Before(a, next)
    ensures Before(b, next)
  {
  }

  lemma MarkedTrans(a: seq<DataSpec>, b: seq<DataSpec>, c: seq<DataSpec>)
    requires Marked(a, b) && Marked(b, c)
    ensures Marked(a, c)
  {
  }

  // ---------------------------------------------------------------- pops

  lemma ShiftKeysNear(keys: seq<nat>, size: nat)
    requires size > 0 && KeysNear(keys, size)
    ensures KeysNear(ShiftKeys(keys), size - 1)
  {
    var ks := if keys != [] && keys[0] == 0 then keys[1..] else keys;
    assert forall i | 0 <= i < |ks| :: ks[i] in keys;
  }

  lemma PopCore(q: Queue, audio: bool)
    requires q.frames != [] && |q.frames| <= INVALID_INDEX && CoreQ(q)
    ensures CoreQ(PopAs(q, audio)) && SameSlots(q.notifiers, PopAs(q, audio).notifiers)
    ensures PopAs(q, audio).frames == q.frames[1..]
  {
    ShiftKeysNear(q.keys, |q.frames|);
    PopKeepsFrames(q.frames);
    PopKeepsIndices(q, audio);
  }

  /** `t` is `q` without some frames at the head, everything else re-based. */
  ghost predicate Popped(q: Queue, t: Queue) {
    CoreQ(t) && SameSlots(q.notifiers, t.notifiers) && IsSuffix(t.frames, q.frames)
  }

  lemma PoppedAfter(q: Queue, audio: bool, t: Queue)
    requires q.frames != [] && Popped(PopAs(q, audio), t)
    ensures Popped(q, t)
  {
    hide CoreQ, SameSlots;
    assert PopAs(q, audio).frames == q.frames[1..];
    assert IsSuffix(q.frames[1..], q.frames);
    SuffixTrans(t.frames, q.frames[1..], q.frames);
    SlotsAfterPop(q, audio, t.notifiers);
  }

  lemma SlotsAfterPop(q: Queue, audio: bool, ns: Notifiers)
    requires q.frames != [] && SameSlots(PopAs(q, audio).notifiers, ns)
    ensures SameSlots(q.notifiers, ns)
  {
    assert forall id | id in q.notifiers :: PopAs(q, audio).notifiers[id] == DecNotifier(q.notifiers[id]);
  }

  lemma {:induction false} PopHeadsCore(q: Queue, n: nat)
    requires |q.frames| <= INVALID_INDEX && CoreQ(q)
    ensures Popped(q, PopHeads(q, n)) && |PopHeads(q, n).frames| == |q.frames| - Min(n, |q.frames|)
    decreases n
  {
    hide CoreQ, Popped, PopAs;
    if n > 0 && q.frames != [] {
      PopCore(q, IsAudio(q.frames[0].media));
      PopHeadsCore(PopHead(q), n - 1);
      PoppedAfter(q, IsAudio(q.frames[0].media), PopHeads(q, n));
    } else {
      NothingPopped(q);
    }
  }

  lemma {:induction false} PopAudiosCore(q: Queue, n: nat)
    requires |q.frames| <= INVALID_INDEX && CoreQ(q)
    ensures Popped(q, PopAudios(q, n))
    decreases n
  {
    hide CoreQ, Popped, PopAs;
    if n > 0 && q.frames != [] {
      PopCore(q, true);
      PopAudiosCore(PopAs(q, true), n - 1);
      PoppedAfter(q, true, PopAudios(q, n));
    } else {
      NothingPopped(q);
    }
  }

  lemma NothingPopped(q: Queue)
    requires CoreQ(q)
    ensures Popped(q, q)
  {
  }

  // ---------------------------------------------------------------- making room

  /** `t` follows from `s` by removing frames from the head and by adjusting the capacity. */
  ghost predicate CoreStage(s: State, t: State) {
    && CoreSized(t) && CoreQ(t.q) && SameSlots(s.q.notifiers, t.q.notifiers)
    && t.cfg == s.cfg && t.refs == s.refs && t.nextSeq == s.nextSeq && IsSuffix(t.q.frames, s.q.frames)
  }

  lemma StageParts(s: State, t: State)
    requires CoreStage(s, t)
    ensures CoreSized(t) && CoreQ(t.q)
  {
  }

  lemma StageThen(s: State, t: State, u: State)
    requires CoreStage(s, t) && CoreStage(t, u)
    ensures CoreStage(s, u)
  {
    hide CoreQ, CoreSized, IsSuffix;
    SuffixTrans(u.q.frames, t.q.frames, s.q.frames);
  }

  lemma ExtendCore(s: State)
    requires CoreSized(s) && CoreQ(s.q)
    ensures CoreStage(s, Extend(s))
  {
    hide CoreQ, SameSlots;
    SameSlotsRefl(s.q.notifiers);
  }

  lemma RestoreCore(s: State)
    requires CoreSized(s) && CoreQ(s.q)
    ensures CoreStage(s, Restore(s))
  {
    hide CoreQ, SameSlots, PopAudios, IsSuffix, Excess;
    PopAudiosCore(s.q, Excess(|s.q.frames|));
    NothingPopped(s.q);
    SuffixShorter(PopAudios(s.q, Excess(|s.q.frames|)).frames, s.q.frames);
  }

  lemma SuffixShorter(a: seq<DataSpec>, b: seq<DataSpec>)
    ensures IsSuffix(a, b) ==> |a| <= |b|
  {
  }

  lemma ExtendRestoreCore(s: State)
    requires CoreSized(s) && CoreQ(s.q)
    ensures CoreStage(s, Restore(Extend(s)))
  {
    var t := Extend(s);
    ExtendCore(s);
    assert CoreSized(t) && CoreQ(t.q);
    hide CoreQ, CoreSized, Extend, Restore, CoreStage;
    RestoreCore(t);
    StageThen(s, t, Restore(t));
  }

  lemma DeleteHeadsCore(s: State, n: nat, force: bool)
    requires CoreSized(s) && CoreQ(s.q)
    ensures CoreStage(s, DeleteHeads(s, n, force))
  {
    hide CoreQ, SameSlots, DeleteLoop, PopHeads, IsSuffix;
    var k := DeleteLoopIsPopHeads(s.q, s.refs.readRef, n, force);
    PopHeadsCore(s.q, k);
  }

  lemma FlushCore(s: State)
    requires CoreSized(s)
    ensures CoreStage(s, Flush(s)) && AllInvalid(Flush(s).q)
  {
  }

  lemma ErasePolitelyCore(s: State)
    requires CoreSized(s) && CoreQ(s.q)
    ensures CoreStage(s, ErasePolitely(s))
  {
    var k := LastKey(s.q.keys);
    var u := s.(q := s.q.(keys := if k > 0 then [k] else s.q.keys));
    assert CoreQ(u.q) && CoreSized(u);
    hide CoreQ, CoreSized, DeleteHeads;
    DeleteHeadsCore(u, k, false);
  }

  lemma EraseCore(s: State)
    requires CoreSized(s) && CoreQ(s.q)
    ensures CoreStage(s, EraseOldGop(s))
  {
    if s.cfg.mode == AudioOnly {
      FlushCore(s);
    } else {
      hide CoreQ, CoreSized, DeleteHeads, ErasePolitely;
      var t := ErasePolitely(s);
      ErasePolitelyCore(s);
      DeleteHeadsCore(t, NextDeleteVideo(t.q.frames), true);
      StageThen(s, t, EraseToVideo(t));
    }
  }

  lemma EvictCore(s: State, media: MediaData)
    requires CoreSized(s) && CoreQ(s.q)
    ensures CoreStage(s, Evict(s, media))
  {
    hide CoreQ, SameSlots, PopHeads, IsSuffix;
    PopHeadsCore(s.q, (if IsVideo(media) then NextDeleteVideo(s.q.frames) else 1) + 1);
    NothingPopped(s.q);
  }

  lemma MakeRoomCore(s: State, media: MediaData)
    requires CoreSized(s) && CoreQ(s.q)
    ensures CoreStage(s, MakeRoom(s, media))
  {
    ExtendRestoreCore(s);
    var u := Restore(Extend(s));
    var v := if IsKeyVideo(media) && !u.keyOnly then EraseOldGop(u) else u;
    hide CoreQ, CoreSized, Extend, Restore, EraseOldGop, Evict, IsSuffix, SameSlots;
    if IsKeyVideo(media) && !u.keyOnly {
      EraseCore(u);
      StageThen(s, u, v);
    }
    EvictCore(v, media);
    StageThen(s, v, Evict(v, media));
  }

  // ---------------------------------------------------------------- appending

  lemma PushKeepsFrames(frames: seq<DataSpec>, d: DataSpec)
    requires Ordered(frames) && ReserveOK(frames) && Before(frames, d.seqNo) && d.reserve == {}
    ensures Ordered(frames + [d]) && ReserveOK(frames + [d]) && Before(frames + [d], d.seqNo + 1)
  {
  }

  /** The frames of the ring before the new one is pushed. */
  function Kept(frames: seq<DataSpec>, capacity: nat): seq<DataSpec> {
    if |frames| >= capacity && frames != [] then frames[1..] else frames
  }

  lemma KeptFrames(frames: seq<DataSpec>, capacity: nat, next: nat)
    requires Ordered(frames) && ReserveOK(frames) && Before(frames, next)
    ensures var k := Kept(frames, capacity);
            Ordered(k) && ReserveOK(k) && Before(k, next) && IsSuffix(k, frames)
  {
    assert frames != [] ==> forall i | 0 <= i < |frames| - 1 :: frames[1..][i] == frames[i + 1];
  }

  lemma KeptIsSuffix(frames: seq<DataSpec>, capacity: nat)
    ensures IsSuffix(Kept(frames, capacity), frames)
  {
  }

  lemma ClampedGrows(ns: Notifiers, size: nat)
    requires NotifiersClamped(ns, size)
    ensures NotifiersClamped(ns, size + 1)
  {
  }

  lemma AppendNotifiersOK(s: State, media: MediaData, last: nat)
    requires NotifiersClamped(s.q.notifiers, last + 1)
    ensures NotifiersClamped(AppendNotifiers(s, media, last), last + 1)
    ensures SameSlots(s.q.notifiers, AppendNotifiers(s, media, last))
  {
    assert SameSlots(s.q.notifiers, Jumped(s, media, last));
    assert NotifiersClamped(Jumped(s, media, last), last + 1);
  }

  lemma PushedCore(q: Queue, frames: seq<DataSpec>, media: MediaData, ns: Notifiers)
    requires frames != [] && |q.frames| <= |frames| && Ordered(frames) && ReserveOK(frames)
    requires KeysNear(q.keys, |q.frames|) && IndicesClamped(q) && NotifiersClamped(ns, |frames|)
    ensures CoreQ(Pushed(q, frames, media, ns))
  {
    hide Ordered, ReserveOK, NotifiersClamped;
  }

  /** The frame that an input adds. */
  function NewFrame(s: State, media: MediaData): DataSpec {
    DataSpec(s.nextSeq, media, {})
  }

  lemma AppendQueueCore(s: State, media: MediaData)
    requires CoreSized(s) && CoreQ(s.q) && Before(s.q.frames, s.nextSeq)
    ensures var q := AppendQueue(s, media);
            && CoreQ(q) && Before(q.frames, s.nextSeq + 1) && SameSlots(s.q.notifiers, q.notifiers)
            && q.frames == Kept(s.q.frames, s.z.capacity) + [NewFrame(s, media)]
            && |q.frames| <= Bound(s.cfg) && |s.q.frames| <= |q.frames| <= |s.q.frames| + 1
  {
    hide CoreQ, CoreSized, Ordered, ReserveOK, Before, AppendNotifiers, SameSlots, Kept, PushBack, NotifiersClamped,
      KeysNear, Pushed, IndicesClamped;
    PushBackCore(s, media);
    CoreQParts(s.q);
    var frames := PushBack(s.q.frames, s.z.capacity, NewFrame(s, media));
    assert NotifiersClamped(s.q.notifiers, |frames|) by {
      ClampedGrows(s.q.notifiers, |s.q.frames|);
    }
    AppendNotifiersOK(s, media, |frames| - 1);
    PushedCore(s.q, frames, media, AppendNotifiers(s, media, |frames| - 1));
    PushedParts(s.q, frames, media, AppendNotifiers(s, media, |frames| - 1));
  }

  lemma CoreQParts(q: Queue)
    requires CoreQ(q)
    ensures NotifiersClamped(q.notifiers, |q.frames|) && Ordered(q.frames)
    ensures KeysNear(q.keys, |q.frames|) && IndicesClamped(q)
  {
  }

  lemma PushedParts(q: Queue, frames: seq<DataSpec>, media: MediaData, ns: Notifiers)
    requires frames != []
    ensures Pushed(q, frames, media, ns).frames == frames && Pushed(q, frames, media, ns).notifiers == ns
  {
  }

  lemma PushBackCore(s: State, media: MediaData)
    requires CoreSized(s) && CoreQ(s.q) && Before(s.q.frames, s.nextSeq)
    ensures var frames := PushBack(s.q.frames, s.z.capacity, NewFrame(s, media));
            && frames == Kept(s.q.frames, s.z.capacity) + [NewFrame(s, media)]
            && Ordered(frames) && ReserveOK(frames) && Before(frames, s.nextSeq + 1)
            && |frames| <= Bound(s.cfg) && |s.q.frames| <= |frames| <= |s.q.frames| + 1
  {
    KeptFrames(s.q.frames, s.z.capacity, s.nextSeq);
    PushKeepsFrames(Kept(s.q.frames, s.z.capacity), NewFrame(s, media));
    hide CoreQ, Ordered, ReserveOK, Before;
  }

  lemma MarkedCore(q: Queue, frames: seq<DataSpec>)
    requires CoreQ(q) && Marked(q.frames, frames) && ReserveOK(frames)
    ensures CoreQ(q.(frames := frames))
  {
  }

  lemma NotifiersCore(q: Queue, ns: Notifiers)
    requires CoreQ(q) && NotifiersClamped(ns, |q.frames|)
    ensures CoreQ(q.(notifiers := ns))
  {
  }

  lemma RedirectMarksFrames(q: Queue, next: nat, frames: seq<DataSpec>)
    requires ReserveOK(q.frames)
    requires forall id | id in q.notifiers :: q.notifiers[id].readIndex < MAX_RECEIVER_SIZE
    requires |frames| == |q.frames|
    requires forall i | 0 <= i < |frames| :: frames[i] == AddMarks(q.frames[i], RedirectMarks(q.notifiers, i, next))
    ensures Marked(q.frames, frames) && ReserveOK(frames)
  {
  }

  lemma RedirectNotifiersOK(q: Queue, next: nat, rapid: bool)
    requires NotifiersClamped(q.notifiers, |q.frames|) && next < |q.frames|
    ensures var ns := map id | id in q.notifiers :: RedirectNotifier(q.notifiers[id], next, rapid);
            NotifiersClamped(ns, |q.frames|) && SameSlots(q.notifiers, ns)
  {
  }

  ghost predicate SlotsBounded(ns: Notifiers) {
    forall id | id in ns :: ns[id].readIndex < MAX_RECEIVER_SIZE
  }

  lemma SlotsAreBounded(ns: Notifiers, refs: Refs)
    requires SlotsOK(ns, refs)
    ensures SlotsBounded(ns)
  {
  }

  lemma RedirectToCore(q: Queue, next: nat, rapid: bool)
    requires CoreQ(q) && next < |q.frames| && SlotsBounded(q.notifiers)
    ensures var t := RedirectTo(q, next, rapid);
            CoreQ(t) && SameSlots(q.notifiers, t.notifiers) && Marked(q.frames, t.frames)
  {
    hide KeysNear, Ordered, ReserveOK, NotifiersClamped, Marked, SameSlots, RedirectMarks, AddMarks;
    var t := RedirectTo(q, next, rapid);
    RedirectMarksFrames(q, next, t.frames);
    RedirectNotifiersOK(q, next, rapid);
    hide CoreQ;
    MarkedCore(q, t.frames);
    NotifiersCore(q.(frames := t.frames), t.notifiers);
  }

  lemma OnKeyRedirectCore(q: Queue, rapid: bool)
    requires CoreQ(q) && q.frames != [] && SlotsBounded(q.notifiers)
    ensures var t := OnKeyRedirect(q, rapid);
            CoreQ(t) && SameSlots(q.notifiers, t.notifiers) && Marked(q.frames, t.frames)
  {
    if q.keys != [] {
      var next := q.keys[|q.keys| - 1];
      assert next < |q.frames|;
      hide CoreQ, SameSlots, Marked, RedirectTo;
      RedirectToCore(q, next, rapid);
    }
  }

  lemma RefsKeep(ns: Notifiers, a: Refs, b: Refs)
    requires SlotsOK(ns, a) && a.readRef == b.readRef && a.recvRef == b.recvRef
    ensures SlotsOK(ns, b)
  {
  }

  lemma AppendCore(s: State, media: MediaData)
    requires Core(s)
    ensures Core(Append(s, media).(nextSeq := s.nextSeq + 1))
    ensures Marked(AppendQueue(s, media).frames, Append(s, media).q.frames)
  {
    AppendQueueCore(s, media);
    var q := AppendQueue(s, media);
    SameSlotsKeeps(s.q.notifiers, q.notifiers, s.refs);
    SlotsAreBounded(q.notifiers, s.refs);
    hide CoreQ, SlotsOK, AppendQueue, Before, SameSlots, ReadyBits, Jumped;
    OnKeyRedirectCore(q, s.rapid);
    var r := OnKeyRedirect(q, s.rapid);
    SameSlotsKeeps(q.notifiers, r.notifiers, s.refs);
    MarkedBefore(q.frames, r.frames, s.nextSeq + 1);
    MarkedRefl(q.frames);
    var t := Append(s, media);
    RefsKeep(t.q.notifiers, s.refs, t.refs);
    hide OnKeyRedirect, Marked;
  }

  lemma MarkedRefl(frames: seq<DataSpec>)
    ensures Marked(frames, frames)
  {
  }

  // ---------------------------------------------------------------- inputs

  lemma StageCore(s: State, t: State)
    requires Core(s) && CoreStage(s, t)
    ensures Core(t)
  {
    hide CoreQ, CoreSized, IsSuffix, SlotsOK, SameSlots, Before;
    SuffixBefore(t.q.frames, s.q.frames, s.nextSeq);
    SameSlotsKeeps(s.q.notifiers, t.q.notifiers, s.refs);
  }

  lemma WriteCore(s: State, media: MediaData)
    requires Core(s)
    ensures Core(Write(s, media).(nextSeq := s.nextSeq + 1)) && Write(s, media).nextSeq == s.nextSeq
  {
    MakeRoomCore(s, media);
    var t := MakeRoom(s, media);
    hide MakeRoom, CoreQ, SlotsOK, Before;
    StageCore(s, t);
    hide Core;
    AppendCore(t, media);
  }

  lemma RecalculateCore(s: State, key: bool)
    requires CoreSized(s)
    ensures CoreSized(s.(z := Recalculate(s.z, s.cfg, key)))
  {
  }

  /** Whatever is admitted is written in a state that is fit for it. */
  lemma AdmitCore(s: State, media: MediaData)
    requires Core(s)
    ensures match Admit(s, media)
            case None => true
            case Some(t) => Core(t) && t.cfg == s.cfg && t.nextSeq == s.nextSeq &&
                            (t.q == s.q || t.q == Flush(s).q)
  {
    RecalculateCore(s, IsKeyVideo(media));
    FlushCore(s);
    StageCore(s, Flush(s));
    hide CoreQ, SlotsOK, Before, Flush, Recalculate, CoreStage;
  }

  lemma AdmittedSeq(s: State, media: MediaData)
    requires Core(s)
    ensures Admitted(s, media).nextSeq == s.nextSeq
  {
    hide Core, Write, Flush;
    AdmitCore(s, media);
    if Admit(s, media).Some? {
      WriteCore(Admit(s, media).value, media);
    }
  }

  lemma InputCore(s: State, media: MediaData)
    requires Core(s)
    ensures Core(Input(s, media))
  {
    AdmitCore(s, media);
    match Admit(s, media)
    case None =>
      BeforeMono(s.q.frames, s.nextSeq);
      hide CoreQ, SlotsOK, Before, Admit;
    case Some(t) =>
      WriteCore(t, media);
      hide Core, Write, Admit;
  }

  lemma BeforeMono(frames: seq<DataSpec>, next: nat)
    requires Before(frames, next)
    ensures Before(frames, next + 1)
  {
  }

  // ---------------------------------------------------------------- reads

  lemma {:induction false} NextStopSpec(frames: seq<DataSpec>, i: nat, mediaType: MediaType, keysOnly: bool)
    requires i <= |frames|
    ensures var r := NextStop(frames, i, mediaType, keysOnly);
            && i <= r <= |frames|
            && (r < |frames| ==> Stops(frames[r].media, mediaType, keysOnly))
            && forall j | i <= j < r :: !Stops(frames[j].media, mediaType, keysOnly)
    decreases |frames| - i
  {
    if i < |frames| && !Stops(frames[i].media, mediaType, keysOnly) {
      NextStopSpec(frames, i + 1, mediaType, keysOnly);
    }
  }

  lemma MarkRangeKeeps(frames: seq<DataSpec>, lo: nat, hi: nat, slot: nat)
    requires ReserveOK(frames) && slot < MAX_RECEIVER_SIZE
    ensures Marked(frames, MarkRange(frames, lo, hi, slot)) && ReserveOK(MarkRange(frames, lo, hi, slot))
  {
  }

  lemma MoveKeepsNotifiers(ns: Notifiers, id: nat, mediaType: MediaType, index: nat, size: nat)
    requires id in ns && NotifiersClamped(ns, size) && index < size
    ensures var ms := ns[id := MoveIndex(ns[id], mediaType, index)];
            NotifiersClamped(ms, size) && SameSlots(ns, ms)
  {
  }

  lemma ReadFramesMarked(frames: seq<DataSpec>, i: nat, slot: nat, deliver: bool)
    requires i < |frames|
    ensures Marked(frames, ReadFrames(frames, i, slot, deliver))
    ensures ReserveOK(frames) && slot < MAX_RECEIVER_SIZE ==> ReserveOK(ReadFrames(frames, i, slot, deliver))
  {
  }

  lemma AdvanceMarks(s: State, id: nat, i: nat, mediaType: MediaType)
    requires id in s.q.notifiers && i < |s.q.frames|
    ensures Marked(s.q.frames, Advance(s, id, i, mediaType).q.frames)
  {
  }

  lemma ReadMarks(s: State, id: nat, mediaType: MediaType)
    requires HasFrame(s, id, mediaType)
    ensures Marked(s.q.frames, Read(s, id, mediaType).0.q.frames)
  {
    var n := s.q.notifiers[id];
    var i := ReadIndex(n, mediaType);
    var t := AfterCallback(s, id, mediaType);
    ReadFramesMarked(s.q.frames, i, n.readIndex, Delivers(s, id, mediaType));
    AdvanceMarks(t, id, i, mediaType);
    hide Marked, Advance, ReadFrames, Delivers, ReadIndex;
    MarkedTrans(s.q.frames, t.q.frames, Advance(t, id, i, mediaType).q.frames);
  }

  lemma CallbackShape(s: State, id: nat, mediaType: MediaType)
    requires HasFrame(s, id, mediaType)
    ensures |AfterCallback(s, id, mediaType).q.frames| == |s.q.frames|
    ensures AfterCallback(s, id, mediaType).q.notifiers == s.q.notifiers
  {
  }

  lemma ReadKeepsRest(s: State, id: nat, mediaType: MediaType)
    ensures Read(s, id, mediaType).0.cfg == s.cfg && Read(s, id, mediaType).0.nextSeq == s.nextSeq
  {
  }

  lemma AdvanceCore(s: State, id: nat, i: nat, mediaType: MediaType)
    requires Core(s) && id in s.q.notifiers && i < |s.q.frames|
    ensures Core(Advance(s, id, i, mediaType))
  {
    var n := s.q.notifiers[id];
    var keysOnly := KeysOnly(s, id);
    NextStopSpec(s.q.frames, i + 1, mediaType, keysOnly);
    var next := NextIndex(s.q.frames, i, mediaType, keysOnly);
    var t := Advance(s, id, i, mediaType);
    MarkRangeKeeps(s.q.frames, i + 1, next, n.readIndex);
    MoveKeepsNotifiers(s.q.notifiers, id, mediaType, next, |s.q.frames|);
    assert Marked(s.q.frames, t.q.frames) && ReserveOK(t.q.frames);
    assert NotifiersClamped(t.q.notifiers, |s.q.frames|);
    hide KeysNear, Ordered, ReserveOK, NotifiersClamped, Marked, SameSlots, NextIndex, MarkRange;
    MarkedCore(s.q, t.q.frames);
    MarkedBefore(s.q.frames, t.q.frames, s.nextSeq);
    NotifiersCore(s.q.(frames := t.q.frames), t.q.notifiers);
    SameSlotsKeeps(s.q.notifiers, t.q.notifiers, s.refs);
  }

  lemma AfterCallbackCore(s: State, id: nat, mediaType: MediaType)
    requires Core(s) && HasFrame(s, id, mediaType)
    ensures Core(AfterCallback(s, id, mediaType))
  {
    var n := s.q.notifiers[id];
    var t := AfterCallback(s, id, mediaType);
    ReadFramesMarked(s.q.frames, ReadIndex(n, mediaType), n.readIndex, Delivers(s, id, mediaType));
    assert n.readIndex < MAX_RECEIVER_SIZE && ReserveOK(s.q.frames);
    hide KeysNear, Ordered, ReserveOK, NotifiersClamped, Marked, ReadFrames, Delivers, ReadIndex;
    MarkedCore(s.q, t.q.frames);
    MarkedBefore(s.q.frames, t.q.frames, s.nextSeq);
  }

  lemma ReadCore(s: State, id: nat, mediaType: MediaType)
    requires Core(s)
    ensures Core(Read(s, id, mediaType).0)
  {
    if HasFrame(s, id, mediaType) {
      AfterCallbackCore(s, id, mediaType);
      hide Core, Advance, Delivers;
      AdvanceCore(AfterCallback(s, id, mediaType), id, ReadIndex(s.q.notifiers[id], mediaType), mediaType);
    }
  }

  // ---------------------------------------------------------------- receivers

  /** Attach takes the lowest free slot. */
  lemma {:induction false} LowestFreeSpec(ref: set<nat>, from: nat)
    requires from <= MAX_RECEIVER_SIZE
    ensures var slot := LowestFree(ref, from);
            && from <= slot <= MAX_RECEIVER_SIZE
            && (slot < MAX_RECEIVER_SIZE ==> slot !in ref)
            && forall j | from <= j < slot :: j in ref
    decreases MAX_RECEIVER_SIZE - from
  {
    if from < MAX_RECEIVER_SIZE && from in ref {
      LowestFreeSpec(ref, from + 1);
    }
  }

  /** Slots run out exactly when sixteen receivers are attached. */
  lemma SlotsLeft(ns: Notifiers, refs: Refs)
    requires SlotsOK(ns, refs)
    ensures LowestFree(refs.readRef, 0) < MAX_RECEIVER_SIZE <==> |ns| < MAX_RECEIVER_SIZE
  {
    hide LowestFree;
    ReceiverCount(ns, ns.Keys, refs.readRef);
    AllTaken(refs.readRef);
    assert |ns.Keys| == |ns|;
  }

  lemma AllTaken(ref: set<nat>)
    requires forall x | x in ref :: x < MAX_RECEIVER_SIZE
    ensures LowestFree(ref, 0) < MAX_RECEIVER_SIZE <==> |ref| < MAX_RECEIVER_SIZE
  {
    LowestFreeSpec(ref, 0);
    BelowSpec(MAX_RECEIVER_SIZE);
    hide Below, LowestFree;
    SubsetSize(ref, Below(MAX_RECEIVER_SIZE));
    if LowestFree(ref, 0) == MAX_RECEIVER_SIZE {
      assert ref == Below(MAX_RECEIVER_SIZE);
    }
  }

  function Below(n: nat): set<nat> {
    if n == 0 then {} else Below(n - 1) + {n - 1}
  }

  lemma {:induction false} BelowSpec(n: nat)
    ensures |Below(n)| == n && forall i: nat :: i in Below(n) <==> i < n
  {
    if n > 0 {
      BelowSpec(n - 1);
    }
  }

  lemma {:induction false} SubsetSize(a: set<nat>, b: set<nat>)
    requires a <= b
    ensures |a| <= |b| && (|a| == |b| <==> a == b)
  {
    if a != {} {
      var x :| x in a;
      SubsetSize(a - {x}, b - {x});
      assert a == (a - {x}) + {x} && b == (b - {x}) + {x};
    }
  }

  /** Receivers with distinct slots occupy as many slots as there are receivers. */
  lemma {:induction false} ReceiverCount(ns: Notifiers, ids: set<nat>, ref: set<nat>)
    requires forall a, b | a in ns && b in ns && a != b :: ns[a].readIndex != ns[b].readIndex
    requires ids <= ns.Keys && ref == set id | id in ids :: ns[id].readIndex
    ensures |ref| == |ids|
    decreases ids
  {
    if ids != {} {
      var id :| id in ids;
      var rest := set a | a in ids - {id} :: ns[a].readIndex;
      ReceiverCount(ns, ids - {id}, rest);
      assert ref == rest + {ns[id].readIndex};
    }
  }

  lemma StartPositionOK(s: State)
    requires CoreQ(s.q)
    ensures var (audio, video, _, _) := StartPosition(s);
            && Clamped(audio, |s.q.frames|) && Clamped(video, |s.q.frames|)
            && (s.q.frames == [] ==> audio == video == INVALID_INDEX)
  {
    if s.q.keys != [] && s.q.keys[|s.q.keys| - 1] < |s.q.frames| {
      NextStopSpec(s.q.frames, s.q.keys[|s.q.keys| - 1] + 1, Audio, false);
    }
  }

  lemma AttachSlots(ns: Notifiers, refs: Refs, id: nat, n: Notifier, dataRef: set<nat>)
    requires SlotsOK(ns, refs) && id !in ns
    requires n.readIndex < MAX_RECEIVER_SIZE && n.readIndex !in refs.readRef
    ensures SlotsOK(ns[id := n], refs.(readRef := refs.readRef + {n.readIndex}, dataRef := dataRef))
  {
    var ms := ns[id := n];
    assert forall a | a in ns :: ns[a].readIndex in refs.readRef && ms[a] == ns[a];
    assert (set a | a in ms :: ms[a].readIndex) == refs.readRef + {n.readIndex} by {
      assert id in ms;
      forall x | x in refs.readRef + {n.readIndex}
        ensures x in set a | a in ms :: ms[a].readIndex
      {
        if x != n.readIndex {
          var a :| a in ns && ns[a].readIndex == x;
          assert a in ms;
        }
      }
    }
  }

  lemma AttachCore(s: State, id: nat, keyMode: bool, keyRedirect: bool)
    requires Core(s)
    ensures Core(Attach(s, id, keyMode, keyRedirect))
  {
    var slot := LowestFree(s.refs.readRef, 0);
    LowestFreeSpec(s.refs.readRef, 0);
    if id !in s.q.notifiers && slot < MAX_RECEIVER_SIZE {
      var t := Attach(s, id, keyMode, keyRedirect);
      StartPositionOK(s);
      hide KeysNear, Ordered, ReserveOK, StartPosition;
      AttachSlots(s.q.notifiers, s.refs, id, t.q.notifiers[id], t.refs.dataRef);
      NotifiersCore(s.q, t.q.notifiers);
    }
  }

  lemma DetachSlots(ns: Notifiers, refs: Refs, id: nat)
    requires SlotsOK(ns, refs) && id in ns
    ensures SlotsOK(ns - {id}, refs.(recvRef := refs.recvRef - Bits(ns[id].readIndex, AV),
                                     readRef := refs.readRef - {ns[id].readIndex}))
  {
    var slot := ns[id].readIndex;
    var ms := ns - {id};
    assert (set a | a in ms :: ms[a].readIndex) == refs.readRef - {slot} by {
      forall x | x in refs.readRef - {slot}
        ensures x in set a | a in ms :: ms[a].readIndex
      {
        var a :| a in ns && ns[a].readIndex == x;
        assert a in ms;
      }
    }
  }

  lemma DetachCore(s: State, id: nat)
    requires Core(s)
    ensures Core(Detach(s, id))
  {
    if id in s.q.notifiers {
      hide KeysNear, Ordered, ReserveOK, SlotsOK;
      DetachSlots(s.q.notifiers, s.refs, id);
      NotifiersCore(s.q, s.q.notifiers - {id});
    }
  }

  lemma NotifyReadReadyCore(s: State, id: nat, mediaType: MediaType)
    requires Core(s)
    ensures Core(NotifyReadReady(s, id, mediaType))
  {
    if id in s.q.notifiers {
      assert s.q.notifiers[id].readIndex in s.refs.readRef;
      hide CoreQ, DataAvailable, Before;
    }
  }

  lemma SetNotifierCore(s: State, id: nat, n: Notifier)
    requires Core(s) && id in s.q.notifiers
    requires n == s.q.notifiers[id].(keyMode := n.keyMode, keyRedirect := n.keyRedirect)
    ensures Core(SetNotifier(s, id, n))
  {
    var ns := s.q.notifiers[id := n];
    assert SameSlots(s.q.notifiers, ns);
    assert NotifiersClamped(ns, |s.q.frames|);
    hide KeysNear, Ordered, ReserveOK, SlotsOK, SameSlots, NotifiersClamped;
    SameSlotsKeeps(s.q.notifiers, ns, s.refs);
    NotifiersCore(s.q, ns);
  }

  lemma ClearKeepsSlots(ns: Notifiers, a: Refs, b: Refs)
    requires SlotsOK(ns, a) && a.readRef == b.readRef && b.recvRef <= a.recvRef
    ensures SlotsOK(ns, b)
  {
  }

  lemma ClearDataBitCore(s: State, id: nat, mediaType: MediaType)
    requires Core(s)
    ensures Core(ClearDataBit(s, id, mediaType))
  {
    hide CoreQ, Before, Bits;
    ClearKeepsSlots(s.q.notifiers, s.refs, ClearDataBit(s, id, mediaType).refs);
    hide SlotsOK;
  }

  lemma ClearReadBitCore(s: State, id: nat, mediaType: MediaType)
    requires Core(s)
    ensures Core(ClearReadBit(s, id, mediaType))
  {
    hide CoreQ, Before, Bits;
    ClearKeepsSlots(s.q.notifiers, s.refs, ClearReadBit(s, id, mediaType).refs);
    hide SlotsOK;
  }

  lemma FlagsCore(s: State, t: State)
    requires Core(s) && t == s.(keyOnly := t.keyOnly, redirect := t.redirect, rapid := t.rapid)
    ensures Core(t)
  {
  }

  // ---------------------------------------------------------------- runs

  lemma StepConfig(s: State, op: Op)
    requires !op.OpInput?
    ensures Step(s, op).0.cfg == s.cfg
  {
    if op.OpRead? {
      ReadKeepsRest(s, op.id, op.mediaType);
    }
    hide Attach, Detach, Flush, Read, NotifyReadReady, ClearReadBit, ClearDataBit, ReceiverKeyMode, ReceiverRedirect;
  }

  lemma StepSeq(s: State, op: Op)
    ensures Step(s, op).0.nextSeq == s.nextSeq + if op.OpInput? then 1 else 0
  {
    if op.OpRead? {
      ReadKeepsRest(s, op.id, op.mediaType);
    }
    hide Input, Attach, Detach, Flush, Read, NotifyReadReady, ClearReadBit, ClearDataBit,
      ReceiverKeyMode, ReceiverRedirect;
  }

  lemma InputConfig(s: State, media: MediaData)
    requires Core(s)
    ensures Input(s, media).cfg == s.cfg
  {
    AdmitCore(s, media);
    hide Core, Admit, MakeRoom, Append;
    if Admit(s, media).Some? {
      var t := Admit(s, media).value;
      assert MakeRoom(t, media).cfg == t.cfg by { CoreParts(t); MakeRoomCore(t, media); }
      AppendConfig(MakeRoom(t, media), media);
    }
  }

  lemma CoreParts(s: State)
    requires Core(s)
    ensures CoreSized(s) && CoreQ(s.q) && Before(s.q.frames, s.nextSeq) && SlotsOK(s.q.notifiers, s.refs)
  {
  }

  lemma AppendConfig(s: State, media: MediaData)
    ensures Append(s, media).cfg == s.cfg
  {
  }

  lemma StepCore(s: State, op: Op)
    requires Core(s)
    ensures Core(Step(s, op).0) && Step(s, op).0.cfg == s.cfg
  {
    if op.OpInput? {
      InputConfig(s, op.media);
    } else {
      StepConfig(s, op);
    }
    if op.OpFlush? {
      CoreParts(s);
      FlushCore(s);
      StageCore(s, Flush(s));
    }
    hide Core, CoreStage, Input, Attach, Detach, Read, NotifyReadReady, ClearReadBit, ClearDataBit, Flush, SetNotifier;
    match op
    case OpInput(media) => InputCore(s, media);
    case OpFlush =>
    case OpAttach(id, keyMode, keyRedirect) => AttachCore(s, id, keyMode, keyRedirect);
    case OpDetach(id) => DetachCore(s, id);
    case OpRead(id, mediaType) => ReadCore(s, id, mediaType);
    case OpReady(id, mediaType) => NotifyReadReadyCore(s, id, mediaType);
    case OpClearReadBit(id, mediaType) => ClearReadBitCore(s, id, mediaType);
    case OpClearDataBit(id, mediaType) => ClearDataBitCore(s, id, mediaType);
    case OpReceiverKeyMode(id, enable) =>
      if id in s.q.notifiers {
        var n := s.q.notifiers[id].(keyMode := enable);
        SetNotifierCore(s, id, n);
        ClearDataBitCore(SetNotifier(s, id, n), id, Video);
      }
    case OpReceiverRedirect(id, enable) =>
      if id in s.q.notifiers {
        var n := s.q.notifiers[id].(keyRedirect := enable);
        SetNotifierCore(s, id, n);
        FlagsCore(SetNotifier(s, id, n), Step(s, op).0);
      }
    case OpKeyMode(enable) => FlagsCore(s, Step(s, op).0);
    case OpRedirect(enable) => FlagsCore(s, Step(s, op).0);
    case OpRapid(enable) => FlagsCore(s, Step(s, op).0);
  }

  lemma InitialCore(cfg: Config)
    requires CoreConfig(cfg)
    ensures Core(Initial(cfg))
  {
    assert forall b: nat :: b !in Initial(cfg).refs.readRef;
  }

  lemma {:induction false} RunCore(s: State, ops: seq<Op>)
    requires Core(s)
    ensures Core(Run(s, ops)) && Run(s, ops).cfg == s.cfg
    decreases ops
  {
    hide Core, Step;
    if ops != [] {
      StepCore(s, ops[0]);
      RunCore(Step(s, ops[0]).0, ops[1..]);
    }
  }

  lemma {:induction false} RunOneMore(s: State, ops: seq<Op>, op: Op)
    ensures Run(s, ops + [op]) == Step(Run(s, ops), op).0
    decreases ops
  {
    hide Step;
    var all := ops + [op];
    if ops == [] {
      assert all[1..] == [];
    } else {
      assert all[0] == ops[0] && all[1..] == ops[1..] + [op];
      RunOneMore(Step(s, ops[0]).0, ops[1..], op);
    }
  }

  /** In every reachable state, whatever the configuration: order, ranges and slots are intact. */
  lemma ReachableCore(cfg: Config, ops: seq<Op>)
    requires CoreConfig(cfg)
    ensures Core(Run(Initial(cfg), ops)) && Run(Initial(cfg), ops).cfg == cfg
  {
    InitialCore(cfg);
    RunCore(Initial(cfg), ops);
  }
}
