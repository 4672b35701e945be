/** In-order, at-most-once delivery to a receiver over whole runs, whatever the configuration. */
module DispatcherDelivery {
  import opened Media
  import opened Options
  import opened DispatcherSpec
  import opened DispatcherInvariant
  import opened DispatcherCore

  /** The first position a receiver may still read; an invalid index leaves all of them open. */
  function From(n: Notifier, mediaType: MediaType): nat {
    if ReadIndex(n, mediaType) == INVALID_INDEX then 0 else ReadIndex(n, mediaType)
  }

  /** The frame is newer than input `m`, or it is input `m` and the receiver in `slot` has read it. */
  predicate Beyond(d: DataSpec, slot: nat, m: int) {
    d.seqNo > m || (d.seqNo == m && slot in d.reserve)
  }

  ghost predicate AllBeyond(frames: seq<DataSpec>, from: nat, slot: nat, m: int) {
    forall p | from <= p < |frames| :: Beyond(frames[p], slot, m)
  }

  /** Everything receiver `id` may still read lies beyond input `m`, the last one it was given. */
  ghost predicate Ahead(q: Queue, id: nat, mediaType: MediaType, m: int) {
    && id in q.notifiers
    && q.notifiers[id].audioIndex <= INVALID_INDEX && q.notifiers[id].videoIndex <= INVALID_INDEX
    && AllBeyond(q.frames, From(q.notifiers[id], mediaType), q.notifiers[id].readIndex, m)
  }

  // ---------------------------------------------------------------- pops

  lemma PopKeepsAhead(q: Queue, audio: bool, id: nat, mediaType: MediaType, m: int)
    requires q.frames != [] && Ahead(q, id, mediaType, m)
    ensures Ahead(PopAs(q, audio), id, mediaType, m)
  {
    var t := PopAs(q, audio);
    assert t.notifiers[id] == DecNotifier(q.notifiers[id]);
    assert From(t.notifiers[id], mediaType) + 1 >= From(q.notifiers[id], mediaType);
    assert forall p | 0 <= p < |t.frames| :: t.frames[p] == q.frames[p + 1];
  }

  lemma {:induction false} PopHeadsKeepsAhead(q: Queue, n: nat, id: nat, mediaType: MediaType, m: int)
    requires Ahead(q, id, mediaType, m)
    ensures Ahead(PopHeads(q, n), id, mediaType, m)
    decreases n
  {
    if n > 0 && q.frames != [] {
      PopKeepsAhead(q, IsAudio(q.frames[0].media), id, mediaType, m);
      PopHeadsKeepsAhead(PopHead(q), n - 1, id, mediaType, m);
    }
  }

  lemma {:induction false} PopAudiosKeepsAhead(q: Queue, n: nat, id: nat, mediaType: MediaType, m: int)
    requires Ahead(q, id, mediaType, m)
    ensures Ahead(PopAudios(q, n), id, mediaType, m)
    decreases n
  {
    if n > 0 && q.frames != [] {
      PopKeepsAhead(q, true, id, mediaType, m);
      PopAudiosKeepsAhead(PopAs(q, true), n - 1, id, mediaType, m);
    }
  }

  lemma DeleteHeadsKeepsAhead(s: State, n: nat, force: bool, id: nat, mediaType: MediaType, m: int)
    requires Ahead(s.q, id, mediaType, m)
    ensures Ahead(DeleteHeads(s, n, force).q, id, mediaType, m)
  {
    var k := DeleteLoopIsPopHeads(s.q, s.refs.readRef, n, force);
    PopHeadsKeepsAhead(s.q, k, id, mediaType, m);
  }

  lemma EraseKeepsAhead(s: State, id: nat, mediaType: MediaType, m: int)
    requires Ahead(s.q, id, mediaType, m)
    ensures Ahead(EraseOldGop(s).q, id, mediaType, m)
  {
    if s.cfg.mode != AudioOnly {
      hide DeleteHeads;
      var k := LastKey(s.q.keys);
      DeleteHeadsKeepsAhead(s.(q := s.q.(keys := if k > 0 then [k] else s.q.keys)), k, false, id, mediaType, m);
      var t := ErasePolitely(s);
      DeleteHeadsKeepsAhead(t, NextDeleteVideo(t.q.frames), true, id, mediaType, m);
    }
  }

  lemma MakeRoomKeepsAhead(s: State, media: MediaData, id: nat, mediaType: MediaType, m: int)
    requires Ahead(s.q, id, mediaType, m)
    ensures Ahead(MakeRoom(s, media).q, id, mediaType, m)
  {
    hide Ahead, EraseOldGop, PopHeads, PopAudios;
    var t := Extend(s);
    PopAudiosKeepsAhead(t.q, Excess(|t.q.frames|), id, mediaType, m);
    var u := Restore(t);
    EraseKeepsAhead(u, id, mediaType, m);
    var v := if IsKeyVideo(media) && !u.keyOnly then EraseOldGop(u) else u;
    PopHeadsKeepsAhead(v.q, (if IsVideo(media) then NextDeleteVideo(v.q.frames) else 1) + 1, id, mediaType, m);
  }

  // ---------------------------------------------------------------- writes

  /** A push leaves a receiver's start where it was or moves it forward, at most to the new frame. */
  lemma AppendMovesForward(s: State, media: MediaData, last: nat, id: nat, mediaType: MediaType)
    requires id in s.q.notifiers && NotifiersClamped(s.q.notifiers, last + 1) && last < INVALID_INDEX
    ensures id in AppendNotifiers(s, media, last)
    ensures var n := AppendNotifiers(s, media, last)[id];
            && From(n, mediaType) >= From(s.q.notifiers[id], mediaType)
            && n.readIndex == s.q.notifiers[id].readIndex
            && n.audioIndex <= INVALID_INDEX && n.videoIndex <= INVALID_INDEX
  {
  }

  lemma MarkedBeyond(a: seq<DataSpec>, b: seq<DataSpec>, from: nat, to: nat, slot: nat, m: int)
    requires Marked(a, b) && AllBeyond(a, from, slot, m) && from <= to
    ensures AllBeyond(b, to, slot, m)
  {
  }

  lemma RedirectKeepsAhead(q: Queue, rapid: bool, id: nat, mediaType: MediaType, m: int)
    requires CoreQ(q) && SlotsBounded(q.notifiers) && 0 < |q.frames| <= INVALID_INDEX && Ahead(q, id, mediaType, m)
    requires q.keys != [] ==> q.keys[|q.keys| - 1] == |q.frames| - 1
    ensures Ahead(OnKeyRedirect(q, rapid), id, mediaType, m)
  {
    OnKeyRedirectCore(q, rapid);
    var t := OnKeyRedirect(q, rapid);
    var n := q.notifiers[id];
    hide CoreQ, Marked, SameSlots, AllBeyond;
    if q.keys != [] {
      assert NotifiersClamped(q.notifiers, |q.frames|) by { CoreQParts(q); }
      assert t.notifiers[id] == RedirectNotifier(n, |q.frames| - 1, rapid);
      MarkedBeyond(q.frames, t.frames, From(n, mediaType), From(t.notifiers[id], mediaType), n.readIndex, m);
    }
  }

  /** The silent eviction shifts the frames towards the receiver's index, never past it. */
  lemma PushBeyond(frames: seq<DataSpec>, capacity: nat, d: DataSpec, from: nat, to: nat, slot: nat, m: int)
    requires AllBeyond(frames, from, slot, m) && from <= to && m < d.seqNo
    ensures AllBeyond(Kept(frames, capacity) + [d], to, slot, m)
  {
    var kept := Kept(frames, capacity);
    assert forall p | 0 <= p < |kept| :: (kept + [d])[p] == frames[|frames| - |kept| + p];
  }

  lemma AppendQueueKeepsAhead(s: State, media: MediaData, id: nat, mediaType: MediaType, m: int)
    requires Core(s) && Ahead(s.q, id, mediaType, m) && m < s.nextSeq
    ensures Ahead(AppendQueue(s, media), id, mediaType, m)
  {
    hide CoreQ, CoreSized, Before, SlotsOK, AppendNotifiers, AllBeyond, NotifiersClamped, SameSlots, Kept, PushBack;
    var q := AppendQueue(s, media);
    var n := s.q.notifiers[id];
    AppendQueueCore(s, media);
    BoundFits(s);
    CoreQParts(s.q);
    ClampedGrows(s.q.notifiers, |s.q.frames|);
    AppendMovesForward(s, media, |q.frames| - 1, id, mediaType);
    PushBeyond(s.q.frames, s.z.capacity, NewFrame(s, media), From(n, mediaType),
               From(q.notifiers[id], mediaType), n.readIndex, m);
  }

  lemma BoundFits(s: State)
    requires CoreSized(s)
    ensures Bound(s.cfg) < INVALID_INDEX && |s.q.frames| <= Bound(s.cfg)
  {
  }

  lemma AppendKeepsAhead(s: State, media: MediaData, id: nat, mediaType: MediaType, m: int)
    requires Core(s) && Ahead(s.q, id, mediaType, m) && m < s.nextSeq
    ensures Ahead(Append(s, media).q, id, mediaType, m)
  {
    hide CoreQ, CoreSized, SlotsOK, Before, AppendNotifiers, SameSlots, Ahead, Jumped, ReadyBits, Kept, PushBack;
    var q := AppendQueue(s, media);
    AppendQueueKeepsAhead(s, media, id, mediaType, m);
    AppendQueueCore(s, media);
    BoundFits(s);
    SameSlotsKeeps(s.q.notifiers, q.notifiers, s.refs);
    SlotsAreBounded(q.notifiers, s.refs);
    if IsKeyVideo(media) && s.redirect {
      RedirectKeepsAhead(q, s.rapid, id, mediaType, m);
    }
  }

  lemma WriteKeepsAhead(s: State, media: MediaData, id: nat, mediaType: MediaType, m: int)
    requires Core(s) && Ahead(s.q, id, mediaType, m) && m < s.nextSeq
    ensures Ahead(Write(s, media).q, id, mediaType, m)
  {
    hide Core, CoreStage, MakeRoom, Ahead, Append;
    CoreParts(s);
    MakeRoomKeepsAhead(s, media, id, mediaType, m);
    MakeRoomCore(s, media);
    var t := MakeRoom(s, media);
    StageCore(s, t);
    StageSeq(s, t);
    AppendKeepsAhead(t, media, id, mediaType, m);
  }

  lemma StageSeq(s: State, t: State)
    requires CoreStage(s, t)
    ensures t.nextSeq == s.nextSeq
  {
  }

  lemma FlushAhead(s: State, id: nat, mediaType: MediaType, m: int)
    requires Ahead(s.q, id, mediaType, m)
    ensures Ahead(Flush(s).q, id, mediaType, m)
  {
  }

  lemma InputKeepsAhead(s: State, media: MediaData, id: nat, mediaType: MediaType, m: int)
    requires Core(s) && Ahead(s.q, id, mediaType, m) && m < s.nextSeq
    ensures Ahead(Input(s, media).q, id, mediaType, m)
  {
    AdmitCore(s, media);
    FlushAhead(s, id, mediaType, m);
    hide Core, Write, Ahead, Flush, Admit;
    if Admit(s, media).Some? {
      WriteKeepsAhead(Admit(s, media).value, media, id, mediaType, m);
    }
  }

  // ---------------------------------------------------------------- reads

  /** Moving the receiver's own read index never moves it back. */
  lemma AdvanceKeepsAhead(s: State, id: nat, mediaType: MediaType, m: int)
    requires Ahead(s.q, id, mediaType, m) && |s.q.frames| <= INVALID_INDEX
    requires ReadIndex(s.q.notifiers[id], mediaType) < |s.q.frames|
    ensures Ahead(Advance(s, id, ReadIndex(s.q.notifiers[id], mediaType), mediaType).q, id, mediaType, m)
  {
    var n := s.q.notifiers[id];
    var i := ReadIndex(n, mediaType);
    AdvanceMarks(s, id, i, mediaType);
    NextStopSpec(s.q.frames, i + 1, mediaType, KeysOnly(s, id));
    var t := Advance(s, id, i, mediaType);
    hide Marked, AllBeyond, NextStop, MarkRange;
    MarkedBeyond(s.q.frames, t.q.frames, From(n, mediaType), From(t.q.notifiers[id], mediaType), n.readIndex, m);
  }

  /** Once the frame at the read index is marked, everything still to be read lies beyond it. */
  lemma MarkedHeadIsBeyond(frames: seq<DataSpec>, i: nat, slot: nat)
    requires Ordered(frames) && i < |frames|
    ensures AllBeyond(frames[i := AddMarks(frames[i], {slot})], i, slot, frames[i].seqNo)
  {
  }

  lemma CallbackBeyond(s: State, id: nat, mediaType: MediaType, m: int)
    requires Ordered(s.q.frames) && |s.q.frames| <= INVALID_INDEX
    requires Ahead(s.q, id, mediaType, m) && HasFrame(s, id, mediaType)
    ensures var d := s.q.frames[ReadIndex(s.q.notifiers[id], mediaType)];
            if Delivers(s, id, mediaType)
            then m < d.seqNo && Ahead(AfterCallback(s, id, mediaType).q, id, mediaType, d.seqNo)
            else Ahead(AfterCallback(s, id, mediaType).q, id, mediaType, m)
  {
    var n := s.q.notifiers[id];
    var i := ReadIndex(n, mediaType);
    MarkedHeadIsBeyond(s.q.frames, i, n.readIndex);
    assert From(n, mediaType) == i;
    assert Beyond(s.q.frames[i], n.readIndex, m);
  }

  /** A read delivers at most one frame, newer than all earlier ones, and keeps the receiver ahead of it. */
  lemma ReadDelivers(s: State, id: nat, mediaType: MediaType, m: int)
    requires Core(s) && Ahead(s.q, id, mediaType, m)
    ensures var (t, out) := Read(s, id, mediaType);
            match out
            case None => Ahead(t.q, id, mediaType, m)
            case Some(d) => m < d.seqNo < s.nextSeq && Ahead(t.q, id, mediaType, d.seqNo)
  {
    hide Core, CoreQ, Ahead, Advance, Delivers, ReadFrames, ReadIndex;
    if HasFrame(s, id, mediaType) {
      var i := ReadIndex(s.q.notifiers[id], mediaType);
      var u := AfterCallback(s, id, mediaType);
      ReadParts(s, i);
      assert |u.q.frames| == |s.q.frames| by { CallbackShape(s, id, mediaType); }
      CallbackBeyond(s, id, mediaType, m);
      AdvanceKeepsAhead(u, id, mediaType, if Delivers(s, id, mediaType) then s.q.frames[i].seqNo else m);
    }
  }

  lemma ReadParts(s: State, i: nat)
    requires Core(s) && i < |s.q.frames|
    ensures Ordered(s.q.frames) && |s.q.frames| <= INVALID_INDEX && s.q.frames[i].seqNo < s.nextSeq
  {
  }

  lemma ReadKeepsOthers(s: State, other: nat, otherType: MediaType, id: nat, mediaType: MediaType, m: int)
    requires other != id && Ahead(s.q, id, mediaType, m)
    ensures Ahead(Read(s, other, otherType).0.q, id, mediaType, m)
  {
    if HasFrame(s, other, otherType) {
      var n := s.q.notifiers[id];
      var t := Read(s, other, otherType).0;
      ReadMarks(s, other, otherType);
      hide Marked, AllBeyond, ReadIndex, Delivers;
      MarkedBeyond(s.q.frames, t.q.frames, From(n, mediaType), From(n, mediaType), n.readIndex, m);
    }
  }

  // ---------------------------------------------------------------- runs

  /** Receiver `id` stays attached and reads in one mode. */
  predicate OneMode(op: Op, id: nat, mediaType: MediaType) {
    && (op.OpDetach? ==> op.id != id)
    && (op.OpRead? && op.id == id ==> op.mediaType == mediaType)
  }

  /** Same frames, and the receiver at the same place. */
  ghost predicate SameView(q: Queue, t: Queue, id: nat) {
    && t.frames == q.frames && id in q.notifiers && id in t.notifiers
    && t.notifiers[id].readIndex == q.notifiers[id].readIndex
    && t.notifiers[id].audioIndex == q.notifiers[id].audioIndex
    && t.notifiers[id].videoIndex == q.notifiers[id].videoIndex
  }

  lemma ReceiverOpsKeepView(s: State, op: Op, id: nat)
    requires id in s.q.notifiers && !op.OpInput? && !op.OpRead? && !op.OpFlush?
    requires op.OpDetach? ==> op.id != id
    ensures SameView(s.q, Step(s, op).0.q, id)
  {
    if op.OpAttach? {
      AttachKeepsView(s, op.id, op.keyMode, op.keyRedirect, id);
    } else if op.OpReceiverKeyMode? {
      KeyModeKeepsView(s, op.id, op.enable, id);
    } else if op.OpReceiverRedirect? {
      RedirectOpKeepsView(s, op.id, op.enable, id);
    }
    hide Attach, NotifyReadReady, ClearReadBit, ClearDataBit, ReceiverKeyMode, ReceiverRedirect;
  }

  lemma AttachKeepsView(s: State, other: nat, keyMode: bool, keyRedirect: bool, id: nat)
    requires id in s.q.notifiers
    ensures SameView(s.q, Attach(s, other, keyMode, keyRedirect).q, id)
  {
    hide StartPosition, LowestFree;
  }

  lemma KeyModeKeepsView(s: State, other: nat, enable: bool, id: nat)
    requires id in s.q.notifiers
    ensures SameView(s.q, ReceiverKeyMode(s, other, enable).q, id)
  {
    hide ClearDataBit;
  }

  lemma RedirectOpKeepsView(s: State, other: nat, enable: bool, id: nat)
    requires id in s.q.notifiers
    ensures SameView(s.q, ReceiverRedirect(s, other, enable).q, id)
  {
  }

  lemma SameViewKeepsAhead(q: Queue, t: Queue, id: nat, mediaType: MediaType, m: int)
    requires SameView(q, t, id) && Ahead(q, id, mediaType, m)
    ensures Ahead(t, id, mediaType, m)
  {
  }

  lemma StepKeepsAhead(s: State, op: Op, id: nat, mediaType: MediaType, m: int)
    requires Core(s) && Ahead(s.q, id, mediaType, m) && m < s.nextSeq
    requires OneMode(op, id, mediaType) && !(op.OpRead? && op.id == id)
    ensures Ahead(Step(s, op).0.q, id, mediaType, m)
  {
    if op.OpInput? {
      InputKeepsAhead(s, op.media, id, mediaType, m);
    } else if op.OpRead? {
      ReadKeepsOthers(s, op.id, op.mediaType, id, mediaType, m);
    } else if op.OpFlush? {
      FlushAhead(s, id, mediaType, m);
    } else {
      hide Core, Ahead, Step;
      assert id in s.q.notifiers by { AheadAttached(s.q, id, mediaType, m); }
      ReceiverOpsKeepView(s, op, id);
      SameViewKeepsAhead(s.q, Step(s, op).0.q, id, mediaType, m);
    }
  }

  lemma AheadAttached(q: Queue, id: nat, mediaType: MediaType, m: int)
    requires Ahead(q, id, mediaType, m)
    ensures id in q.notifiers
  {
  }

  ghost predicate Increasing(ds: seq<DataSpec>) {
    forall i, j | 0 <= i < j < |ds| :: ds[i].seqNo < ds[j].seqNo
  }

  ghost predicate After(ds: seq<DataSpec>, m: int) {
    forall i | 0 <= i < |ds| :: ds[i].seqNo > m
  }

  /** What receiver `id` is handed in one step. */
  function Handed(s: State, op: Op, id: nat): seq<DataSpec> {
    var out := Step(s, op).1;
    if op.OpRead? && op.id == id && out.Some? then [out.value] else []
  }

  /** The number of the last frame handed over, after one more step. */
  function LastHanded(s: State, op: Op, id: nat, m: int): int {
    if Handed(s, op, id) == [] then m else Handed(s, op, id)[0].seqNo
  }

  lemma StepHands(s: State, op: Op, id: nat, mediaType: MediaType, m: int)
    requires Core(s) && Ahead(s.q, id, mediaType, m) && m < s.nextSeq && OneMode(op, id, mediaType)
    ensures |Handed(s, op, id)| <= 1 && After(Handed(s, op, id), m)
    ensures m <= LastHanded(s, op, id, m) < Step(s, op).0.nextSeq
    ensures Ahead(Step(s, op).0.q, id, mediaType, LastHanded(s, op, id, m))
  {
    StepSeq(s, op);
    if op.OpRead? && op.id == id {
      ReadDelivers(s, id, mediaType, m);
      hide Core, Ahead, Read;
    } else {
      StepKeepsAhead(s, op, id, mediaType, m);
      hide Core, Ahead, Step;
    }
  }

  lemma {:induction false} DeliveredFrom(s: State, ops: seq<Op>, id: nat, mediaType: MediaType, m: int)
    requires Core(s) && Ahead(s.q, id, mediaType, m) && m < s.nextSeq
    requires forall op | op in ops :: OneMode(op, id, mediaType)
    ensures Increasing(Delivered(s, ops, id)) && After(Delivered(s, ops, id), m)
    decreases ops
  {
    if ops != [] {
      var t := Step(s, ops[0]).0;
      var last := LastHanded(s, ops[0], id, m);
      StepCore(s, ops[0]);
      StepHands(s, ops[0], id, mediaType, m);
      hide Core, Ahead, Step, OneMode;
      DeliveredFrom(t, ops[1..], id, mediaType, last);
      assert Delivered(s, ops, id) == Handed(s, ops[0], id) + Delivered(t, ops[1..], id);
    }
  }

  /**
   * In every run, the frames handed to a receiver that stays attached and reads in one mode have strictly
   * increasing input numbers, so none is delivered twice: reads, evictions, flushes, activation and key
   * redirects of this and of other receivers notwithstanding.
   */
  lemma DeliveryInOrder(cfg: Config, before: seq<Op>, ops: seq<Op>, id: nat, mediaType: MediaType)
    requires CoreConfig(cfg) && id in Run(Initial(cfg), before).q.notifiers
    requires forall op | op in ops :: OneMode(op, id, mediaType)
    ensures Increasing(Delivered(Run(Initial(cfg), before), ops, id))
  {
    ReachableCore(cfg, before);
    DeliveredFrom(Run(Initial(cfg), before), ops, id, mediaType, -1);
  }
}
