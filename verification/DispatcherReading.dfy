/** What reads deliver: a drained buffer as a filter, key mode, and faithful contents. */
module DispatcherReading {
  import opened Media
  import opened Options
  import opened DispatcherSpec
  import opened DispatcherInvariant
  import opened DispatcherCore
  import opened DispatcherDelivery

  // ---------------------------------------------------------------- draining

  /** `n` successive reads with nothing in between. */
  function Reads(id: nat, mediaType: MediaType, n: nat): seq<Op> {
    if n == 0 then [] else [OpRead(id, mediaType)] + Reads(id, mediaType, n - 1)
  }

  /** The frames at or after `i` that the receiver stops at and has not read. */
  function Unread(frames: seq<DataSpec>, i: nat, slot: nat, mediaType: MediaType, keysOnly: bool): seq<DataSpec>
    decreases |frames| - i
  {
    if i >= |frames| then []
    else (if Stops(frames[i].media, mediaType, keysOnly) && slot !in frames[i].reserve then [frames[i]] else []) +
         Unread(frames, i + 1, slot, mediaType, keysOnly)
  }

  /** What a drain from index `i` yields: the frame at `i`, whatever its kind, then the filtered rest. */
  function Drained(frames: seq<DataSpec>, i: nat, slot: nat, mediaType: MediaType, keysOnly: bool): seq<DataSpec>
    requires i < |frames|
  {
    (if Deliverable(frames[i], slot, mediaType, keysOnly) then [frames[i]] else []) +
    Unread(frames, i + 1, slot, mediaType, keysOnly)
  }

  lemma UnreadUnfold(frames: seq<DataSpec>, i: nat, slot: nat, mediaType: MediaType, keysOnly: bool)
    requires i < |frames|
    ensures Unread(frames, i, slot, mediaType, keysOnly) ==
            (if Stops(frames[i].media, mediaType, keysOnly) && slot !in frames[i].reserve then [frames[i]] else []) +
            Unread(frames, i + 1, slot, mediaType, keysOnly)
  {
  }

  lemma UnreadBeyond(frames: seq<DataSpec>, i: nat, slot: nat, mediaType: MediaType, keysOnly: bool)
    requires i >= |frames|
    ensures Unread(frames, i, slot, mediaType, keysOnly) == []
  {
  }

  lemma {:induction false} UnreadSkips(frames: seq<DataSpec>, i: nat, j: nat, slot: nat,
                                       mediaType: MediaType, keysOnly: bool)
    requires i <= j <= |frames|
    requires forall k | i <= k < j :: !Stops(frames[k].media, mediaType, keysOnly)
    ensures Unread(frames, i, slot, mediaType, keysOnly) == Unread(frames, j, slot, mediaType, keysOnly)
    decreases j - i
  {
    if i < j {
      UnreadSkips(frames, i + 1, j, slot, mediaType, keysOnly);
    }
  }

  lemma {:induction false} UnreadAgrees(a: seq<DataSpec>, b: seq<DataSpec>, i: nat, slot: nat,
                                        mediaType: MediaType, keysOnly: bool)
    requires |a| == |b| && forall k | i <= k < |a| :: a[k] == b[k]
    ensures Unread(a, i, slot, mediaType, keysOnly) == Unread(b, i, slot, mediaType, keysOnly)
    decreases |a| - i
  {
    hide Stops, Unread;
    if i >= |a| {
      UnreadBeyond(a, i, slot, mediaType, keysOnly);
      UnreadBeyond(b, i, slot, mediaType, keysOnly);
    } else {
      UnreadUnfold(a, i, slot, mediaType, keysOnly);
      UnreadUnfold(b, i, slot, mediaType, keysOnly);
      UnreadAgrees(a, b, i + 1, slot, mediaType, keysOnly);
    }
  }

  /** Marking the frame at `i` does not change where the next stop is. */
  lemma {:induction false} NextStopAgrees(a: seq<DataSpec>, b: seq<DataSpec>, i: nat,
                                          mediaType: MediaType, keysOnly: bool)
    requires |a| == |b| && forall k | i <= k < |a| :: a[k].media == b[k].media
    ensures NextStop(a, i, mediaType, keysOnly) == NextStop(b, i, mediaType, keysOnly)
    decreases |a| - i
  {
    if i < |a| {
      NextStopAgrees(a, b, i + 1, mediaType, keysOnly);
    }
  }

  predicate CanRead(s: State, id: nat, mediaType: MediaType) {
    HasFrame(s, id, mediaType) && |s.q.frames| <= INVALID_INDEX
  }

  /** What one read does to the receiver: the delivery, the slot, the mode and the new index. */
  ghost predicate ReadMoves(s: State, id: nat, mediaType: MediaType)
    requires CanRead(s, id, mediaType)
  {
    var n := s.q.notifiers[id];
    var i := ReadIndex(n, mediaType);
    var next := NextIndex(s.q.frames, i, mediaType, KeysOnly(s, id));
    var (t, out) := Read(s, id, mediaType);
    && out == (if Deliverable(s.q.frames[i], n.readIndex, mediaType, KeysOnly(s, id))
               then Some(s.q.frames[i]) else None)
    && CanRead(t, id, mediaType)
    && t.q.notifiers[id].readIndex == n.readIndex && KeysOnly(t, id) == KeysOnly(s, id)
    && i <= next < |s.q.frames|
    && ReadIndex(t.q.notifiers[id], mediaType) == next
  }

  /** What one read does to the frames. */
  ghost predicate ReadTouches(s: State, id: nat, mediaType: MediaType)
    requires CanRead(s, id, mediaType)
  {
    var slot := s.q.notifiers[id].readIndex;
    var i := ReadIndex(s.q.notifiers[id], mediaType);
    var next := NextIndex(s.q.frames, i, mediaType, KeysOnly(s, id));
    var frames := Read(s, id, mediaType).0.q.frames;
    && |frames| == |s.q.frames|
    && !Deliverable(frames[i], slot, mediaType, KeysOnly(s, id))
    && (forall k | i < k < |frames| :: frames[k].media == s.q.frames[k].media)
    && (forall k | i < k < |frames| && next <= k :: frames[k] == s.q.frames[k])
    && (KeysOnly(s, id) && mediaType == Video ==> forall k | i < k < next :: slot in frames[k].reserve)
  }

  lemma ReadOnce(s: State, id: nat, mediaType: MediaType)
    requires CanRead(s, id, mediaType)
    ensures ReadMoves(s, id, mediaType) && ReadTouches(s, id, mediaType)
  {
    var i := ReadIndex(s.q.notifiers[id], mediaType);
    var t := AfterCallback(s, id, mediaType);
    NextStopSpec(s.q.frames, i + 1, mediaType, KeysOnly(s, id));
    NextStopAgrees(t.q.frames, s.q.frames, i + 1, mediaType, KeysOnly(s, id));
    hide Stops, NextStop, Deliverable, ReadIndex;
    ReadMovesHolds(s, id, mediaType);
    ReadTouchesHolds(s, id, mediaType);
  }

  /** Marking the frame at the read index leaves the next stop where it was. */
  ghost predicate SameNext(s: State, id: nat, mediaType: MediaType)
    requires CanRead(s, id, mediaType)
  {
    var i := ReadIndex(s.q.notifiers[id], mediaType);
    var next := NextIndex(s.q.frames, i, mediaType, KeysOnly(s, id));
    NextIndex(AfterCallback(s, id, mediaType).q.frames, i, mediaType, KeysOnly(s, id)) == next &&
    i <= next < |s.q.frames|
  }

  lemma ReadMovesHolds(s: State, id: nat, mediaType: MediaType)
    requires CanRead(s, id, mediaType) && SameNext(s, id, mediaType)
    ensures ReadMoves(s, id, mediaType)
  {
    hide Deliverable, NextIndex;
  }

  lemma ReadTouchesHolds(s: State, id: nat, mediaType: MediaType)
    requires CanRead(s, id, mediaType) && SameNext(s, id, mediaType)
    ensures ReadTouches(s, id, mediaType)
  {
    hide NextIndex, ReadIndex;
  }

  /** The frames of `b` are those of `a` from `next` on, and nothing between `i` and `next` is a stop. */
  lemma DrainedMoves(a: seq<DataSpec>, b: seq<DataSpec>, i: nat, next: nat, slot: nat,
                     mediaType: MediaType, keysOnly: bool)
    requires i < next < |a| == |b|
    requires forall k | next <= k < |a| :: a[k] == b[k]
    requires forall k | i < k < next :: !Stops(a[k].media, mediaType, keysOnly)
    requires Stops(a[next].media, mediaType, keysOnly)
    ensures Unread(a, i + 1, slot, mediaType, keysOnly) == Drained(b, next, slot, mediaType, keysOnly)
  {
    UnreadSkips(a, i + 1, next, slot, mediaType, keysOnly);
    UnreadAgrees(a, b, next + 1, slot, mediaType, keysOnly);
    StopIsDeliverable(a[next], slot, mediaType, keysOnly);
  }

  /** Without a next stop behind `i` nothing is left to read there, in `b` as in `a`. */
  lemma DrainedEnds(a: seq<DataSpec>, b: seq<DataSpec>, i: nat, slot: nat, mediaType: MediaType, keysOnly: bool)
    requires i < |a| == |b|
    requires forall k | i < k < |a| :: a[k].media == b[k].media
    requires NextStop(a, i + 1, mediaType, keysOnly) == |a|
    ensures Unread(a, i + 1, slot, mediaType, keysOnly) == []
    ensures NextIndex(b, i, mediaType, keysOnly) == i
  {
    NextStopSpec(a, i + 1, mediaType, keysOnly);
    UnreadSkips(a, i + 1, |a|, slot, mediaType, keysOnly);
    UnreadEnds(a, slot, mediaType, keysOnly);
    NextStopAgrees(b, a, i + 1, mediaType, keysOnly);
  }

  /** After one read: either the drain goes on from the new index, or it is over. */
  ghost predicate DrainStep(s: State, t: State, id: nat, mediaType: MediaType)
    requires CanRead(s, id, mediaType)
  {
    var slot := s.q.notifiers[id].readIndex;
    var keysOnly := KeysOnly(s, id);
    var i := ReadIndex(s.q.notifiers[id], mediaType);
    && CanRead(t, id, mediaType) && |t.q.frames| == |s.q.frames|
    && t.q.notifiers[id].readIndex == slot && KeysOnly(t, id) == keysOnly
    && var next := ReadIndex(t.q.notifiers[id], mediaType);
    && i <= next
    && Unread(s.q.frames, i + 1, slot, mediaType, keysOnly) ==
       (if next > i then Drained(t.q.frames, next, slot, mediaType, keysOnly) else [])
    && (next == i ==> !Deliverable(t.q.frames[i], slot, mediaType, keysOnly) &&
                      NextIndex(t.q.frames, i, mediaType, keysOnly) == i)
  }

  lemma DrainSteps(s: State, id: nat, mediaType: MediaType)
    requires CanRead(s, id, mediaType)
    ensures DrainStep(s, Read(s, id, mediaType).0, id, mediaType)
  {
    var slot := s.q.notifiers[id].readIndex;
    var keysOnly := KeysOnly(s, id);
    var i := ReadIndex(s.q.notifiers[id], mediaType);
    var next := NextIndex(s.q.frames, i, mediaType, keysOnly);
    NextStopSpec(s.q.frames, i + 1, mediaType, keysOnly);
    ReadOnce(s, id, mediaType);
    var t := Read(s, id, mediaType).0;
    hide Read, ReadIndex, Deliverable, Stops, NextStop, Unread, Drained;
    if next > i {
      DrainedMoves(s.q.frames, t.q.frames, i, next, slot, mediaType, keysOnly);
    } else {
      DrainedEnds(s.q.frames, t.q.frames, i, slot, mediaType, keysOnly);
    }
  }

  /** The drain in terms of the stops of a read. */
  lemma {:induction false} DrainIsDrained(s: State, id: nat, mediaType: MediaType, n: nat)
    requires CanRead(s, id, mediaType) && n >= |s.q.frames| - ReadIndex(s.q.notifiers[id], mediaType)
    ensures Delivered(s, Reads(id, mediaType, n), id) ==
            Drained(s.q.frames, ReadIndex(s.q.notifiers[id], mediaType), s.q.notifiers[id].readIndex,
                    mediaType, KeysOnly(s, id))
    decreases n
  {
    hide Read, ReadIndex, Delivers, Delivered, Reads, NextIndex, Unread, Drained, KeysOnly, Deliverable;
    DeliveredReads(s, id, mediaType, n);
    DrainSteps(s, id, mediaType);
    DrainHead(s, id, mediaType);
    var t := Read(s, id, mediaType).0;
    if ReadIndex(t.q.notifiers[id], mediaType) > ReadIndex(s.q.notifiers[id], mediaType) {
      DrainIsDrained(t, id, mediaType, n - 1);
    } else {
      Exhausted(t, id, mediaType, n - 1);
    }
  }

  /** Is a frame for a receiver of one slot, one kind of media, and perhaps key frames only, and not marked by it? */
  predicate Wanted(d: DataSpec, slot: nat, mediaType: MediaType, keysOnly: bool) {
    && slot !in d.reserve
    && (mediaType == AV || d.media.mediaType == mediaType)
    && (keysOnly && mediaType == Video ==> d.media.keyFrame)
  }

  function Filtered(frames: seq<DataSpec>, slot: nat, mediaType: MediaType, keysOnly: bool): seq<DataSpec> {
    if frames == [] then []
    else (if Wanted(frames[0], slot, mediaType, keysOnly) then [frames[0]] else []) +
         Filtered(frames[1..], slot, mediaType, keysOnly)
  }

  /** Reads go by the index of their kind, and mixed reads by the smaller one; the invalid index is the greatest. */
  ghost predicate StartsAt(n: Notifier, mediaType: MediaType, i: nat) {
    match mediaType
    case Audio => i == n.audioIndex
    case Video => i == n.videoIndex
    case AV => (i == n.audioIndex || i == n.videoIndex) && i <= n.audioIndex && i <= n.videoIndex
  }

  lemma StartsAtReadIndex(n: Notifier, mediaType: MediaType, i: nat)
    requires StartsAt(n, mediaType, i) && i < INVALID_INDEX
    ensures ReadIndex(n, mediaType) == i
  {
  }

  lemma {:induction false} UnreadIsFiltered(frames: seq<DataSpec>, i: nat, slot: nat,
                                            mediaType: MediaType, keysOnly: bool)
    requires i <= |frames|
    ensures Unread(frames, i, slot, mediaType, keysOnly) == Filtered(frames[i..], slot, mediaType, keysOnly)
    decreases |frames| - i
  {
    if i < |frames| {
      UnreadIsFiltered(frames, i + 1, slot, mediaType, keysOnly);
      assert frames[i..][1..] == frames[i + 1..];
    }
  }

  /**
   * Draining refines a filter: after enough reads with no write in between, a receiver has been given exactly
   * the frame at its index, if that is unmarked, and the later unmarked frames of its kind, in buffer order;
   * further reads deliver nothing. Where only key frames are wanted, by the dispatcher or by the receiver, a video
   * read gives these alone.
   */
  lemma DrainIsFilter(s: State, id: nat, mediaType: MediaType, n: nat, i: nat)
    requires id in s.q.notifiers && StartsAt(s.q.notifiers[id], mediaType, i)
    requires i < |s.q.frames| <= INVALID_INDEX && n >= |s.q.frames| - i
    ensures var slot := s.q.notifiers[id].readIndex;
            var keysOnly := s.keyOnly || s.q.notifiers[id].keyMode;
            var current := s.q.frames[i];
            Delivered(s, Reads(id, mediaType, n), id) ==
            (if slot !in current.reserve &&
                (keysOnly && mediaType == Video ==> current.media.mediaType == Video && current.media.keyFrame)
             then [current] else []) +
            Filtered(s.q.frames[i + 1..], slot, mediaType, keysOnly)
  {
    StartsAtReadIndex(s.q.notifiers[id], mediaType, i);
    hide Delivered, Reads, Unread, Filtered, ReadIndex;
    DrainIsDrained(s, id, mediaType, n);
    UnreadIsFiltered(s.q.frames, i + 1, s.q.notifiers[id].readIndex, mediaType,
                     s.keyOnly || s.q.notifiers[id].keyMode);
  }

  /** The first read of a drain hands over the head of the filtered sequence. */
  lemma DrainHead(s: State, id: nat, mediaType: MediaType)
    requires CanRead(s, id, mediaType)
    ensures var i := ReadIndex(s.q.notifiers[id], mediaType);
            var slot := s.q.notifiers[id].readIndex;
            var out := Read(s, id, mediaType).1;
            Drained(s.q.frames, i, slot, mediaType, KeysOnly(s, id)) ==
            (if out.Some? then [out.value] else []) + Unread(s.q.frames, i + 1, slot, mediaType, KeysOnly(s, id))
  {
    hide Unread, Advance, AfterCallback;
  }

  lemma UnreadEnds(frames: seq<DataSpec>, slot: nat, mediaType: MediaType, keysOnly: bool)
    ensures Unread(frames, |frames|, slot, mediaType, keysOnly) == []
  {
  }

  lemma DeliveredReads(s: State, id: nat, mediaType: MediaType, n: nat)
    requires n > 0
    ensures var (t, out) := Read(s, id, mediaType);
            Delivered(s, Reads(id, mediaType, n), id) ==
            (if out.Some? then [out.value] else []) + Delivered(t, Reads(id, mediaType, n - 1), id)
  {
    assert Reads(id, mediaType, n)[1..] == Reads(id, mediaType, n - 1);
    hide Read;
  }

  lemma StopIsDeliverable(d: DataSpec, slot: nat, mediaType: MediaType, keysOnly: bool)
    requires Stops(d.media, mediaType, keysOnly)
    ensures Deliverable(d, slot, mediaType, keysOnly) <==> slot !in d.reserve
  {
  }

  /** With its current frame read and nothing left to stop at, a receiver is given nothing. */
  lemma {:induction false} Exhausted(s: State, id: nat, mediaType: MediaType, n: nat)
    requires CanRead(s, id, mediaType)
    requires var i := ReadIndex(s.q.notifiers[id], mediaType);
             && !Deliverable(s.q.frames[i], s.q.notifiers[id].readIndex, mediaType, KeysOnly(s, id))
             && NextIndex(s.q.frames, i, mediaType, KeysOnly(s, id)) == i
    ensures Delivered(s, Reads(id, mediaType, n), id) == []
    decreases n
  {
    if n > 0 {
      var i := ReadIndex(s.q.notifiers[id], mediaType);
      ReadOnce(s, id, mediaType);
      var t := Read(s, id, mediaType).0;
      hide Read, ReadIndex, Deliverable, NextStop;
      DeliveredReads(s, id, mediaType, n);
      NextStopAgrees(t.q.frames, s.q.frames, i + 1, mediaType, KeysOnly(s, id));
      Exhausted(t, id, mediaType, n - 1);
    }
  }

  // ---------------------------------------------------------------- key mode

  /** In key mode a video read delivers key frames only, and marks every frame its index skips. */
  lemma KeyModeRead(s: State, id: nat)
    requires CanRead(s, id, Video) && KeysOnly(s, id)
    ensures var (t, out) := Read(s, id, Video);
            var i := s.q.notifiers[id].videoIndex;
            && (out.Some? ==> IsKeyVideo(out.value.media))
            && id in t.q.notifiers && i <= t.q.notifiers[id].videoIndex < |s.q.frames| == |t.q.frames|
            && (t.q.notifiers[id].videoIndex != i ==> IsKeyVideo(s.q.frames[t.q.notifiers[id].videoIndex].media))
            && (forall k | i < k < t.q.notifiers[id].videoIndex :: !IsKeyVideo(s.q.frames[k].media))
            && (forall k | i < k < t.q.notifiers[id].videoIndex ::
                  s.q.notifiers[id].readIndex in t.q.frames[k].reserve)
  {
    ReadOnce(s, id, Video);
    NextStopSpec(s.q.frames, s.q.notifiers[id].videoIndex + 1, Video, true);
    hide Read, NextStop;
  }

  // ---------------------------------------------------------------- contents

  /** The frames put into the dispatcher along a run. */
  function Inputs(ops: seq<Op>): seq<MediaData> {
    if ops == [] then [] else (if ops[0].OpInput? then [ops[0].media] else []) + Inputs(ops[1..])
  }

  /** Every frame carries the input its number names. */
  ghost predicate Matches(frames: seq<DataSpec>, inputs: seq<MediaData>) {
    forall i | 0 <= i < |frames| :: frames[i].seqNo < |inputs| && frames[i].media == inputs[frames[i].seqNo]
  }

  lemma SuffixMatches(a: seq<DataSpec>, b: seq<DataSpec>, inputs: seq<MediaData>)
    requires IsSuffix(a, b) && Matches(b, inputs)
    ensures Matches(a, inputs)
  {
    assert forall i | 0 <= i < |a| :: a[i] == b[|b| - |a| + i];
  }

  lemma MarkedMatches(a: seq<DataSpec>, b: seq<DataSpec>, inputs: seq<MediaData>)
    requires Marked(a, b) && Matches(a, inputs)
    ensures Matches(b, inputs)
  {
  }

  lemma PushMatches(frames: seq<DataSpec>, inputs: seq<MediaData>, media: MediaData)
    requires Matches(frames, inputs)
    ensures Matches(frames + [DataSpec(|inputs|, media, {})], inputs + [media])
    ensures Matches(frames, inputs + [media])
  {
  }

  lemma WriteMatches(s: State, media: MediaData, inputs: seq<MediaData>)
    requires Core(s) && Matches(s.q.frames, inputs) && |inputs| == s.nextSeq
    ensures Matches(Write(s, media).q.frames, inputs + [media])
  {
    hide Core, CoreQ, CoreSized, MakeRoom, Matches, IsSuffix, SameSlots, Kept, Marked, Before;
    CoreParts(s);
    MakeRoomCore(s, media);
    var t := MakeRoom(s, media);
    StageCore(s, t);
    CoreParts(t);
    SuffixMatches(t.q.frames, s.q.frames, inputs);
    AppendQueueCore(t, media);
    KeptMatches(t.q.frames, t.z.capacity, inputs);
    PushMatches(Kept(t.q.frames, t.z.capacity), inputs, media);
    AppendCore(t, media);
    MarkedMatches(AppendQueue(t, media).frames, Append(t, media).q.frames, inputs + [media]);
  }

  lemma KeptMatches(frames: seq<DataSpec>, capacity: nat, inputs: seq<MediaData>)
    requires Matches(frames, inputs)
    ensures Matches(Kept(frames, capacity), inputs)
  {
    hide Kept, Matches, IsSuffix;
    KeptIsSuffix(frames, capacity);
    SuffixMatches(Kept(frames, capacity), frames, inputs);
  }

  lemma InputMatches(s: State, media: MediaData, inputs: seq<MediaData>)
    requires Core(s) && Matches(s.q.frames, inputs) && |inputs| == s.nextSeq
    ensures Matches(Input(s, media).q.frames, inputs + [media])
  {
    AdmitCore(s, media);
    PushMatches(s.q.frames, inputs, media);
    assert Matches(Flush(s).q.frames, inputs);
    hide Core, Write, Matches, Flush, Admit;
    if Admit(s, media).Some? {
      WriteMatches(Admit(s, media).value, media, inputs);
    }
  }

  lemma OtherOpsKeepFrames(s: State, op: Op)
    requires !op.OpInput? && !op.OpRead?
    ensures var (t, out) := Step(s, op); (t.q.frames == s.q.frames || t.q.frames == []) && out == None
  {
    hide Attach, Detach, Flush, NotifyReadReady, ClearReadBit, ClearDataBit, ReceiverKeyMode, ReceiverRedirect;
  }

  /** The inputs after one more step. */
  function MoreInputs(inputs: seq<MediaData>, op: Op): seq<MediaData> {
    if op.OpInput? then inputs + [op.media] else inputs
  }

  lemma StepMatches(s: State, op: Op, inputs: seq<MediaData>)
    requires Core(s) && Matches(s.q.frames, inputs) && |inputs| == s.nextSeq
    ensures Matches(Step(s, op).0.q.frames, MoreInputs(inputs, op))
    ensures |MoreInputs(inputs, op)| == Step(s, op).0.nextSeq
  {
    StepSeq(s, op);
    hide Core, Matches, Input, Read;
    if op.OpInput? {
      InputMatches(s, op.media, inputs);
    } else if op.OpRead? {
      ReadMatches(s, op.id, op.mediaType, inputs);
    } else {
      OtherOpsKeepFrames(s, op);
      NothingMatches(inputs);
      hide Step;
    }
  }

  lemma NothingMatches(inputs: seq<MediaData>)
    ensures Matches([], inputs)
  {
  }

  lemma ReadMatches(s: State, id: nat, mediaType: MediaType, inputs: seq<MediaData>)
    requires Matches(s.q.frames, inputs)
    ensures Matches(Read(s, id, mediaType).0.q.frames, inputs)
  {
    hide Advance, Matches, AfterCallback, Delivers;
    if HasFrame(s, id, mediaType) {
      ReadMarks(s, id, mediaType);
      MarkedMatches(s.q.frames, Read(s, id, mediaType).0.q.frames, inputs);
    }
  }

  lemma HandedMatches(s: State, op: Op, id: nat, inputs: seq<MediaData>)
    requires Matches(s.q.frames, inputs)
    ensures Matches(Handed(s, op, id), inputs)
  {
    hide Advance, AfterCallback, Delivers, Input, Attach, Detach, Flush, NotifyReadReady, ClearReadBit,
      ClearDataBit, ReceiverKeyMode, ReceiverRedirect;
  }

  lemma MatchesConcat(a: seq<DataSpec>, b: seq<DataSpec>, inputs: seq<MediaData>, more: seq<MediaData>)
    requires Matches(a, inputs) && Matches(b, inputs + more)
    ensures Matches(a + b, inputs + more)
  {
  }

  lemma DeliveredUnfold(s: State, ops: seq<Op>, id: nat)
    requires ops != []
    ensures Delivered(s, ops, id) == Handed(s, ops[0], id) + Delivered(Step(s, ops[0]).0, ops[1..], id)
  {
    hide Step;
  }

  lemma InputsUnfold(inputs: seq<MediaData>, ops: seq<Op>)
    requires ops != []
    ensures MoreInputs(inputs, ops[0]) + Inputs(ops[1..]) == inputs + Inputs(ops)
  {
    var others := Inputs(ops[1..]);
    InputsStart(ops);
    hide Inputs;
    if ops[0].OpInput? {
      assert (inputs + [ops[0].media]) + others == inputs + ([ops[0].media] + others);
    }
  }

  lemma InputsStart(ops: seq<Op>)
    requires ops != []
    ensures Inputs(ops) == if ops[0].OpInput? then [ops[0].media] + Inputs(ops[1..]) else Inputs(ops[1..])
  {
    if !ops[0].OpInput? {
      assert [] + Inputs(ops[1..]) == Inputs(ops[1..]);
    }
  }

  lemma {:induction false} DeliveredMatches(s: State, ops: seq<Op>, id: nat, inputs: seq<MediaData>)
    requires Core(s) && Matches(s.q.frames, inputs) && |inputs| == s.nextSeq
    ensures Matches(Delivered(s, ops, id), inputs + Inputs(ops))
    decreases ops
  {
    if ops == [] {
      assert Delivered(s, ops, id) == [];
    } else {
      hide Core, Step, Matches, Handed, Delivered, Inputs, MoreInputs;
      var t := Step(s, ops[0]).0;
      StepCore(s, ops[0]);
      StepMatches(s, ops[0], inputs);
      HandedMatches(s, ops[0], id, inputs);
      InputsUnfold(inputs, ops);
      DeliveredUnfold(s, ops, id);
      DeliveredMatches(t, ops[1..], id, MoreInputs(inputs, ops[0]));
      MatchesConcat(Handed(s, ops[0], id), Delivered(t, ops[1..], id), inputs, Inputs(ops));
    }
  }

  /** Whatever a run hands to a receiver is the input that its number names, unaltered. */
  lemma DeliveredAreInputs(cfg: Config, ops: seq<Op>, id: nat)
    requires CoreConfig(cfg)
    ensures Matches(Delivered(Initial(cfg), ops, id), Inputs(ops))
  {
    InitialCore(cfg);
    DeliveredMatches(Initial(cfg), ops, id, []);
    assert [] + Inputs(ops) == Inputs(ops);
  }
}
