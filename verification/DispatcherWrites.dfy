/** Which inputs are written, and what a write removes, read off the history and the frames alone. */
module DispatcherWrites {
  import opened Media
  import opened Options
  import opened DispatcherSpec
  import opened DispatcherInvariant
  import opened DispatcherCore
  import opened DispatcherSafety

  // ---------------------------------------------------------------- which inputs are written

  predicate IsKeyInput(op: Op) {
    op.OpInput? && op.media.mediaType == Video && op.media.keyFrame
  }

  /** A key video frame was input since the start and since the last flush. */
  ghost predicate KeySeen(ops: seq<Op>) {
    exists k :: 0 <= k < |ops| && IsKeyInput(ops[k]) && forall j | k < j < |ops| :: !ops[j].OpFlush?
  }

  lemma KeySeenStep(ops: seq<Op>, op: Op)
    ensures KeySeen(ops + [op]) <==> IsKeyInput(op) || (!op.OpFlush? && KeySeen(ops))
  {
    var all := ops + [op];
    if IsKeyInput(op) {
      assert IsKeyInput(all[|ops|]);
    }
    if !op.OpFlush? && KeySeen(ops) {
      var k :| 0 <= k < |ops| && IsKeyInput(ops[k]) && forall j | k < j < |ops| :: !ops[j].OpFlush?;
      assert all[k] == ops[k];
    }
    if KeySeen(all) && !IsKeyInput(op) {
      var k :| 0 <= k < |all| && IsKeyInput(all[k]) && forall j | k < j < |all| :: !all[j].OpFlush?;
      assert ops[k] == all[k] && all[|ops|] == op;
      assert forall j | k < j < |ops| :: ops[j] == all[j];
    }
  }

  lemma AdmitWaits(s: State, media: MediaData)
    requires s.cfg.mode != AudioOnly
    ensures match Admit(s, media)
            case None => s.waitingKey && !IsKeyVideo(media) && !IsAudio(media)
            case Some(t) => t.cfg == s.cfg && (t.waitingKey <==> s.waitingKey && !IsKeyVideo(media))
  {
    hide Recalculate;
  }

  lemma InputWaits(s: State, media: MediaData)
    requires Core(s)
    ensures s.cfg.mode == AudioOnly && s.waitingKey ==> Input(s, media).waitingKey
    ensures s.cfg.mode != AudioOnly ==> (Input(s, media).waitingKey <==> s.waitingKey && !IsKeyVideo(media))
  {
    AdmitCore(s, media);
    if s.cfg.mode != AudioOnly {
      AdmitWaits(s, media);
    } else {
      assert Admit(s, media) == Some(s);
    }
    hide Core, Write, Admit;
    if Admit(s, media).Some? {
      WriteRest(Admit(s, media).value, media);
    }
  }

  lemma OtherStepsWait(s: State, op: Op)
    requires !op.OpInput?
    ensures Step(s, op).0.waitingKey <==> s.waitingKey || op.OpFlush?
  {
    if op.OpRead? {
      hide AfterCallback, Delivers, ReadIndex;
    }
    hide StartPosition, LowestFree, DataAvailable, Bits;
  }

  /** A key frame is awaited from the start and from a flush until the next key video frame. */
  lemma {:induction false} WaitingIsHistory(cfg: Config, ops: seq<Op>)
    requires CoreConfig(cfg)
    ensures Run(Initial(cfg), ops).waitingKey <==> cfg.mode == AudioOnly || !KeySeen(ops)
    decreases |ops|
  {
    hide Step, KeySeen, Run;
    if ops == [] {
      assert !KeySeen([]) by { NothingSeen(); }
      assert Run(Initial(cfg), []) == Initial(cfg) by { RunNothing(Initial(cfg)); }
    } else {
      var before, op := ops[..|ops| - 1], ops[|ops| - 1];
      assert ops == before + [op];
      WaitingIsHistory(cfg, before);
      ReachableCore(cfg, before);
      RunOneMore(Initial(cfg), before, op);
      KeySeenStep(before, op);
      var s := Run(Initial(cfg), before);
      StepWaits(s, op);
    }
  }

  lemma NothingSeen()
    ensures !KeySeen([])
  {
  }

  lemma RunNothing(s: State)
    ensures Run(s, []) == s
  {
  }

  lemma StepWaits(s: State, op: Op)
    requires Core(s)
    ensures var t := Step(s, op).0;
            if s.cfg.mode == AudioOnly then s.waitingKey ==> t.waitingKey
            else t.waitingKey <==> op.OpFlush? || (s.waitingKey && !IsKeyInput(op))
  {
    hide Core;
    if op.OpInput? {
      InputWaits(s, op.media);
      hide Input;
    } else {
      OtherStepsWait(s, op);
      hide Step;
    }
  }

  /** The frame pushed comes last, unmarked, even when a redirect marks what is skipped. */
  lemma AppendLast(s: State, media: MediaData)
    requires Core(s)
    ensures var frames := Append(s, media).q.frames;
            frames != [] && frames[|frames| - 1] == DataSpec(s.nextSeq, media, {})
  {
    CoreParts(s);
    AppendQueueCore(s, media);
    var q := AppendQueue(s, media);
    assert IsKeyVideo(media) ==> q.keys[|q.keys| - 1] == |q.frames| - 1;
    hide Core, CoreQ, CoreSized, AppendQueue, Kept, SlotsOK, ReadyBits, Jumped, Before;
    RedirectLast(q, s.rapid);
  }

  lemma RedirectLast(q: Queue, rapid: bool)
    requires q.frames != [] && q.frames[|q.frames| - 1].reserve == {}
    ensures q.keys != [] && q.keys[|q.keys| - 1] == |q.frames| - 1 ==>
              |OnKeyRedirect(q, rapid).frames| == |q.frames| &&
              OnKeyRedirect(q, rapid).frames[|q.frames| - 1] == q.frames[|q.frames| - 1]
  {
    var last := |q.frames| - 1;
    assert RedirectMarks(q.notifiers, last, last) == {};
  }

  lemma WriteLast(s: State, media: MediaData)
    requires Core(s)
    ensures var frames := Write(s, media).q.frames;
            frames != [] && frames[|frames| - 1] == DataSpec(s.nextSeq, media, {})
  {
    CoreParts(s);
    MakeRoomCore(s, media);
    var t := MakeRoom(s, media);
    StageCore(s, t);
    hide Core, CoreQ, MakeRoom, Append;
    AppendLast(t, media);
  }

  lemma AdmitIs(s: State, media: MediaData)
    ensures Admit(s, media).Some? <==>
            s.cfg.mode == AudioOnly || !s.waitingKey || media.mediaType == Audio ||
            (media.mediaType == Video && media.keyFrame)
  {
    hide Recalculate, Flush;
  }

  /**
   * After every run, for every configuration: an input frame is buffered last and unmarked if the dispatcher is for
   * audio only, if a key video frame came since the last flush, or if it is itself audio or a key video frame.
   * Otherwise it leaves nothing but its number behind.
   */
  lemma InputWrites(cfg: Config, ops: seq<Op>, media: MediaData)
    requires CoreConfig(cfg)
    ensures var s := Run(Initial(cfg), ops);
            var t := Input(s, media);
            var frames := t.q.frames;
            if cfg.mode == AudioOnly || KeySeen(ops) || media.mediaType == Audio ||
               (media.mediaType == Video && media.keyFrame)
            then frames != [] && frames[|frames| - 1] == DataSpec(s.nextSeq, media, {})
            else t == s.(nextSeq := s.nextSeq + 1)
  {
    hide Run, Initial, KeySeen, Admit, Write, Core;
    ReachableCore(cfg, ops);
    WaitingIsHistory(cfg, ops);
    var s := Run(Initial(cfg), ops);
    AdmitIs(s, media);
    AdmitCore(s, media);
    if Admit(s, media).Some? {
      WriteLast(Admit(s, media).value, media);
    }
  }

  // ---------------------------------------------------------------- what a write removes

  /** The frames of `t` are those of `s` from position `k` on, with more marks perhaps, and the new one. */
  ghost predicate KeepsFrom(s: State, t: State, k: nat) {
    && k <= |s.q.frames| && |t.q.frames| == |s.q.frames| - k + 1
    && forall i | 0 <= i < |s.q.frames| - k ::
         && t.q.frames[i].seqNo == s.q.frames[k + i].seqNo && t.q.frames[i].media == s.q.frames[k + i].media
         && s.q.frames[k + i].reserve <= t.q.frames[i].reserve
         && (!s.redirect ==> t.q.frames[i].reserve == s.q.frames[k + i].reserve)
  }

  /** A key video frame makes the dispatcher erase old groups, unless it is in key mode. */
  predicate Erases(s: State, media: MediaData) {
    media.mediaType == Video && media.keyFrame && !s.keyOnly
  }

  /** The ring is full, its head is still needed, and the doubled capacity is larger and allowed. */
  predicate CanExtend(s: State) {
    && |s.q.frames| == s.z.capacity && s.q.frames != [] && s.q.frames[0].reserve != s.refs.readRef
    && s.z.capacity < s.z.dbl <= s.cfg.maxCapacity
  }

  ghost predicate AllAudio(frames: seq<DataSpec>) {
    forall i | 0 <= i < |frames| :: frames[i].media.mediaType == Audio
  }

  lemma ReadyCore(s: State)
    requires Ready(s)
    ensures Core(s)
  {
    hide Ordered, ReserveOK, IndicesClamped, LastOK, CountersOK, Before, SlotsOK;
    KeysOKNear(s.q.frames, s.q.keys);
    hide KeysOK, KeysNear;
  }

  lemma AppendKeepsAll(s: State, media: MediaData)
    requires Core(s) && |s.q.frames| < s.z.capacity
    ensures KeepsFrom(s, Append(s, media), 0) && Append(s, media).z == s.z
  {
    CoreParts(s);
    AppendQueueCore(s, media);
    AppendCore(s, media);
    AppendRest(s, media);
    if !s.redirect {
      hide AppendQueue;
      assert Append(s, media).q == AppendQueue(s, media);
    }
    hide Core, CoreQ, CoreSized, Append, AppendQueue, Before, SlotsOK;
  }

  /** It is enough to know what making room removes. */
  lemma WriteKeepsFrom(s: State, media: MediaData, k: nat)
    requires Ready(s) && k <= |s.q.frames| && MakeRoom(s, media).q.frames == s.q.frames[k..]
    requires MakeRoom(s, media).redirect == s.redirect
    ensures KeepsFrom(s, Write(s, media), k) && Write(s, media).z == MakeRoom(s, media).z
  {
    var t := MakeRoom(s, media);
    RoomIsReady(s, media);
    hide Ready, Core, MakeRoom, Append, KeepsFrom;
    AppendKeepsAll(t, media);
    KeepsThen(s, t, Append(t, media), k);
  }

  lemma RoomIsReady(s: State, media: MediaData)
    requires Ready(s)
    ensures Core(MakeRoom(s, media)) && |MakeRoom(s, media).q.frames| < MakeRoom(s, media).z.capacity
  {
    MakeRoomKeeps(s, media);
    ReadyCore(s);
    CoreParts(s);
    hide Core, CoreQ, CoreSized, MakeRoom, CoreStage;
    MakeRoomCore(s, media);
    StageCore(s, MakeRoom(s, media));
  }

  lemma KeepsThen(s: State, t: State, u: State, k: nat)
    requires k <= |s.q.frames| && t.q.frames == s.q.frames[k..] && t.redirect == s.redirect && KeepsFrom(t, u, 0)
    ensures KeepsFrom(s, u, k)
  {
    assert forall i | 0 <= i < |s.q.frames| - k :: t.q.frames[i] == s.q.frames[k + i];
  }

  lemma AudioCount(q: Queue)
    requires QueueOK(q)
    ensures q.audioCnt <= |q.frames| && (q.audioCnt == |q.frames| <==> AllAudio(q.frames))
  {
    CountAudioBound(q.frames);
  }

  /** With room in the ring, or with a capacity that can be doubled for a head still needed, nothing is lost. */
  lemma NothingLost(s: State, media: MediaData)
    requires Ready(s) && !Erases(s, media) && (|s.q.frames| < s.z.capacity || CanExtend(s))
    ensures KeepsFrom(s, Write(s, media), 0)
    ensures Write(s, media).z == s.z.(capacity := if CanExtend(s) then s.z.dbl else s.z.capacity)
  {
    hide Ready, MakeRoom, Write, KeepsFrom;
    RoomAsItIs(s, media);
    assert s.q.frames[0..] == s.q.frames;
    WriteKeepsFrom(s, media, 0);
  }

  lemma RoomAsItIs(s: State, media: MediaData)
    requires Ready(s) && !Erases(s, media) && (|s.q.frames| < s.z.capacity || CanExtend(s))
    ensures MakeRoom(s, media) == s.(z := s.z.(capacity := if CanExtend(s) then s.z.dbl else s.z.capacity))
  {
    AudioCount(s.q);
    hide QueueOK, SlotsOK, Before, PopAudios, PopHeads, AllAudio, EraseOldGop;
  }

  /** How many frames a frame pushes out of a full ring: all before the first video frame and that one, or two. */
  function PushedOut(frames: seq<DataSpec>, media: MediaData, v: nat): nat {
    if media.mediaType == Video then (if v < |frames| then v + 1 else 1) else 2
  }

  ghost predicate FirstVideo(frames: seq<DataSpec>, v: nat) {
    && v <= |frames| && (v < |frames| ==> frames[v].media.mediaType == Video)
    && forall i | 0 <= i < v :: frames[i].media.mediaType != Video
  }

  lemma FirstVideoIs(frames: seq<DataSpec>, v: nat)
    requires FirstVideo(frames, v)
    ensures NextDeleteVideo(frames) == if v < |frames| then v else 0
  {
    FirstVideoFromSpec(frames, 0);
  }

  lemma EvictOnly(s: State, media: MediaData)
    requires Ready(s) && !Erases(s, media) && |s.q.frames| == s.z.capacity && !CanExtend(s)
    requires !AllAudio(s.q.frames) || s.z.capacity == 500
    ensures MakeRoom(s, media) == Evict(s, media)
  {
    AudioCount(s.q);
    hide QueueOK, SlotsOK, Before, PopAudios, PopHeads, AllAudio;
  }

  /**
   * A full ring that cannot be extended loses, for a video frame, its frames up to and including the first video
   * frame, and for any other frame two.
   */
  lemma FullRingEvicts(s: State, media: MediaData, v: nat)
    requires Ready(s) && !Erases(s, media) && |s.q.frames| == s.z.capacity && !CanExtend(s)
    requires !AllAudio(s.q.frames) || s.z.capacity == 500
    requires FirstVideo(s.q.frames, v)
    ensures KeepsFrom(s, Write(s, media), PushedOut(s.q.frames, media, v)) && Write(s, media).z == s.z
  {
    FirstVideoIs(s.q.frames, v);
    EvictOnly(s, media);
    var k := PushedOut(s.q.frames, media, v);
    PopHeadsFrames(s.q, k);
    assert Evict(s, media) == s.(q := PopHeads(s.q, k));
    assert |s.q.frames| >= 2;
    hide Ready, MakeRoom, Write, KeepsFrom, PopHeads, Evict, CanExtend, AllAudio, FirstVideo;
    WriteKeepsFrom(s, media, k);
  }

  /** A full ring of audio frames above the initial capacity goes back to that, and then loses one frame or two. */
  lemma FullOfAudioRestores(s: State, media: MediaData)
    requires Ready(s) && !Erases(s, media) && |s.q.frames| == s.z.capacity && !CanExtend(s)
    requires AllAudio(s.q.frames) && s.z.capacity != 500
    ensures KeepsFrom(s, Write(s, media), |s.q.frames| - 500 + if media.mediaType == Video then 1 else 2)
    ensures Write(s, media).z == s.z.(base := 500, dbl := 1000, capacity := 500)
  {
    hide Ready, MakeRoom, Write, KeepsFrom, PopHeads;
    var k := if media.mediaType == Video then 1 else 2;
    var n := |s.q.frames| - 500;
    var t := RestoredFull(s, media);
    RestoredRoom(s, media, t);
    PopHeadsFrames(t.q, k);
    WriteKeepsFrom(s, media, n + k);
  }

  lemma RestoredFull(s: State, media: MediaData) returns (t: State)
    requires Ready(s) && |s.q.frames| == s.z.capacity && !CanExtend(s)
    requires AllAudio(s.q.frames) && s.z.capacity != 500
    ensures t == Restore(Extend(s)) && t == s.(q := t.q, z := s.z.(base := 500, dbl := 1000, capacity := 500))
    ensures |s.q.frames| > 500 && t.q.frames == s.q.frames[|s.q.frames| - 500..] && AllAudio(t.q.frames)
  {
    AudioCount(s.q);
    var n := |s.q.frames| - 500;
    PopAudiosIsPopHeads(s.q, n);
    PopHeadsFrames(s.q, n);
    t := s.(q := PopAudios(s.q, n), z := s.z.(base := 500, dbl := 1000, capacity := 500));
    hide PopHeads, PopAudios, QueueOK, SlotsOK, Before;
  }

  lemma RestoredRoom(s: State, media: MediaData, t: State)
    requires t == Restore(Extend(s)) && !Erases(s, media) && t.keyOnly == s.keyOnly
    requires |t.q.frames| == 500 == t.z.capacity && AllAudio(t.q.frames)
    ensures MakeRoom(s, media) == t.(q := PopHeads(t.q, if media.mediaType == Video then 1 else 2))
  {
    assert FirstVideo(t.q.frames, |t.q.frames|);
    FirstVideoIs(t.q.frames, |t.q.frames|);
    hide Restore, Extend, PopHeads, FirstVideo, AllAudio, NextDeleteVideo;
  }

  /** Neither extended nor restored. */
  ghost predicate SizeStays(s: State) {
    |s.q.frames| < s.z.capacity ||
    (|s.q.frames| == s.z.capacity && !CanExtend(s) && (!AllAudio(s.q.frames) || s.z.capacity == 500))
  }

  lemma NoResize(s: State)
    requires Ready(s) && SizeStays(s)
    ensures Restore(Extend(s)) == s
  {
    AudioCount(s.q);
    hide QueueOK, SlotsOK, Before, PopAudios, AllAudio;
  }

  lemma HeadGoesOnly(s: State, media: MediaData)
    requires media.mediaType == Video && (HasVideo(s.q.frames) ==> IsVideo(s.q.frames[0].media))
    ensures Evict(s, media).q.frames ==
            if |s.q.frames| >= s.z.capacity && s.q.frames != [] then s.q.frames[1..] else s.q.frames
    ensures Evict(s, media) == s.(q := Evict(s, media).q)
  {
    NextDeleteVideoSpec(s.q.frames);
    PopHeadsFrames(s.q, 1);
    hide PopHeads;
  }

  lemma EraseRest(s: State)
    requires s.cfg.mode != AudioOnly
    ensures SameRest(s, EraseOldGop(s))
  {
    hide DeleteHeads;
    var k := LastKey(s.q.keys);
    DeleteHeadsRest(s.(q := s.q.(keys := if k > 0 then [k] else s.q.keys)), k, false);
    var t := ErasePolitely(s);
    DeleteHeadsRest(t, NextDeleteVideo(t.q.frames), true);
  }

  lemma ErasedCapacity(s: State)
    requires s.cfg.mode != AudioOnly
    ensures var t := EraseOldGop(s);
            t.z.capacity <= s.z.capacity && (t.z.capacity == s.z.capacity || |t.q.frames| < t.z.capacity)
  {
    hide DeleteHeads;
    var k := LastKey(s.q.keys);
    var u := s.(q := s.q.(keys := if k > 0 then [k] else s.q.keys));
    var t := ErasePolitely(s);
    DeletedCapacity(u, k, false);
    DeletedCapacity(t, NextDeleteVideo(t.q.frames), true);
  }

  lemma DeletedCapacity(s: State, n: nat, force: bool)
    ensures var t := DeleteHeads(s, n, force);
            && |t.q.frames| <= |s.q.frames| && t.z.capacity <= s.z.capacity
            && (t.z.capacity == s.z.capacity || |t.q.frames| < t.z.capacity)
  {
    DeleteHeadsParts(s, n, force);
    var k := DeleteLoopIsPopHeads(s.q, s.refs.readRef, n, force);
    PopHeadsFrames(s.q, k);
    hide DeleteHeads, DeleteLoop, PopHeads;
  }

  lemma ReadyQueue(s: State)
    requires Ready(s)
    ensures Sized(s) && QueueOK(s.q)
  {
  }

  lemma HeadIsVideo(frames: seq<DataSpec>, rest: seq<DataSpec>, k: nat)
    requires k <= |frames| && rest == frames[k..]
    requires HasVideo(frames) ==> k < |frames| && IsVideo(frames[k].media)
    ensures HasVideo(rest) ==> IsVideo(rest[0].media)
  {
    if HasVideo(rest) {
      var p :| 0 <= p < |rest| && IsVideo(rest[p].media);
      assert IsVideo(frames[k + p].media);
    }
  }

  lemma FirstVideoBehind(frames: seq<DataSpec>, a: nat, b: nat)
    requires a + b <= |frames|
    requires if HasVideo(frames) then a + b < |frames| && IsVideo(frames[a + b].media) else a + b == 0
    requires forall i | a <= i < a + b :: !IsVideo(frames[i].media)
    ensures FirstVideo(frames[a..], b) || (b == 0 && FirstVideo(frames[a..], |frames| - a))
  {
    if HasVideo(frames) {
      assert FirstVideo(frames[a..], b);
    } else {
      assert FirstVideo(frames, |frames|);
    }
  }

  /**
   * A key video frame, outside key mode, first removes what precedes the last key frame, up to the first frame that
   * is not marked by exactly the live receivers, and then what precedes the first video frame; if the ring is full
   * and nothing was removed, its head goes.
   */
  lemma KeyFrameErases(s: State, media: MediaData) returns (a: nat, b: nat)
    requires Ready(s) && Erases(s, media) && s.cfg.mode != AudioOnly && SizeStays(s)
    ensures a + b <= |s.q.frames|
    ensures KeepsFrom(s, Write(s, media), if |s.q.frames| - (a + b) < s.z.capacity then a + b else 1)
    ensures a > 0 ==> exists p :: IsLastKey(s.q.frames, p)
    ensures forall p: nat | IsLastKey(s.q.frames, p) ::
              a + b <= p && (a == p || s.q.frames[a].reserve != s.refs.readRef)
    ensures forall i | 0 <= i < a :: s.q.frames[i].reserve == s.refs.readRef
    ensures FirstVideo(s.q.frames[a..], b) || (b == 0 && FirstVideo(s.q.frames[a..], |s.q.frames| - a))
  {
    hide Ready, SizeStays, KeepsFrom, Write, EraseOldGop, QueueOK, Sized, IsLastKey, MakeRoom, HasVideo, FirstVideo;
    ReadyQueue(s);
    a, b := EraseOldGopPops(s);
    FirstVideoBehind(s.q.frames, a, b);
    FullSize(s);
    var k := if |s.q.frames| - (a + b) < s.z.capacity then a + b else 1;
    ErasedRoom(s, media, a + b);
    WriteKeepsFrom(s, media, k);
  }

  lemma FullSize(s: State)
    requires Ready(s) && SizeStays(s)
    ensures 2 <= s.z.capacity && |s.q.frames| <= s.z.capacity
  {
  }

  /** Erasing `e` frames makes room, or else the head goes. */
  lemma ErasedRoom(s: State, media: MediaData, e: nat)
    requires Ready(s) && Erases(s, media) && s.cfg.mode != AudioOnly && SizeStays(s)
    requires e <= |s.q.frames| <= s.z.capacity && EraseOldGop(s).q.frames == s.q.frames[e..]
    requires HasVideo(s.q.frames) ==> e < |s.q.frames| && IsVideo(s.q.frames[e].media)
    ensures MakeRoom(s, media).redirect == s.redirect
    ensures MakeRoom(s, media).q.frames == s.q.frames[if |s.q.frames| - e < s.z.capacity then e else 1..]
  {
    hide Ready, SizeStays, EraseOldGop, HasVideo, Evict;
    NoResize(s);
    var t := EraseOldGop(s);
    assert MakeRoom(s, media) == Evict(t, media);
    EraseRest(s);
    HeadIsVideo(s.q.frames, t.q.frames, e);
    HeadGoesOnly(t, media);
    ErasedCapacity(s);
    hide MakeRoom;
  }

  // ---------------------------------------------------------------- the key list

  lemma {:induction false} PopsShiftKey(q: Queue, n: nat, k: nat)
    requires q.keys == [k] && n <= k && n <= |q.frames|
    ensures PopHeads(q, n).keys == [k - n]
    decreases n
  {
    if n > 0 {
      PopsShiftKey(PopHead(q), n - 1, k - 1);
    }
  }

  lemma DeletionShiftsKey(s: State, n: nat, force: bool, k: nat)
    requires s.q.keys == [k] && n <= k
    ensures var t := DeleteHeads(s, n, force);
            |t.q.frames| <= |s.q.frames| && t.q.keys == [k - (|s.q.frames| - |t.q.frames|)]
  {
    var m := DeleteLoopIsPopHeads(s.q, s.refs.readRef, n, force);
    PopsShiftKey(s.q, m, k);
    PopHeadsFrames(s.q, m);
    hide DeleteLoop, PopHeads;
  }

  /** Erasing old groups leaves one entry in the key list: the last key frame, at its new position. */
  lemma EraseLeavesOneKey(s: State, p: nat)
    requires Ready(s) && s.cfg.mode != AudioOnly && IsLastKey(s.q.frames, p) && p > 0
    ensures var t := EraseOldGop(s);
            |t.q.frames| <= |s.q.frames| && t.q.keys == [p - (|s.q.frames| - |t.q.frames|)]
  {
    hide Ready, QueueOK, Sized, ErasePolitely, EraseToVideo, SameSlots, SameRest, IsLastKey, DeleteHeads;
    ReadyQueue(s);
    var t := ErasePolitely(s);
    var c := PoliteDeletion(s);
    PoliteLeavesOneKey(s, p);
    LastKeyInFrames(s.q.frames, p);
    assert t.q.frames[p - c] == s.q.frames[p];
    NextVideoBefore(t.q.frames, p - c);
    ToVideoIs(t);
    DeletionShiftsKey(t, NextDeleteVideo(t.q.frames), true, p - c);
  }

  lemma ToVideoIs(s: State)
    ensures EraseToVideo(s) == DeleteHeads(s, NextDeleteVideo(s.q.frames), true)
  {
  }

  lemma LastKeyInFrames(frames: seq<DataSpec>, p: nat)
    requires IsLastKey(frames, p)
    ensures p < |frames| && IsVideo(frames[p].media)
  {
  }

  lemma PoliteLeavesOneKey(s: State, p: nat)
    requires QueueOK(s.q) && IsLastKey(s.q.frames, p) && p > 0
    ensures var t := ErasePolitely(s);
            |t.q.frames| <= |s.q.frames| && t.q.keys == [p - (|s.q.frames| - |t.q.frames|)]
  {
    LastKeyListed(s.q, p);
    var u := s.(q := s.q.(keys := [p]));
    assert ErasePolitely(s) == DeleteHeads(u, p, false);
    hide QueueOK, DeleteHeads, ErasePolitely, IsLastKey;
    DeletionShiftsKey(u, p, false, p);
  }

  lemma NextVideoBefore(frames: seq<DataSpec>, p: nat)
    requires p < |frames| && IsVideo(frames[p].media)
    ensures NextDeleteVideo(frames) <= p
  {
    FirstVideoFromSpec(frames, 0);
  }

  /** A key video frame sent to a dispatcher for audio only flushes it. */
  lemma AudioOnlyFlushes(s: State, media: MediaData)
    requires Ready(s) && Erases(s, media) && s.cfg.mode == AudioOnly
    ensures Write(s, media).q.frames == [DataSpec(s.nextSeq, media, {})] && Write(s, media).waitingKey
  {
    hide Ready, Write, Append;
    ReadyCore(s);
    WriteLast(s, media);
    var t := Restore(Extend(s));
    hide Restore, Extend, Core;
    assert MakeRoom(s, media).q.frames == [];
    RoomIsReady(s, media);
    hide MakeRoom;
    AppendKeepsAll(MakeRoom(s, media), media);
    AppendRest(MakeRoom(s, media), media);
    WriteIs(s, media);
  }

  lemma WriteIs(s: State, media: MediaData)
    ensures Write(s, media) == Append(MakeRoom(s, media), media)
  {
    hide Append, MakeRoom;
  }

  // ---------------------------------------------------------------- measuring a group of pictures

  function AtMost(n: nat, max: nat): nat {
    if n < max then n else max
  }

  function AtLeast(n: nat, min: nat): nat {
    if n > min then n else min
  }

  /** The sizing after a frame of a group that is measured. */
  ghost predicate Resized(z: Sizing, y: Sizing, cfg: Config, key: bool) {
    var count := (z.baseCounter + 1) % 0x1_0000_0000;
    var max := cfg.maxCapacity;
    if key then
      var base := AtLeast(AtMost((count + cfg.increment) % 0x1_0000_0000, max), 500);
      y == Sizing(if base <= max then base else z.capacity, base, AtMost(base * 2 % 0x1_0000_0000, max), 0, count,
                  count == 0)
    else if count >= z.capacity then
      var size := AtMost(z.capacity + cfg.increment, max);
      y == z.(capacity := if size == 0 then z.capacity else size, dbl := AtMost(size * 2 % 0x1_0000_0000, max),
              baseCounter := count)
    else y == z.(baseCounter := count)
  }

  lemma RecalculateIs(z: Sizing, cfg: Config, key: bool)
    ensures Resized(z, Recalculate(z, cfg, key), cfg, key)
  {
  }

  /**
   * The state in which an input is written. The first key video frame after a gap flushes the buffer and starts to
   * measure a group of pictures, counting itself. While a group is measured, each frame is counted; a frame that is
   * no key frame raises the capacity by the increment once the count has reached it; a key frame ends the group and
   * sets the base capacity to the count plus the increment, between 500 and the maximum. Nothing else is changed,
   * and nothing at all when no group is measured. All 32-bit sums wrap around.
   */
  lemma AdmittedState(s: State, media: MediaData)
    requires Core(s) && Admit(s, media).Some?
    ensures var t := Admit(s, media).value;
            var key := media.mediaType == Video && media.keyFrame;
            var count := (s.z.baseCounter + 1) % 0x1_0000_0000;
            && t == s.(q := t.q, z := t.z, waitingKey := t.waitingKey, audioNeedActivate := t.audioNeedActivate,
                       videoNeedActivate := t.videoNeedActivate)
            && if s.cfg.mode != AudioOnly && s.waitingKey && key then
                 && t.q.frames == [] && t.z == s.z.(baseCounter := count, evaluating := true, gop := 0)
                 && !t.waitingKey && t.audioNeedActivate && t.videoNeedActivate
                 && t.q.keys == [] && t.q.lastAudio == t.q.lastVideo == INVALID_INDEX
                 && (forall id | id in t.q.notifiers ::
                       t.q.notifiers[id].audioIndex == t.q.notifiers[id].videoIndex == INVALID_INDEX)
               else if s.cfg.mode != AudioOnly && !s.waitingKey && s.z.evaluating then
                 && t == s.(z := t.z)
                 && Resized(s.z, t.z, s.cfg, key)
               else t == s
  {
    RecalculateIs(s.z, s.cfg, IsKeyVideo(media));
    hide CoreQ, Before, SlotsOK, Recalculate, Resized;
  }
}
