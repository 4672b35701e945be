/**
 * A receiver that is attached while no key frame is buffered gets no video index, asks for none, and is not given
 * one by the key frames that follow.
 */
module DispatcherStranded {
  import opened Media
  import opened Options
  import opened DispatcherSpec
  import opened DispatcherInvariant
  import opened DispatcherCore
  import opened DispatcherSafety
  import opened DispatcherDelivery
  import opened DispatcherReading
  import DispatcherReady
  import opened DispatcherRedirect
  import opened DispatcherWrites
  import opened DispatcherWakes
  import opened DispatcherCalls
  import opened DispatcherResults
  import DispatcherOverrun

  // ---------------------------------------------------------------- once stranded, always stranded

  /** The receiver has no video index, and nothing in the state will give it one. */
  ghost predicate Stranded(s: State, id: nat) {
    && s.cfg.mode != AudioOnly && !s.waitingKey && !s.videoNeedActivate && id in s.q.notifiers
    && var n := s.q.notifiers[id];
    && n.videoIndex == INVALID_INDEX && !n.keyMode && !n.keyRedirect
  }

  lemma {:induction false} PopHeadsInvalid(q: Queue, n: nat, id: nat)
    requires id in q.notifiers && q.notifiers[id].videoIndex == INVALID_INDEX
    ensures id in PopHeads(q, n).notifiers && PopHeads(q, n).notifiers[id].videoIndex == INVALID_INDEX
    decreases n
  {
    if n > 0 && q.frames != [] {
      PopHeadsInvalid(PopHead(q), n - 1, id);
    }
  }

  lemma {:induction false} PopAudiosInvalid(q: Queue, n: nat, id: nat)
    requires id in q.notifiers && q.notifiers[id].videoIndex == INVALID_INDEX
    ensures id in PopAudios(q, n).notifiers && PopAudios(q, n).notifiers[id].videoIndex == INVALID_INDEX
    decreases n
  {
    if n > 0 && q.frames != [] {
      PopAudiosInvalid(PopAs(q, true), n - 1, id);
    }
  }

  lemma DeleteHeadsStranded(s: State, n: nat, force: bool, id: nat)
    requires Stranded(s, id)
    ensures Stranded(DeleteHeads(s, n, force), id)
  {
    var k := DeleteLoopIsPopHeads(s.q, s.refs.readRef, n, force);
    PopHeadsInvalid(s.q, k, id);
    PopHeadsWishes(s.q, k);
    hide DeleteLoop, PopHeads;
  }

  lemma EraseStranded(s: State, id: nat)
    requires Stranded(s, id)
    ensures Stranded(EraseOldGop(s), id)
  {
    var k := LastKey(s.q.keys);
    var u := s.(q := s.q.(keys := if k > 0 then [k] else s.q.keys));
    hide DeleteHeads, LastKey;
    DeleteHeadsStranded(u, k, false, id);
    var t := ErasePolitely(s);
    DeleteHeadsStranded(t, NextDeleteVideo(t.q.frames), true, id);
  }

  lemma RestoreStranded(s: State, id: nat)
    requires Stranded(s, id)
    ensures Stranded(Restore(Extend(s)), id)
  {
    PopAudiosInvalid(s.q, Excess(|s.q.frames|), id);
    PopAudiosWishes(s.q, Excess(|s.q.frames|));
    hide PopAudios;
  }

  lemma EvictStranded(s: State, media: MediaData, id: nat)
    requires Stranded(s, id)
    ensures Stranded(Evict(s, media), id)
  {
    var k := (if IsVideo(media) then NextDeleteVideo(s.q.frames) else 1) + 1;
    PopHeadsInvalid(s.q, k, id);
    PopHeadsWishes(s.q, k);
    hide PopHeads;
  }

  lemma MakeRoomStranded(s: State, media: MediaData, id: nat)
    requires Stranded(s, id)
    ensures Stranded(MakeRoom(s, media), id)
  {
    hide Restore, Extend, EraseOldGop, Evict, Stranded;
    RestoreStranded(s, id);
    var t := Restore(Extend(s));
    if IsKeyVideo(media) && !t.keyOnly {
      EraseStranded(t, id);
      EvictStranded(EraseOldGop(t), media, id);
    } else {
      EvictStranded(t, media, id);
    }
  }

  lemma AdmitStranded(s: State, media: MediaData, id: nat)
    requires Stranded(s, id)
    ensures Admit(s, media).Some? && Stranded(Admit(s, media).value, id)
  {
    hide Recalculate;
  }

  lemma AppendStranded(s: State, media: MediaData, id: nat)
    requires Core(s) && Stranded(s, id)
    ensures Stranded(Append(s, media), id)
  {
    PushMovesIndices(s, media, id);
    RequestsEnd(s, media);
    AppendRest(s, media);
    hide Core, Append;
  }

  lemma InputStranded(s: State, media: MediaData, id: nat)
    requires Core(s) && Stranded(s, id)
    ensures Stranded(Input(s, media), id)
  {
    hide Core, CoreQ, CoreSized, Admit, MakeRoom, Append, Stranded;
    AdmitStranded(s, media, id);
    AdmitCore(s, media);
    var t := Admit(s, media).value;
    CoreParts(t);
    MakeRoomStranded(t, media, id);
    MakeRoomCore(t, media);
    var u := MakeRoom(t, media);
    StageCore(t, u);
    AppendStranded(u, media, id);
    NumbersDoNotMatter(Append(u, media), s.nextSeq + 1, id);
  }

  lemma NumbersDoNotMatter(s: State, next: nat, id: nat)
    requires Stranded(s, id)
    ensures Stranded(s.(nextSeq := next), id)
  {
  }

  function InputsOf(frames: seq<MediaData>): seq<Op> {
    if frames == [] then [] else [OpInput(frames[0])] + InputsOf(frames[1..])
  }

  /** However many frames come, key frames or others, a stranded receiver is handed no video. */
  lemma {:induction false} StrandedGetsNoVideo(s: State, id: nat, frames: seq<MediaData>, count: nat)
    requires Core(s) && Stranded(s, id)
    ensures Delivered(Run(s, InputsOf(frames)), Reads(id, Video, count), id) == []
    decreases |frames|
  {
    if frames == [] {
      CoreParts(s);
      SizeFits(s);
      DispatcherReady.NoFrameNoReads(s, id, Video, count);
    } else {
      hide Core, Input, Stranded;
      InputStranded(s, frames[0], id);
      StepCore(s, OpInput(frames[0]));
      assert InputsOf(frames)[1..] == InputsOf(frames[1..]);
      StrandedGetsNoVideo(Input(s, frames[0]), id, frames[1..], count);
    }
  }

  lemma SizeFits(s: State)
    requires CoreSized(s)
    ensures |s.q.frames| <= INVALID_INDEX
  {
  }

  // ---------------------------------------------------------------- how a receiver gets stranded

  ghost predicate HasKey(frames: seq<DataSpec>) {
    exists p :: 0 <= p < |frames| && IsKeyVideo(frames[p].media)
  }

  lemma {:induction false} SomeLastKey(frames: seq<DataSpec>, n: nat) returns (p: nat)
    requires n <= |frames| && HasKey(frames) && forall i | n <= i < |frames| :: !IsKeyVideo(frames[i].media)
    ensures IsLastKey(frames, p)
    decreases n
  {
    if IsKeyVideo(frames[n - 1].media) {
      p := n - 1;
    } else {
      p := SomeLastKey(frames, n - 1);
    }
  }

  lemma NoLastKey(frames: seq<DataSpec>)
    ensures HasKey(frames) <==> exists p :: IsLastKey(frames, p)
  {
    if HasKey(frames) {
      var p := SomeLastKey(frames, |frames|);
    }
    if p: nat :| IsLastKey(frames, p) {
      assert IsKeyVideo(frames[p].media);
    }
  }

  /**
   * A receiver outside key mode that is attached while no key frame is awaited is stranded if and only if frames are
   * buffered, none of them a key frame, and no activation of video indices is pending.
   */
  lemma AttachStrands(s: State, id: nat)
    requires Inv(s) && id !in s.q.notifiers && |s.q.notifiers| < 16 && s.cfg.mode != AudioOnly && !s.waitingKey
    ensures Stranded(Attach(s, id, false, false), id) <==>
            s.q.frames != [] && !HasKey(s.q.frames) && !s.videoNeedActivate
  {
    NoLastKey(s.q.frames);
    AttachStarts(s, id, false, false);
    assert |s.q.frames| <= INVALID_INDEX;
    hide Inv, Attach, NextAudio, LastAudio, HasKey;
    if p: nat :| IsLastKey(s.q.frames, p) {
      LastKeyInRange(s.q.frames, p);
    }
  }

  // ---------------------------------------------------------------- a run that strands a receiver

  /** The last 500 at most of `n` video frames, the first of them a key frame. */
  ghost predicate FirstIsKey(frames: seq<DataSpec>, n: nat) {
    && n > 0 && |frames| == AtMost(n, 500)
    && forall i | 0 <= i < |frames| ::
         frames[i].media == if n <= 500 && i == 0 then DispatcherOverrun.KEY else DispatcherOverrun.DELTA
  }

  /** `n` video frames were input, the first of them a key frame. */
  ghost predicate Filled(s: State, n: nat) {
    && Inv(s) && s.cfg.mode != AudioOnly && s.cfg.maxCapacity == 500
    && !s.waitingKey && !s.keyOnly && !s.redirect && !s.videoNeedActivate && s.q.notifiers.Keys == {0}
    && FirstIsKey(s.q.frames, n)
  }

  lemma DeltaIsReady(s: State)
    requires Inv(s) && s.cfg.mode != AudioOnly && !s.waitingKey
    ensures Admit(s, DispatcherOverrun.DELTA).Some?
    ensures var t := Admit(s, DispatcherOverrun.DELTA).value; Ready(t) && t == s.(z := t.z)
  {
    DispatcherSafety.InvParts(s);
    AdmitReady(s, DispatcherOverrun.DELTA);
    hide Inv, Ready, Recalculate;
  }

  lemma FullOrNot(s: State)
    requires Ready(s) && s.cfg.maxCapacity == 500
    ensures s.z.capacity == 500 && |s.q.frames| <= 500 && !CanExtend(s)
  {
  }

  lemma DeltaFills(s: State, n: nat)
    requires Filled(s, n)
    ensures Filled(Input(s, DispatcherOverrun.DELTA), n + 1)
  {
    var delta := DispatcherOverrun.DELTA;
    InputKeeps(s, delta);
    DeltaIsReady(s);
    hide Inv, Ready, Admit, Write, FirstIsKey;
    var t := Admit(s, delta).value;
    FullOrNot(t);
    DeltaWritten(t, n);
    WriteFlags(t, delta);
  }

  lemma DeltaWritten(s: State, n: nat)
    requires Ready(s) && s.z.capacity == 500 && !CanExtend(s) && FirstIsKey(s.q.frames, n)
    ensures FirstIsKey(Write(s, DispatcherOverrun.DELTA).q.frames, n + 1)
  {
    var delta := DispatcherOverrun.DELTA;
    assert FirstVideo(s.q.frames, 0) by {
      assert s.q.frames[0].media.mediaType == Video;
    }
    hide Ready, KeepsFrom, Write, CanExtend, FirstVideo;
    ReadyCore(s);
    WriteLast(s, delta);
    if n < 500 {
      NothingLost(s, delta);
      KeptMedia(s, Write(s, delta), 0, delta);
    } else {
      FullRingEvicts(s, delta, 0);
      KeptMedia(s, Write(s, delta), 1, delta);
    }
  }

  lemma KeptMedia(s: State, t: State, k: nat, media: MediaData)
    requires KeepsFrom(s, t, k) && t.q.frames[|t.q.frames| - 1].media == media
    ensures k <= |s.q.frames| && |t.q.frames| == |s.q.frames| - k + 1
    ensures forall i | 0 <= i < |t.q.frames| - 1 :: t.q.frames[i].media == s.q.frames[k + i].media
    ensures t.q.frames[|t.q.frames| - 1].media == media
  {
  }

  lemma WriteFlags(s: State, media: MediaData)
    requires Ready(s) && s.cfg.mode != AudioOnly && !s.videoNeedActivate && !s.redirect
    ensures var t := Write(s, media);
            && !t.videoNeedActivate && !t.redirect && t.keyOnly == s.keyOnly && t.waitingKey == s.waitingKey
            && t.cfg == s.cfg && t.q.notifiers.Keys == s.q.notifiers.Keys
            && t.q.frames != [] && t.q.frames[|t.q.frames| - 1].media == media
  {
    ReadyCore(s);
    WriteLast(s, media);
    MakeRoomKeeps(s, media);
    RoomIsReady(s, media);
    var u := MakeRoom(s, media);
    hide Ready, Core, MakeRoom, Append, QueueOK, Sized, IsSuffix;
    RequestsEnd(u, media);
    AppendRest(u, media);
    forall id
      ensures id in Append(u, media).q.notifiers <==> id in u.q.notifiers
    {
      AppendKeys(u, media);
    }
  }

  lemma AppendKeys(s: State, media: MediaData)
    ensures Append(s, media).q.notifiers.Keys == s.q.notifiers.Keys
  {
    hide PushBack, ReadyBits, RedirectMarks;
  }

  // The first frames.

  lemma FirstKeyFills(s: State)
    requires Inv(s) && s.cfg.mode != AudioOnly && s.cfg.maxCapacity == 500 && s.waitingKey
    requires s.q.frames == [] && s.q.notifiers.Keys == {0} && !s.q.notifiers[0].keyMode && !s.keyOnly && !s.redirect
    requires s.z == Initial(s.cfg).z
    ensures Filled(Input(s, DispatcherOverrun.KEY), 1)
  {
    var key := DispatcherOverrun.KEY;
    InputKeeps(s, key);
    var a := Restart(s);
    DispatcherSafety.InvParts(s);
    RestartReady(s);
    ReadyCore(a);
    DispatcherOverrun.RestartStarts(s);
    RestartInvalid(s);
    hide Inv, Core, Tight, Ready, Restart, Admit, MakeRoom, Append;
    DispatcherOverrun.EmptyRoom(a);
    AppendKeepsAll(a, key);
    AppendLast(a, key);
    AppendRest(a, key);
    AppendKeys(a, key);
    RequestsEnd(a, key);
  }

  lemma RestartInvalid(s: State)
    requires s.q.notifiers.Keys == {0} && !s.q.notifiers[0].keyMode
    ensures var a := Restart(s);
            && a.q.notifiers.Keys == {0} && a.q.notifiers[0].videoIndex == INVALID_INDEX
            && !a.q.notifiers[0].keyMode && !a.waitingKey
  {
  }

  lemma {:induction false} DeltasFill(s: State, n: nat, k: nat)
    requires Filled(s, n)
    ensures Filled(Run(s, DispatcherOverrun.Deltas(k)), n + k)
    decreases k
  {
    hide Filled, Input;
    if k > 0 {
      DeltaFills(s, n);
      assert DispatcherOverrun.Deltas(k)[1..] == DispatcherOverrun.Deltas(k - 1);
      DeltasFill(Input(s, DispatcherOverrun.DELTA), n + 1, k - 1);
    }
  }

  lemma RunFills(cfg: Config, n: nat)
    requires ConfigOK(cfg) && cfg.maxCapacity == 500 && cfg.mode != AudioOnly && n > 0
    ensures Filled(Run(Initial(cfg), DispatcherOverrun.Filling(n)), n)
  {
    hide Inv, Filled, Step, Initial;
    var s0 := Initial(cfg);
    FirstAttached(cfg);
    var s1 := Step(s0, DispatcherOverrun.ATTACH).0;
    FirstKeyFills(s1);
    InputIsStep(s1);
    DeltasFill(Input(s1, DispatcherOverrun.KEY), 1, n - 1);
    DispatcherOverrun.FillingUnfolds(s0, n);
  }

  lemma FirstAttached(cfg: Config)
    requires ConfigOK(cfg)
    ensures var s := Step(Initial(cfg), DispatcherOverrun.ATTACH).0;
            && Inv(s) && s.cfg == cfg && s.waitingKey && s.q.frames == [] && s.q.notifiers.Keys == {0}
            && !s.q.notifiers[0].keyMode && !s.keyOnly && !s.redirect && s.z == Initial(cfg).z
  {
    InitialOK(cfg);
    DispatcherOverrun.AttachFirst(cfg);
    hide Inv, Attach;
    StepKeeps(Initial(cfg), DispatcherOverrun.ATTACH);
  }

  lemma InputIsStep(s: State)
    ensures Step(s, OpInput(DispatcherOverrun.KEY)).0 == Input(s, DispatcherOverrun.KEY)
  {
    hide Input;
  }

  /**
   * With maximum 500, after a key frame and 500 others that one receiver has not read, a second receiver is attached:
   * whatever frames follow, key frames included, it is handed no video.
   */
  lemma AttachedTooLate(cfg: Config, frames: seq<MediaData>, count: nat)
    requires ConfigOK(cfg) && cfg.maxCapacity == 500 && cfg.mode != AudioOnly
    ensures var s := Attach(Run(Initial(cfg), DispatcherOverrun.Filling(501)), 7, false, false);
            7 in s.q.notifiers && Delivered(Run(s, InputsOf(frames)), Reads(7, Video, count), 7) == []
  {
    hide Inv, Filled, Run, Initial, Attach, Stranded, Core;
    RunFills(cfg, 501);
    var s := Run(Initial(cfg), DispatcherOverrun.Filling(501));
    FilledStrands(s, 501);
    StrandedGetsNoVideo(Attach(s, 7, false, false), 7, frames, count);
  }

  lemma FilledStrands(s: State, n: nat)
    requires Filled(s, n) && n > 500
    ensures var t := Attach(s, 7, false, false); 7 in t.q.notifiers && Core(t) && Stranded(t, 7)
  {
    NoKeyLeft(s.q.frames, n);
    assert |s.q.notifiers| == |s.q.notifiers.Keys| == 1;
    hide FirstIsKey, HasKey, Attach, Inv, Core;
    AttachStrands(s, 7);
    DispatcherSafety.InvParts(s);
    AttachCore(s, 7, false, false);
  }

  lemma NoKeyLeft(frames: seq<DataSpec>, n: nat)
    requires FirstIsKey(frames, n) && n > 500
    ensures frames != [] && !HasKey(frames)
  {
  }
}
