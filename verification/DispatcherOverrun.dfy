/**
 * Where the capacity bound ends: a sum of counter and increment that wraps around confirms a base capacity below the
 * size of the buffer, and the next push evicts the head silently.
 */
module DispatcherOverrun {
  import opened Media
  import opened Options
  import opened DispatcherSpec
  import opened DispatcherInvariant
  import opened DispatcherCore
  import opened DispatcherSafety
  import opened DispatcherResults
  import opened DispatcherOnce

  const KEY := MediaData(Video, true, 0)
  const DELTA := MediaData(Video, false, 0)

  ghost predicate AllUnreadVideo(frames: seq<DataSpec>) {
    forall i | 0 <= i < |frames| :: frames[i].media.mediaType == Video && frames[i].reserve == {}
  }

  ghost predicate ZeroKeys(keys: seq<nat>) {
    |keys| <= 1 && forall i | 0 <= i < |keys| :: keys[i] == 0
  }

  /** The flags of a dispatcher that measures its first group of pictures. */
  ghost predicate Measuring(s: State, n: nat) {
    && ConfigOK(s.cfg) && s.cfg.mode != AudioOnly
    && s.z.evaluating && !s.waitingKey && !s.keyOnly && !s.redirect && s.z.baseCounter == Wrap(n)
  }

  /** Video frames only, none of them read, and none of them a key frame behind the head. */
  ghost predicate Plain(q: Queue) {
    q.frames != [] && AllUnreadVideo(q.frames) && ZeroKeys(q.keys) && q.audioCnt == 0 && q.videoCnt == |q.frames|
  }

  /** The buffer grew with the frames until it reached the maximum, and has not shrunk since. */
  ghost predicate Grown(s: State, n: nat) {
    && INITIAL_BUFFER_CAPACITY <= s.z.capacity <= s.cfg.maxCapacity && |s.q.frames| <= s.z.capacity
    && (n <= s.cfg.maxCapacity ==> |s.q.frames| == n)
    && (n > INITIAL_BUFFER_CAPACITY ==> |s.q.frames| > INITIAL_BUFFER_CAPACITY)
  }

  /** `n` video frames were put in, the first one a key frame, and one receiver has read none of them. */
  ghost predicate Growing(s: State, n: nat) {
    && Measuring(s, n) && Plain(s.q) && Grown(s, n) && s.cfg.maxCapacity > INITIAL_BUFFER_CAPACITY
    && s.refs.readRef == {0} && 0 in s.q.notifiers && s.q.notifiers[0].readIndex == 0
  }

  // ---------------------------------------------------------------- one more frame

  lemma FirstIsVideo(q: Queue)
    requires Plain(q)
    ensures NextDeleteVideo(q.frames) == 0
  {
  }

  lemma PopOne(q: Queue)
    requires Plain(q)
    ensures var t := PopHeads(q, 1);
            && t.frames == q.frames[1..] && AllUnreadVideo(t.frames) && ZeroKeys(t.keys)
            && t.audioCnt == 0 && t.videoCnt == |t.frames|
  {
    assert PopHeads(q, 1) == PopHeads(PopHead(q), 0) == PopHead(q);
  }

  /** The sizing after one more frame that is no key frame: the capacity never shrinks. */
  lemma RecalculateGrows(s: State, n: nat)
    requires Measuring(s, n) && Grown(s, n) && s.cfg.maxCapacity > INITIAL_BUFFER_CAPACITY
    ensures var z := Recalculate(s.z, s.cfg, false);
            && z.baseCounter == Wrap(n + 1) && z.evaluating && z.base == s.z.base
            && s.z.capacity <= z.capacity <= s.cfg.maxCapacity
            && (n + 1 <= s.cfg.maxCapacity && |s.q.frames| == z.capacity ==>
                  z.capacity < z.dbl <= s.cfg.maxCapacity)
  {
    assert Wrap(Wrap(n) + 1) == Wrap(n + 1);
  }

  /** Making room for it: the capacity is doubled where that is needed, or the head is popped. */
  lemma MakeRoomGrows(s: State, n: nat)
    requires Plain(s.q) && s.refs.readRef == {0} && |s.q.frames| <= s.z.capacity <= s.cfg.maxCapacity
    requires INITIAL_BUFFER_CAPACITY <= s.z.capacity
    ensures var t := MakeRoom(s, DELTA);
            && t.z == s.z.(capacity := t.z.capacity) && t == s.(q := t.q, z := t.z)
            && s.z.capacity <= t.z.capacity <= s.cfg.maxCapacity
            && AllUnreadVideo(t.q.frames) && ZeroKeys(t.q.keys) && t.q.audioCnt == 0 && t.q.videoCnt == |t.q.frames|
            && |t.q.frames| < t.z.capacity && |s.q.frames| - 1 <= |t.q.frames| <= |s.q.frames|
            && (|s.q.frames| < s.z.capacity || s.z.capacity < s.z.dbl <= s.cfg.maxCapacity ==>
                  |t.q.frames| == |s.q.frames|)
            && (|t.q.frames| < |s.q.frames| ==> |s.q.frames| == t.z.capacity)
  {
    FirstIsVideo(s.q);
    PopOne(s.q);
    hide PopHeads, PopAudios, NextDeleteVideo, AllUnreadVideo;
    assert HeadNeedReserve(s.q, {0}) by { HeadUnread(s.q); }
  }

  lemma HeadUnread(q: Queue)
    requires Plain(q)
    ensures q.frames[0].reserve == {}
  {
  }

  lemma AppendGrows(s: State, media: MediaData)
    requires media.mediaType == Video && |s.q.frames| < s.z.capacity && !s.redirect
    requires AllUnreadVideo(s.q.frames) && s.q.audioCnt == 0 && s.q.videoCnt == |s.q.frames| < UINT32 - 1
    ensures var t := Append(s, media);
            && t.q.frames == s.q.frames + [NewFrame(s, media)] && AllUnreadVideo(t.q.frames)
            && t.q.audioCnt == 0 && t.q.videoCnt == |t.q.frames|
            && t.q.keys == (if media.keyFrame then s.q.keys + [|s.q.frames|] else s.q.keys)
            && t.z == s.z && t.cfg == s.cfg && t.refs.readRef == s.refs.readRef
            && t.keyOnly == s.keyOnly && t.waitingKey == s.waitingKey && !t.redirect
  {
    hide AppendNotifiers, ReadyBits, AllAudioValid, AllVideoValid, Jumped;
  }

  lemma DeltaGrows(s: State, n: nat)
    requires Core(s) && Growing(s, n)
    ensures Growing(Input(s, DELTA), n + 1)
  {
    InputFollows(s, DELTA);
    RecalculateGrows(s, n);
    var a := s.(z := Recalculate(s.z, s.cfg, false));
    assert Admit(s, DELTA) == Some(a);
    hide Recalculate, Core, Descends, Admit;
    MakeRoomGrows(a, n);
    var t := MakeRoom(a, DELTA);
    hide MakeRoom, AllUnreadVideo;
    AppendGrows(t, DELTA);
    hide Append;
  }

  function Deltas(k: nat): seq<Op> {
    if k == 0 then [] else [OpInput(DELTA)] + Deltas(k - 1)
  }

  lemma {:induction false} DeltasGrow(s: State, n: nat, k: nat)
    requires Core(s) && Growing(s, n)
    ensures Growing(Run(s, Deltas(k)), n + k)
    decreases k
  {
    hide Core, Growing, Input;
    if k > 0 {
      DeltaGrows(s, n);
      StepCore(s, OpInput(DELTA));
      assert Deltas(k)[1..] == Deltas(k - 1);
      DeltasGrow(Input(s, DELTA), n + 1, k - 1);
    }
  }

  // ---------------------------------------------------------------- the first frame

  const ATTACH := OpAttach(0, false, false)

  lemma AttachFirst(cfg: Config)
    ensures var s := Step(Initial(cfg), ATTACH).0;
            && s.q.frames == [] && s.refs.readRef == {0} && s.q.notifiers.Keys == {0}
            && s.q.notifiers[0].readIndex == 0 && !s.q.notifiers[0].keyMode
            && s.z == Initial(cfg).z && s.cfg == cfg && s.waitingKey && !s.keyOnly && !s.redirect
            && s.q.keys == [] && s.q.audioCnt == 0
  {
    assert LowestFree({}, 0) == 0;
  }

  lemma KeyStarts(s: State)
    requires Core(s) && ConfigOK(s.cfg) && s.cfg.maxCapacity > INITIAL_BUFFER_CAPACITY && s.cfg.mode != AudioOnly
    requires s.q.frames == [] && s.refs.readRef == {0} && 0 in s.q.notifiers && s.q.notifiers[0].readIndex == 0
    requires s.z == Initial(s.cfg).z && s.waitingKey && !s.keyOnly && !s.redirect
    ensures Growing(Input(s, KEY), 1)
  {
    hide Core, CoreStage, Descends, MakeRoom, Restart, Admit, Append;
    InputFollows(s, KEY);
    var a := Restart(s);
    RestartStarts(s);
    EmptyRoom(a);
    AppendGrows(a, KEY);
  }

  lemma RestartStarts(s: State)
    requires s.cfg.mode != AudioOnly && s.waitingKey && s.z == Initial(s.cfg).z
    ensures var a := Restart(s);
            && Admit(s, KEY) == Some(a) && a.q.frames == [] && a.q.keys == [] && a.q.audioCnt == a.q.videoCnt == 0
            && a.cfg == s.cfg && a.nextSeq == s.nextSeq && a.refs == s.refs && a.keyOnly == s.keyOnly
            && a.redirect == s.redirect && !a.waitingKey && a.z.evaluating && a.z.baseCounter == 1
            && a.z.capacity == a.z.base == INITIAL_BUFFER_CAPACITY
  {
  }

  lemma EmptyRoom(s: State)
    requires s.q.frames == [] && s.q.keys == [] && s.q.audioCnt == 0
    requires s.cfg.mode != AudioOnly && s.z.capacity == INITIAL_BUFFER_CAPACITY == s.z.base
    ensures MakeRoom(s, KEY) == s
  {
  }

  /** A receiver attaches, then a key frame and `n - 1` other video frames come in. */
  function Filling(n: nat): seq<Op>
    requires n > 0
  {
    [ATTACH, OpInput(KEY)] + Deltas(n - 1)
  }

  lemma FillingGrows(cfg: Config, n: nat)
    requires ConfigOK(cfg) && cfg.maxCapacity > INITIAL_BUFFER_CAPACITY && cfg.mode != AudioOnly && n > 0
    ensures Growing(Run(Initial(cfg), Filling(n)), n)
  {
    hide Core, Growing, Attach, Input, Initial;
    var s0 := Initial(cfg);
    var s1 := Step(s0, ATTACH).0;
    var s2 := Step(s1, OpInput(KEY)).0;
    InitialCore(cfg);
    StepCore(s0, ATTACH);
    StepCore(s1, OpInput(KEY));
    AttachFirst(cfg);
    KeyStarts(s1);
    DeltasGrow(s2, 1, n - 1);
    FillingUnfolds(s0, n);
  }

  lemma FillingUnfolds(s: State, n: nat)
    requires n > 0
    ensures Run(s, Filling(n)) == Run(Step(Step(s, ATTACH).0, OpInput(KEY)).0, Deltas(n - 1))
  {
    hide Step, Deltas;
    var rest := Filling(n)[1..];
    assert rest == [OpInput(KEY)] + Deltas(n - 1) && rest[1..] == Deltas(n - 1);
    assert Run(s, Filling(n)) == Run(Step(s, ATTACH).0, rest);
  }

  // ---------------------------------------------------------------- the second key frame

  /** The receiver detaches, so that nothing of what is buffered needs to be kept. */
  lemma DetachFrees(s: State, n: nat)
    requires Growing(s, n)
    ensures var t := Detach(s, 0);
            Measuring(t, n) && Plain(t.q) && Grown(t, n) && t.refs.readRef == {} && t.q.frames == s.q.frames
  {
  }

  /** The room that is made for the second key frame when its base capacity is below the size of the buffer. */
  lemma KeyOverruns(s: State, n: nat)
    requires Measuring(s, n) && Plain(s.q) && s.refs.readRef == {} && |s.q.frames| <= s.cfg.maxCapacity
    requires BaseFor(s.cfg, Wrap(n + 1)) < |s.q.frames|
    ensures Admit(s, KEY).Some?
    ensures var t := MakeRoom(Admit(s, KEY).value, KEY);
            && |t.q.frames| == |s.q.frames| - 1 >= t.z.capacity == BaseFor(s.cfg, Wrap(n + 1))
            && t.q.videoCnt == |t.q.frames| && t.q.audioCnt == 0 && t.redirect == s.redirect
  {
    hide BaseFor, MakeRoom, Plain, Recalculate, Admit;
    KeyAdmits(s, n);
    KeyRoom(s.(z := Recalculate(s.z, s.cfg, true)));
  }

  lemma KeyAdmits(s: State, n: nat)
    requires Measuring(s, n)
    ensures var z := Recalculate(s.z, s.cfg, true);
            && Admit(s, KEY) == Some(s.(z := z))
            && INITIAL_BUFFER_CAPACITY <= z.capacity == z.base == BaseFor(s.cfg, Wrap(n + 1)) <= s.cfg.maxCapacity
  {
    hide BaseFor;
    assert Wrap(Wrap(n) + 1) == Wrap(n + 1);
    BaseInRange(s.cfg, Wrap(n + 1));
  }

  /** The head is not needed any more, so the capacity is not doubled; one frame is evicted. */
  lemma KeyRoom(s: State)
    requires Plain(s.q) && s.refs.readRef == {} && s.cfg.mode != AudioOnly && !s.keyOnly
    requires INITIAL_BUFFER_CAPACITY <= s.z.capacity == s.z.base < |s.q.frames|
    ensures var t := MakeRoom(s, KEY);
            && |t.q.frames| == |s.q.frames| - 1 && t.z.capacity == s.z.capacity
            && t.q.videoCnt == |t.q.frames| && t.q.audioCnt == 0 && t.redirect == s.redirect
  {
    hide PopHeads, PopAudios, NextDeleteVideo, AllUnreadVideo;
    FirstIsVideo(s.q);
    PopOne(s.q);
    HeadUnread(s.q);
    NothingErased(s);
    hide EraseOldGop;
  }

  lemma NothingErased(s: State)
    requires Plain(s.q) && s.cfg.mode != AudioOnly
    ensures EraseOldGop(s) == s
  {
    FirstIsVideo(s.q);
    hide NextDeleteVideo, AllUnreadVideo;
  }

  lemma BaseInRange(cfg: Config, counter: nat)
    requires ConfigOK(cfg)
    ensures INITIAL_BUFFER_CAPACITY <= BaseFor(cfg, counter) <= cfg.maxCapacity
  {
  }

  /** Filling the buffer, then letting go of it. */
  function Prelude(n: nat): seq<Op>
    requires n > 0
  {
    Filling(n) + [OpDetach(0)]
  }

  lemma {:induction false} RunThen(s: State, ops: seq<Op>, op: Op)
    ensures Run(s, ops + [op]) == Step(Run(s, ops), op).0
    decreases ops
  {
    hide Step;
    if ops == [] {
      assert (ops + [op])[1..] == [];
    } else {
      assert (ops + [op])[1..] == ops[1..] + [op] && (ops + [op])[0] == ops[0];
      RunThen(Step(s, ops[0]).0, ops[1..], op);
    }
  }

  lemma PreludeFills(cfg: Config, n: nat)
    requires ConfigOK(cfg) && cfg.maxCapacity > INITIAL_BUFFER_CAPACITY && cfg.mode != AudioOnly && n > 0
    ensures var s := Run(Initial(cfg), Prelude(n));
            Measuring(s, n) && Plain(s.q) && Grown(s, n) && s.refs.readRef == {} && s.cfg == cfg
  {
    FillingGrows(cfg, n);
    RunThen(Initial(cfg), Filling(n), OpDetach(0));
    var f := Run(Initial(cfg), Filling(n));
    InitialCore(cfg);
    RunCore(Initial(cfg), Filling(n));
    DetachFrees(f, n);
    hide Run, Core;
  }

  // ---------------------------------------------------------------- main results

  /** The run keeps the bound, and leaves room for another frame. */
  predicate Bounded(cfg: Config, ops: seq<Op>, media: MediaData) {
    var s := Run(Initial(cfg), ops);
    |s.q.frames| <= s.z.capacity <= cfg.maxCapacity && HasRoom(s, media)
  }

  /**
   * Every state of every run, however long, is within capacity with room for the next frame, if and only if the
   * maximum is exactly the initial capacity, or, with a larger maximum, the dispatcher is for audio only.
   */
  lemma BoundForAllRuns(cfg: Config)
    requires CoreConfig(cfg)
    ensures (forall ops: seq<Op>, media: MediaData :: Bounded(cfg, ops, media)) <==>
            (cfg.maxCapacity == INITIAL_BUFFER_CAPACITY ||
             (cfg.maxCapacity > INITIAL_BUFFER_CAPACITY && cfg.mode == AudioOnly))
  {
    if cfg.maxCapacity < INITIAL_BUFFER_CAPACITY {
      assert Run(Initial(cfg), []) == Initial(cfg);
      assert !Bounded(cfg, [], KEY);
    } else if Immune(cfg) {
      forall ops: seq<Op>, media: MediaData
        ensures Bounded(cfg, ops, media)
      {
        ImmuneIsBounded(cfg, ops, media);
      }
    } else {
      LongGroup(cfg);
      assert !Bounded(cfg, Prelude(2 * UINT32 - 1 - cfg.increment), KEY);
    }
  }

  lemma ImmuneIsBounded(cfg: Config, ops: seq<Op>, media: MediaData)
    requires ConfigOK(cfg) && Immune(cfg)
    ensures Bounded(cfg, ops, media)
  {
    hide Run, HasRoom;
    CapacityBound(cfg, ops);
    RunConfig(cfg, ops);
    NoSilentEviction(cfg, ops, media);
  }

  lemma RunConfig(cfg: Config, ops: seq<Op>)
    requires CoreConfig(cfg)
    ensures Run(Initial(cfg), ops).cfg == cfg
  {
    ReachableCore(cfg, ops);
  }

  /** A group of pictures so long that its counter and the increment add up to zero. */
  lemma LongGroup(cfg: Config)
    requires ConfigOK(cfg) && !Immune(cfg)
    ensures !HasRoom(Run(Initial(cfg), Prelude(2 * UINT32 - 1 - cfg.increment)), KEY)
  {
    hide Run, Plain, MakeRoom, Admit, BaseFor, Prelude;
    var n := 2 * UINT32 - 1 - cfg.increment;
    PreludeFills(cfg, n);
    SumIsZero(cfg);
    KeyOverruns(Run(Initial(cfg), Prelude(n)), n);
  }

  lemma SumIsZero(cfg: Config)
    requires ConfigOK(cfg)
    ensures BaseFor(cfg, Wrap(2 * UINT32 - cfg.increment)) == INITIAL_BUFFER_CAPACITY
  {
  }

  /** A configured increment of -50, as the unsigned field holds it. */
  const OVERRUN := Config(800, UINT32 - 50, Mixed)

  /**
   * With a negative increment a short run suffices: after 549 frames the second key frame confirms a capacity of 500.
   * Its push drops a frame silently, which leaves 548 frames and a frame counter that is one too high.
   */
  lemma OverrunHappens()
    ensures var s := Run(Initial(OVERRUN), Prelude(549));
            var t := Input(s, KEY);
            && ConfigOK(OVERRUN) && WithinCapacity(s) && !HasRoom(s, KEY)
            && |t.q.frames| == 548 && t.z.capacity == 500 && !WithinCapacity(t)
            && t.q.audioCnt + t.q.videoCnt == |t.q.frames| + 1
  {
    hide Run, Plain, MakeRoom, Admit, Append, BaseFor, Prelude;
    var s := Run(Initial(OVERRUN), Prelude(549));
    PreludeFills(OVERRUN, 549);
    OverrunBase();
    KeyOverruns(s, 549);
    SilentPush(MakeRoom(Admit(s, KEY).value, KEY));
    RoomKeepsConfig(Admit(s, KEY).value);
    AdmitKeepsConfig(s);
  }

  lemma OverrunBase()
    ensures BaseFor(OVERRUN, Wrap(550)) == 500
  {
  }

  lemma RoomKeepsConfig(s: State)
    ensures MakeRoom(s, KEY).cfg == s.cfg
  {
    MakeRoomRest(s, KEY);
  }

  lemma AdmitKeepsConfig(s: State)
    ensures Admit(s, KEY).Some? ==> Admit(s, KEY).value.cfg == s.cfg
  {
    hide BaseFor;
  }

  lemma SilentPush(s: State)
    requires |s.q.frames| >= s.z.capacity && s.q.frames != [] && !s.redirect && s.q.audioCnt == 0
    requires s.q.videoCnt < UINT32 - 1
    ensures var t := Append(s, KEY);
            && |t.q.frames| == |s.q.frames| && t.z == s.z && t.cfg == s.cfg
            && t.q.audioCnt == 0 && t.q.videoCnt == s.q.videoCnt + 1
  {
    hide AppendNotifiers, ReadyBits, AllAudioValid, AllVideoValid, Jumped;
  }
}
