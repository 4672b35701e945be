/** What the invariants say about reachable states, in the terms of the callers. */
module DispatcherResults {
  import opened Media
  import opened Options
  import opened DispatcherSpec
  import opened DispatcherInvariant
  import opened DispatcherCore
  import opened DispatcherSafety
  import opened DispatcherReading

  ghost predicate WithinCapacity(s: State) {
    |s.q.frames| <= s.z.capacity <= s.cfg.maxCapacity
  }

  /** A frame that is admitted finds room in the ring when it is pushed. */
  predicate HasRoom(s: State, media: MediaData) {
    Admit(s, media).Some? ==>
      var t := MakeRoom(Admit(s, media).value, media);
      |t.q.frames| < t.z.capacity
  }

  /** Size within capacity within the maximum, after every run in which no sum can wrap around. */
  lemma CapacityBound(cfg: Config, ops: seq<Op>)
    requires ConfigOK(cfg) && Covered(cfg, |ops|)
    ensures WithinCapacity(Run(Initial(cfg), ops))
  {
    ReachableInv(cfg, ops);
  }

  /** The two counters are exact after every such run. */
  lemma CountersAreExact(cfg: Config, ops: seq<Op>)
    requires ConfigOK(cfg) && Covered(cfg, |ops|)
    ensures var q := Run(Initial(cfg), ops).q;
            q.audioCnt == CountAudio(q.frames) && q.videoCnt == |q.frames| - CountAudio(q.frames)
  {
    ReachableInv(cfg, ops);
  }

  /** The key list is increasing, lists key frames only, and ends with the last key frame whenever there is one. */
  lemma KeyListIsAccurate(cfg: Config, ops: seq<Op>, i: nat, p: nat)
    requires ConfigOK(cfg) && Covered(cfg, |ops|)
    ensures var q := Run(Initial(cfg), ops).q;
            && (i < |q.keys| ==> q.keys[i] < |q.frames| && IsKeyVideo(q.frames[q.keys[i]].media))
            && (0 < i < |q.keys| ==> q.keys[i - 1] < q.keys[i])
            && (IsLastKey(q.frames, p) ==> q.keys != [] && q.keys[|q.keys| - 1] == p)
  {
    ReachableInv(cfg, ops);
  }

  /** While a group of pictures is measured and no key frame is awaited, the counter bounds the buffer. */
  lemma CounterBoundsBuffer(cfg: Config, ops: seq<Op>)
    requires CoreConfig(cfg) && |ops| < UINT32
    ensures var s := Run(Initial(cfg), ops);
            s.z.evaluating && !s.waitingKey ==> |s.q.frames| <= s.z.baseCounter
  {
    InitialCore(cfg);
    RunMeasured(Initial(cfg), ops);
  }

  /** Where a written frame arrives, the ring has room: its own silent eviction of the head does not happen. */
  lemma NoSilentEviction(cfg: Config, ops: seq<Op>, media: MediaData)
    requires ConfigOK(cfg) && Covered(cfg, |ops| + 1)
    ensures HasRoom(Run(Initial(cfg), ops), media)
  {
    var s := Run(Initial(cfg), ops);
    ReachableInv(cfg, ops);
    ReachableFits(cfg, ops, media);
    AdmitReady(s, media);
    hide Inv, MakeRoom, Admit, Fits;
    if Admit(s, media).Some? {
      var t := Admit(s, media).value;
      ReadyParts(t);
      MakeRoomKeeps(t, media);
    }
  }

  lemma ReadyParts(s: State)
    requires Ready(s)
    ensures Sized(s) && QueueOK(s.q)
  {
  }

  lemma ReachableFits(cfg: Config, ops: seq<Op>, media: MediaData)
    requires ConfigOK(cfg) && Covered(cfg, |ops| + 1)
    ensures Fits(Run(Initial(cfg), ops), media)
  {
    var s := Run(Initial(cfg), ops);
    ReachableInv(cfg, ops);
    if !Immune(cfg) {
      InitialCore(cfg);
      RunMeasured(Initial(cfg), ops);
    }
    hide Run;
    CoveredFits(s, media);
  }

  /**
   * In the runs that are covered, not even the sum of capacity and increment exceeds 32 bits where it is used: the
   * width of the type of the capacity does not matter.
   */
  lemma SumsDoNotWrap(cfg: Config, ops: seq<Op>)
    requires ConfigOK(cfg) && |ops| + 1 + cfg.increment < UINT32
    ensures var z := Run(Initial(cfg), ops).z;
            && z.baseCounter + 1 + cfg.increment < UINT32
            && (z.baseCounter + 1 >= z.capacity ==> z.capacity + cfg.increment < UINT32)
  {
    InitialCore(cfg);
    RunMeasured(Initial(cfg), ops);
    assert Initial(cfg).nextSeq == 0;
    hide Run;
  }

  // ---------------------------------------------------------------- receivers and their bits

  /** Live receivers own distinct slots below 16, the flag is their union, and the bits of free slots are clear. */
  lemma ReceiversOwnSlots(cfg: Config, ops: seq<Op>, a: nat, b: nat, slot: nat)
    requires CoreConfig(cfg)
    ensures var s := Run(Initial(cfg), ops);
            && (a in s.q.notifiers ==> s.q.notifiers[a].readIndex < MAX_RECEIVER_SIZE)
            && (a in s.q.notifiers && b in s.q.notifiers && a != b ==>
                  s.q.notifiers[a].readIndex != s.q.notifiers[b].readIndex)
            && (slot in s.refs.readRef <==> exists id :: id in s.q.notifiers && s.q.notifiers[id].readIndex == slot)
            && (slot !in s.refs.readRef ==> AudioBit(slot) !in s.refs.recvRef && VideoBit(slot) !in s.refs.recvRef)
  {
    ReachableCore(cfg, ops);
    CoreParts(Run(Initial(cfg), ops));
    hide Core, CoreQ, CoreSized, Run;
    assert AudioBit(slot) / 2 == slot && VideoBit(slot) / 2 == slot;
  }

  /** A new receiver gets the lowest free slot; it is turned away exactly when sixteen are attached. */
  lemma AttachTakesLowestSlot(s: State, id: nat, keyMode: bool, keyRedirect: bool)
    requires SlotsOK(s.q.notifiers, s.refs) && id !in s.q.notifiers
    ensures var t := Attach(s, id, keyMode, keyRedirect);
            && (id in t.q.notifiers <==> |s.q.notifiers| < MAX_RECEIVER_SIZE)
            && (id in t.q.notifiers ==>
                  var slot := t.q.notifiers[id].readIndex;
                  && slot !in s.refs.readRef && (forall k: nat | k < slot :: k in s.refs.readRef)
                  && t.refs.readRef == s.refs.readRef + {slot} && t.refs.recvRef == s.refs.recvRef)
            && (id !in t.q.notifiers ==> t == s)
  {
    hide SlotsOK, StartPosition, LowestFree;
    SlotsLeft(s.q.notifiers, s.refs);
    LowestFreeSpec(s.refs.readRef, 0);
  }

  /** The operations that belong to a single receiver, and that receiver. */
  predicate IsOwnOp(op: Op) {
    op.OpAttach? || op.OpDetach? || op.OpReady? || op.OpClearReadBit? || op.OpClearDataBit? || op.OpReceiverKeyMode?
  }

  function Owner(op: Op): nat
    requires IsOwnOp(op)
  {
    match op
    case OpAttach(id, _, _) => id
    case OpDetach(id) => id
    case OpReady(id, _) => id
    case OpClearReadBit(id, _) => id
    case OpClearDataBit(id, _) => id
    case OpReceiverKeyMode(id, _) => id
    case _ => 0
  }

  /** Updating one receiver's bits leaves the two bits of every other receiver alone, in both fields. */
  lemma OthersKeepTheirBits(s: State, op: Op, other: nat, bit: nat)
    requires SlotsOK(s.q.notifiers, s.refs) && IsOwnOp(op) && other in s.q.notifiers && other != Owner(op)
    requires bit / 2 == s.q.notifiers[other].readIndex
    ensures var t := Step(s, op).0;
            && (bit in t.refs.recvRef <==> bit in s.refs.recvRef)
            && (bit in t.refs.dataRef <==> bit in s.refs.dataRef)
            && other in t.q.notifiers && t.q.notifiers[other] == s.q.notifiers[other]
  {
    hide SlotsOK, Attach, Detach, ReceiverKeyMode, NotifyReadReady, ClearReadBit, ClearDataBit;
    var id := Owner(op);
    OtherSlot(s, id, other);
    match op
    case OpAttach(_, keyMode, keyRedirect) => AttachKeepsOthers(s, id, keyMode, keyRedirect, other, bit);
    case OpDetach(_) => DetachKeepsOthers(s, id, other, bit);
    case OpReady(_, mediaType) => BitOpsKeepOthers(s, id, mediaType, bit);
    case OpClearReadBit(_, mediaType) => BitOpsKeepOthers(s, id, mediaType, bit);
    case OpClearDataBit(_, mediaType) => BitOpsKeepOthers(s, id, mediaType, bit);
    case OpReceiverKeyMode(_, enable) => KeyModeKeepsOthers(s, id, enable, other, bit);
    case _ =>
  }

  lemma DetachKeepsOthers(s: State, id: nat, other: nat, bit: nat)
    requires other in s.q.notifiers && other != id
    requires id in s.q.notifiers ==> s.q.notifiers[id].readIndex != bit / 2
    ensures var t := Detach(s, id);
            && (bit in t.refs.recvRef <==> bit in s.refs.recvRef) && t.refs.dataRef == s.refs.dataRef
            && other in t.q.notifiers && t.q.notifiers[other] == s.q.notifiers[other]
  {
  }

  lemma BitOpsKeepOthers(s: State, id: nat, mediaType: MediaType, bit: nat)
    requires id in s.q.notifiers ==> s.q.notifiers[id].readIndex != bit / 2
    ensures var t := NotifyReadReady(s, id, mediaType);
            (bit in t.refs.recvRef <==> bit in s.refs.recvRef) && (bit in t.refs.dataRef <==> bit in s.refs.dataRef)
    ensures bit in ClearReadBit(s, id, mediaType).refs.recvRef <==> bit in s.refs.recvRef
    ensures bit in ClearDataBit(s, id, mediaType).refs.dataRef <==> bit in s.refs.dataRef
    ensures ClearReadBit(s, id, mediaType).refs.dataRef == s.refs.dataRef
    ensures ClearDataBit(s, id, mediaType).refs.recvRef == s.refs.recvRef
  {
    hide DataAvailable;
  }

  lemma KeyModeKeepsOthers(s: State, id: nat, enable: bool, other: nat, bit: nat)
    requires other in s.q.notifiers && other != id
    requires id in s.q.notifiers ==> s.q.notifiers[id].readIndex != bit / 2
    ensures var t := ReceiverKeyMode(s, id, enable);
            && t.refs.recvRef == s.refs.recvRef && (bit in t.refs.dataRef <==> bit in s.refs.dataRef)
            && other in t.q.notifiers && t.q.notifiers[other] == s.q.notifiers[other]
  {
  }

  lemma OtherSlot(s: State, id: nat, other: nat)
    requires SlotsOK(s.q.notifiers, s.refs) && other in s.q.notifiers && other != id
    ensures s.q.notifiers[other].readIndex in s.refs.readRef
    ensures id in s.q.notifiers ==> s.q.notifiers[id].readIndex != s.q.notifiers[other].readIndex
  {
  }

  lemma AttachKeepsOthers(s: State, id: nat, keyMode: bool, keyRedirect: bool, other: nat, bit: nat)
    requires other in s.q.notifiers && other != id && bit / 2 == s.q.notifiers[other].readIndex
    requires s.q.notifiers[other].readIndex in s.refs.readRef
    ensures var t := Attach(s, id, keyMode, keyRedirect);
            && t.refs.recvRef == s.refs.recvRef && (bit in t.refs.dataRef <==> bit in s.refs.dataRef)
            && other in t.q.notifiers && t.q.notifiers[other] == s.q.notifiers[other]
  {
    hide StartPosition, LowestFree;
    LowestFreeSpec(s.refs.readRef, 0);
  }
}
