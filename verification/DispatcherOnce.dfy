/** At-most-once delivery to a receiver that mixes its read modes freely. */
module DispatcherOnce {
  import opened Media
  import opened Options
  import opened DispatcherSpec
  import opened DispatcherInvariant
  import opened DispatcherCore
  import opened DispatcherDelivery

  /** Every frame of `b` is new, or a frame of `a` with its marks kept. */
  ghost predicate Descends(a: seq<DataSpec>, b: seq<DataSpec>, next: nat) {
    forall j | 0 <= j < |b| :: b[j].seqNo >= next || Stems(a, b[j])
  }

  ghost predicate Stems(a: seq<DataSpec>, d: DataSpec) {
    exists i :: 0 <= i < |a| && a[i].seqNo == d.seqNo && a[i].reserve <= d.reserve
  }

  /** Every buffered frame whose number is in `given` carries the mark of `slot`. */
  ghost predicate Taken(frames: seq<DataSpec>, slot: nat, given: set<nat>) {
    forall p | 0 <= p < |frames| && frames[p].seqNo in given :: slot in frames[p].reserve
  }

  lemma DescendsKeepsTaken(a: seq<DataSpec>, b: seq<DataSpec>, next: nat, slot: nat, given: set<nat>)
    requires Descends(a, b, next) && Taken(a, slot, given) && forall n | n in given :: n < next
    ensures Taken(b, slot, given)
  {
    forall p | 0 <= p < |b| && b[p].seqNo in given
      ensures slot in b[p].reserve
    {
      assert Stems(a, b[p]);
    }
  }

  lemma MarkedDescends(a: seq<DataSpec>, b: seq<DataSpec>, next: nat)
    requires Marked(a, b)
    ensures Descends(a, b, next)
  {
    forall j | 0 <= j < |b|
      ensures Stems(a, b[j])
    {
      assert a[j].seqNo == b[j].seqNo && a[j].reserve <= b[j].reserve;
    }
  }

  lemma SuffixDescends(a: seq<DataSpec>, b: seq<DataSpec>, next: nat)
    requires IsSuffix(b, a)
    ensures Descends(a, b, next)
  {
    forall j | 0 <= j < |b|
      ensures Stems(a, b[j])
    {
      assert b[j] == a[|a| - |b| + j];
    }
  }

  lemma DescendsTrans(a: seq<DataSpec>, b: seq<DataSpec>, c: seq<DataSpec>, next: nat)
    requires Descends(a, b, next) && Descends(b, c, next)
    ensures Descends(a, c, next)
  {
    forall j | 0 <= j < |c| && c[j].seqNo < next
      ensures Stems(a, c[j])
    {
      assert Stems(b, c[j]);
      var i :| 0 <= i < |b| && b[i].seqNo == c[j].seqNo && b[i].reserve <= c[j].reserve;
      assert Stems(a, b[i]);
    }
  }

  lemma PushDescends(frames: seq<DataSpec>, capacity: nat, d: DataSpec, next: nat)
    requires d.seqNo >= next
    ensures Descends(frames, Kept(frames, capacity) + [d], next)
  {
    var kept := Kept(frames, capacity);
    var pushed := kept + [d];
    forall j | 0 <= j < |pushed| && pushed[j].seqNo < next
      ensures Stems(frames, pushed[j])
    {
      assert pushed[j] == frames[|frames| - |kept| + j];
    }
  }

  // ---------------------------------------------------------------- steps

  /** The receivers keep their slots, and the frames descend. */
  ghost predicate Follows(s: State, t: State) {
    SameSlots(s.q.notifiers, t.q.notifiers) && Descends(s.q.frames, t.q.frames, s.nextSeq)
  }

  lemma AppendFollows(s: State, media: MediaData)
    requires Core(s)
    ensures Follows(s, Append(s, media))
  {
    hide CoreQ, CoreSized, SlotsOK, Before, Kept, PushBack, AppendNotifiers, SameSlots, Jumped, ReadyBits, Descends;
    var q := AppendQueue(s, media);
    AppendQueueCore(s, media);
    PushDescends(s.q.frames, s.z.capacity, NewFrame(s, media), s.nextSeq);
    SameSlotsKeeps(s.q.notifiers, q.notifiers, s.refs);
    SlotsAreBounded(q.notifiers, s.refs);
    if IsKeyVideo(media) && s.redirect {
      var r := OnKeyRedirect(q, s.rapid);
      OnKeyRedirectCore(q, s.rapid);
      MarkedDescends(q.frames, r.frames, s.nextSeq);
      DescendsTrans(s.q.frames, q.frames, r.frames, s.nextSeq);
      SlotsTrans(s.q.notifiers, q.notifiers, r.notifiers);
    }
  }

  lemma SlotsTrans(a: Notifiers, b: Notifiers, c: Notifiers)
    requires SameSlots(a, b) && SameSlots(b, c)
    ensures SameSlots(a, c)
  {
  }

  lemma FollowsTrans(s: State, t: State, u: State)
    requires Follows(s, t) && Follows(t, u) && t.nextSeq == s.nextSeq
    ensures Follows(s, u)
  {
    hide Descends;
    SlotsTrans(s.q.notifiers, t.q.notifiers, u.q.notifiers);
    DescendsTrans(s.q.frames, t.q.frames, u.q.frames, s.nextSeq);
  }

  lemma StageFollows(s: State, t: State)
    requires CoreStage(s, t)
    ensures Follows(s, t) && t.nextSeq == s.nextSeq
  {
    SuffixDescends(s.q.frames, t.q.frames, s.nextSeq);
  }

  lemma WriteFollows(s: State, media: MediaData)
    requires Core(s)
    ensures Follows(s, Write(s, media))
  {
    hide Core, CoreStage, MakeRoom, Follows, Append;
    var t := MakeRoom(s, media);
    CoreParts(s);
    MakeRoomCore(s, media);
    StageCore(s, t);
    StageFollows(s, t);
    AppendFollows(t, media);
    FollowsTrans(s, t, Write(s, media));
  }

  lemma InputFollows(s: State, media: MediaData)
    requires Core(s)
    ensures Follows(s, Input(s, media))
  {
    CoreParts(s);
    AdmitCore(s, media);
    FlushCore(s);
    StageFollows(s, Flush(s));
    StageFollows(s, s) by { StageRefl(s); }
    hide Core, CoreStage, Write, Admit, Flush, Descends, SameSlots;
    if Admit(s, media).Some? {
      var t := Admit(s, media).value;
      WriteFollows(t, media);
      FollowsTrans(s, t, Write(t, media));
    }
  }

  lemma StageRefl(s: State)
    requires CoreSized(s) && CoreQ(s.q)
    ensures CoreStage(s, s)
  {
  }

  /** Receiver `id` stays attached. */
  predicate Stays(op: Op, id: nat) {
    op.OpDetach? ==> op.id != id
  }

  /** Its slot stays the same, and what others read, or what it has read, does not come back unmarked. */
  lemma StepFollows(s: State, op: Op, id: nat)
    requires Core(s) && id in s.q.notifiers && Stays(op, id)
    ensures var t := Step(s, op).0;
            && id in t.q.notifiers && t.q.notifiers[id].readIndex == s.q.notifiers[id].readIndex
            && Descends(s.q.frames, t.q.frames, s.nextSeq)
  {
    hide Core, CoreStage, Descends, Input, Flush, Read, Marked;
    if op.OpInput? {
      InputFollows(s, op.media);
    } else if op.OpFlush? {
      CoreParts(s);
      FlushCore(s);
      StageFollows(s, Flush(s));
    } else if op.OpRead? {
      ReadFollows(s, op.id, op.mediaType, id);
    } else {
      hide Step;
      ReceiverOpsKeepView(s, op, id);
      MarkedRefl(s.q.frames);
      MarkedDescends(s.q.frames, s.q.frames, s.nextSeq);
    }
  }

  lemma ReadFollows(s: State, reader: nat, mediaType: MediaType, id: nat)
    requires id in s.q.notifiers
    ensures var t := Read(s, reader, mediaType).0;
            && id in t.q.notifiers && t.q.notifiers[id].readIndex == s.q.notifiers[id].readIndex
            && Descends(s.q.frames, t.q.frames, s.nextSeq)
  {
    hide Marked, Descends, ReadIndex, Delivers, ReadFrames;
    MarkedRefl(s.q.frames);
    if HasFrame(s, reader, mediaType) {
      ReadMarks(s, reader, mediaType);
    }
    MarkedDescends(s.q.frames, Read(s, reader, mediaType).0.q.frames, s.nextSeq);
  }

  /** What a read hands over was not marked before, and is the only frame of its number, marked afterwards. */
  lemma ReadTakes(s: State, id: nat, mediaType: MediaType, given: set<nat>)
    requires Core(s) && id in s.q.notifiers && Taken(s.q.frames, s.q.notifiers[id].readIndex, given)
    ensures var (t, out) := Read(s, id, mediaType);
            out.Some? ==>
              && out.value.seqNo !in given && out.value.seqNo < s.nextSeq
              && forall p | 0 <= p < |t.q.frames| && t.q.frames[p].seqNo == out.value.seqNo ::
                   s.q.notifiers[id].readIndex in t.q.frames[p].reserve
  {
    CoreParts(s);
    hide Core, CoreSized, SlotsOK, IndicesClamped, KeysNear, ReserveOK;
    if HasFrame(s, id, mediaType) && Delivers(s, id, mediaType) {
      var n := s.q.notifiers[id];
      var i := ReadIndex(n, mediaType);
      var u := AfterCallback(s, id, mediaType);
      var t := Read(s, id, mediaType).0;
      AdvanceMarks(u, id, i, mediaType);
      hide Advance, ReadIndex, NextIndex;
      forall p | 0 <= p < |t.q.frames| && t.q.frames[p].seqNo == s.q.frames[i].seqNo
        ensures n.readIndex in t.q.frames[p].reserve
      {
        assert u.q.frames[p].seqNo == s.q.frames[p].seqNo;
        assert p == i;
      }
    }
  }

  // ---------------------------------------------------------------- runs

  ghost predicate Distinct(ds: seq<DataSpec>) {
    forall i, j | 0 <= i < j < |ds| :: ds[i].seqNo != ds[j].seqNo
  }

  ghost predicate NoneOf(ds: seq<DataSpec>, given: set<nat>) {
    forall i | 0 <= i < |ds| :: ds[i].seqNo !in given
  }

  /** The numbers handed over so far, after one more step. */
  function Given(s: State, op: Op, id: nat, given: set<nat>): set<nat> {
    if Handed(s, op, id) == [] then given else given + {Handed(s, op, id)[0].seqNo}
  }

  lemma StepTakes(s: State, op: Op, id: nat, given: set<nat>)
    requires Core(s) && id in s.q.notifiers && Stays(op, id)
    requires Taken(s.q.frames, s.q.notifiers[id].readIndex, given) && forall n | n in given :: n < s.nextSeq
    ensures var t := Step(s, op).0;
            && |Handed(s, op, id)| <= 1 && NoneOf(Handed(s, op, id), given)
            && id in t.q.notifiers && Taken(t.q.frames, t.q.notifiers[id].readIndex, Given(s, op, id, given))
            && forall n | n in Given(s, op, id, given) :: n < t.nextSeq
  {
    hide Core, Descends;
    StepFollows(s, op, id);
    StepSeq(s, op);
    DescendsKeepsTaken(s.q.frames, Step(s, op).0.q.frames, s.nextSeq, s.q.notifiers[id].readIndex, given);
    if op.OpRead? && op.id == id {
      ReadTakes(s, id, op.mediaType, given);
      hide Read;
    } else {
      hide Step;
    }
  }

  lemma {:induction false} DeliveredOnce(s: State, ops: seq<Op>, id: nat, given: set<nat>)
    requires Core(s) && id in s.q.notifiers && forall op | op in ops :: Stays(op, id)
    requires Taken(s.q.frames, s.q.notifiers[id].readIndex, given) && forall n | n in given :: n < s.nextSeq
    ensures Distinct(Delivered(s, ops, id)) && NoneOf(Delivered(s, ops, id), given)
    decreases ops
  {
    hide Core, Step, Stays, Taken;
    if ops != [] {
      var t := Step(s, ops[0]).0;
      StepCore(s, ops[0]);
      StepTakes(s, ops[0], id, given);
      DeliveredOnce(t, ops[1..], id, Given(s, ops[0], id, given));
      assert Delivered(s, ops, id) == Handed(s, ops[0], id) + Delivered(t, ops[1..], id);
    }
  }

  /**
   * In every run and in whatever modes a receiver reads, it is handed no frame twice as long as it stays attached:
   * a delivery sets its bit, no operation clears a bit of a buffered frame, and numbers are not used again.
   */
  lemma DeliveredAtMostOnce(cfg: Config, before: seq<Op>, ops: seq<Op>, id: nat)
    requires CoreConfig(cfg) && id in Run(Initial(cfg), before).q.notifiers
    requires forall op | op in ops :: Stays(op, id)
    ensures Distinct(Delivered(Run(Initial(cfg), before), ops, id))
  {
    ReachableCore(cfg, before);
    DeliveredOnce(Run(Initial(cfg), before), ops, id, {});
  }
}
