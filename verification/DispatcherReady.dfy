/** What the data bit says after a receiver has reported that it is ready to read. */
module DispatcherReady {
  import opened Media
  import opened Options
  import opened DispatcherSpec
  import opened DispatcherInvariant
  import opened DispatcherCore
  import opened DispatcherSafety
  import opened DispatcherReading

  /** The index that decides about the data bit; a mixed receiver is judged by its video index. */
  function BitIndex(n: Notifier, mediaType: MediaType): nat {
    if mediaType == Audio then n.audioIndex else n.videoIndex
  }

  /** Reads start at the index that decides about the data bit; for a mixed receiver they need not. */
  predicate ReadsAtBitIndex(n: Notifier, mediaType: MediaType) {
    ReadIndex(n, mediaType) == BitIndex(n, mediaType)
  }

  function LastIndex(q: Queue, mediaType: MediaType): nat {
    if mediaType == Audio then q.lastAudio else q.lastVideo
  }

  /** The last indices tell audio from everything else. */
  predicate OfKind(media: MediaData, mediaType: MediaType) {
    mediaType == AV || (IsAudio(media) <==> mediaType == Audio)
  }

  ghost predicate KindFrom(frames: seq<DataSpec>, i: nat, mediaType: MediaType) {
    exists k :: i <= k < |frames| && OfKind(frames[k].media, mediaType)
  }

  /** No frame of the kind is buffered, and the index is before the one where the last of them was. */
  ghost predicate Stale(q: Queue, i: nat, mediaType: MediaType) {
    mediaType != AV && !KindFrom(q.frames, 0, mediaType) && i < LastIndex(q, mediaType)
  }

  predicate NextUnread(frames: seq<DataSpec>, i: nat, slot: nat) {
    i + 1 < |frames| && slot !in frames[i + 1].reserve
  }

  /** No frame behind `i` carries the mark of the slot. */
  ghost predicate Unmarked(frames: seq<DataSpec>, i: nat, slot: nat) {
    forall k | i < k < |frames| :: slot !in frames[k].reserve
  }

  // ---------------------------------------------------------------- unread frames

  lemma {:induction false} UnreadHas(frames: seq<DataSpec>, i: nat, k: nat, slot: nat,
                                     mediaType: MediaType, keysOnly: bool)
    requires i <= k < |frames| && Stops(frames[k].media, mediaType, keysOnly) && slot !in frames[k].reserve
    ensures Unread(frames, i, slot, mediaType, keysOnly) != []
    decreases k - i
  {
    hide Unread, Stops;
    UnreadUnfold(frames, i, slot, mediaType, keysOnly);
    if i < k {
      UnreadHas(frames, i + 1, k, slot, mediaType, keysOnly);
    }
  }

  lemma UnreadNone(frames: seq<DataSpec>, i: nat, slot: nat, mediaType: MediaType, keysOnly: bool)
    requires forall k | i <= k < |frames| :: !Stops(frames[k].media, mediaType, keysOnly)
    ensures Unread(frames, i, slot, mediaType, keysOnly) == []
  {
    hide Stops;
    if i < |frames| {
      UnreadSkips(frames, i, |frames|, slot, mediaType, keysOnly);
      UnreadEnds(frames, slot, mediaType, keysOnly);
    }
  }

  /** With no marks behind the index, something is left to read there exactly if there is a next stop. */
  lemma UnreadIffStop(frames: seq<DataSpec>, i: nat, slot: nat, mediaType: MediaType, keysOnly: bool)
    requires i < |frames| && Unmarked(frames, i, slot)
    ensures Unread(frames, i + 1, slot, mediaType, keysOnly) != [] <==> NextIndex(frames, i, mediaType, keysOnly) != i
  {
    var j := NextStop(frames, i + 1, mediaType, keysOnly);
    NextStopSpec(frames, i + 1, mediaType, keysOnly);
    hide Unread, Stops, NextStop;
    if j < |frames| {
      UnreadHas(frames, i + 1, j, slot, mediaType, keysOnly);
    } else {
      UnreadNone(frames, i + 1, slot, mediaType, keysOnly);
    }
  }

  // ---------------------------------------------------------------- both values of the bit

  /** Nothing available: behind the index there is nothing left to stop at. */
  lemma UnavailableIsRead(q: Queue, n: Notifier, mediaType: MediaType, keysOnly: bool)
    requires QueueOK(q) && !DataAvailable(q, n, mediaType)
    ensures Unread(q.frames, BitIndex(n, mediaType) + 1, n.readIndex, mediaType, keysOnly) == []
  {
    assert LastOK(q.frames, q.lastAudio, true) && LastOK(q.frames, q.lastVideo, false);
    hide QueueOK;
    UnreadNone(q.frames, BitIndex(n, mediaType) + 1, n.readIndex, mediaType, keysOnly);
  }

  /** What the bit is made of: a later frame of the kind, read or not, or an unread next frame, of whatever kind. */
  lemma AvailableMeans(q: Queue, n: Notifier, mediaType: MediaType)
    requires QueueOK(q)
    ensures var i := BitIndex(n, mediaType);
            DataAvailable(q, n, mediaType) <==>
            i != INVALID_INDEX &&
            (KindFrom(q.frames, i + 1, mediaType) || NextUnread(q.frames, i, n.readIndex) || Stale(q, i, mediaType))
  {
    var i := BitIndex(n, mediaType);
    assert LastOK(q.frames, q.lastAudio, true) && LastOK(q.frames, q.lastVideo, false);
    hide QueueOK;
    var last := LastIndex(q, mediaType);
    if mediaType == AV {
      if i + 1 < |q.frames| {
        assert OfKind(q.frames[i + 1].media, AV);
      }
    } else if KindFrom(q.frames, 0, mediaType) {
      var p :| 0 <= p < |q.frames| && OfKind(q.frames[p].media, mediaType);
      assert OfKind(q.frames[last].media, mediaType);
    } else {
      assert !KindFrom(q.frames, i + 1, mediaType);
    }
  }

  /**
   * Where the bit and the frames behind the read index agree when none of these is marked: for a mixed receiver
   * unless its video index has reached the end and its read index has not; for the others if a next stop is there,
   * or if the index is at the newest frame and some frame of the kind is buffered.
   */
  ghost predicate Tells(q: Queue, n: Notifier, mediaType: MediaType, keysOnly: bool) {
    var i := ReadIndex(n, mediaType);
    if mediaType == AV then i + 1 == |q.frames| || n.videoIndex + 1 < |q.frames|
    else NextIndex(q.frames, i, mediaType, keysOnly) != i || (i + 1 == |q.frames| && !Stale(q, i, mediaType))
  }

  lemma AvailableIsExact(q: Queue, n: Notifier, mediaType: MediaType, keysOnly: bool)
    requires QueueOK(q) && ReadIndex(n, mediaType) < |q.frames|
    requires Unmarked(q.frames, ReadIndex(n, mediaType), n.readIndex)
    ensures (DataAvailable(q, n, mediaType) <==>
             Unread(q.frames, ReadIndex(n, mediaType) + 1, n.readIndex, mediaType, keysOnly) != []) <==>
            Tells(q, n, mediaType, keysOnly)
  {
    var i := ReadIndex(n, mediaType);
    assert |q.frames| <= INVALID_INDEX;
    hide QueueOK, Unread;
    UnreadIffStop(q.frames, i, n.readIndex, mediaType, keysOnly);
    AvailableMeans(q, n, mediaType);
    if mediaType == AV {
      hide Unread, LastIndex, NextUnread;
    } else {
      if !DataAvailable(q, n, mediaType) {
        UnavailableIsRead(q, n, mediaType, keysOnly);
      }
      hide DataAvailable, NextIndex;
      assert i + 1 < |q.frames| ==> NextUnread(q.frames, i, n.readIndex);
    }
  }

  // ---------------------------------------------------------------- reachable states

  lemma InvParts(s: State)
    requires Inv(s)
    ensures QueueOK(s.q) && |s.q.frames| <= INVALID_INDEX
  {
  }

  lemma BitTellsAvailable(s: State, id: nat, mediaType: MediaType, bit: nat)
    requires id in s.q.notifiers && bit in Bits(s.q.notifiers[id].readIndex, mediaType)
    ensures bit in NotifyReadReady(s, id, mediaType).refs.dataRef <==>
            DataAvailable(s.q, s.q.notifiers[id], mediaType)
  {
    hide DataAvailable, Bits;
  }

  /** The receiver's data bit after it reports readiness. */
  predicate Raised(s: State, id: nat, mediaType: MediaType, bit: nat) {
    bit in NotifyReadReady(s, id, mediaType).refs.dataRef
  }

  /** A bit of receiver `id` in a state that a run without wrapped sums reaches. */
  ghost predicate OwnBit(cfg: Config, ops: seq<Op>, id: nat, mediaType: MediaType, bit: nat) {
    && ConfigOK(cfg) && Covered(cfg, |ops|)
    && var s := Run(Initial(cfg), ops);
    && id in s.q.notifiers && bit in Bits(s.q.notifiers[id].readIndex, mediaType)
  }

  lemma OwnBitReaches(cfg: Config, ops: seq<Op>, id: nat, mediaType: MediaType, bit: nat)
    requires OwnBit(cfg, ops, id, mediaType, bit)
    ensures var s := Run(Initial(cfg), ops);
            && id in s.q.notifiers && QueueOK(s.q) && |s.q.frames| <= INVALID_INDEX
            && (Raised(s, id, mediaType, bit) <==> DataAvailable(s.q, s.q.notifiers[id], mediaType))
  {
    hide Inv, Run, Initial, QueueOK, DataAvailable, Covered, Bits;
    ReachableInv(cfg, ops);
    InvParts(Run(Initial(cfg), ops));
    BitTellsAvailable(Run(Initial(cfg), ops), id, mediaType, bit);
  }

  /** A receiver that has no frame at its index is handed nothing. */
  lemma {:induction false} NoFrameNoReads(s: State, id: nat, mediaType: MediaType, count: nat)
    requires !HasFrame(s, id, mediaType)
    ensures Delivered(s, Reads(id, mediaType, count), id) == []
  {
    if count > 0 {
      DeliveredReads(s, id, mediaType, count);
      NoFrameNoReads(s, id, mediaType, count - 1);
    }
  }

  /** Is the frame at the read index one to be handed over? */
  predicate CurrentDue(s: State, id: nat, mediaType: MediaType) {
    HasFrame(s, id, mediaType) && Delivers(s, id, mediaType)
  }

  function Current(s: State, id: nat, mediaType: MediaType): seq<DataSpec> {
    if CurrentDue(s, id, mediaType) then [s.q.frames[ReadIndex(s.q.notifiers[id], mediaType)]] else []
  }

  /** The frames of the kind behind the read index that are not marked. */
  function Behind(s: State, id: nat, mediaType: MediaType): seq<DataSpec>
    requires id in s.q.notifiers
  {
    var n := s.q.notifiers[id];
    Unread(s.q.frames, ReadIndex(n, mediaType) + 1, n.readIndex, mediaType, KeysOnly(s, id))
  }

  lemma ReadyDrains(s: State, id: nat, mediaType: MediaType, count: nat)
    requires id in s.q.notifiers && |s.q.frames| <= INVALID_INDEX && count >= |s.q.frames|
    ensures Delivered(NotifyReadReady(s, id, mediaType), Reads(id, mediaType, count), id) ==
            Current(s, id, mediaType) + if HasFrame(s, id, mediaType) then Behind(s, id, mediaType) else []
  {
    hide Delivered, Reads, ReadIndex, DataAvailable, Unread, Bits;
    var t := NotifyReadReady(s, id, mediaType);
    if HasFrame(s, id, mediaType) {
      DrainIsDrained(t, id, mediaType, count);
    } else {
      NoFrameNoReads(t, id, mediaType, count);
    }
  }

  /**
   * A receiver that reports readiness and is left without its data bit has no later unread frame, if its reads
   * start at the index the bit goes by: always for audio and for video, and for a mixed receiver whose video index
   * is not ahead. However often it reads, it is handed at most the frame at its index, and that one exactly if it
   * does not carry the receiver's mark.
   */
  lemma DownBitMeansRead(cfg: Config, ops: seq<Op>, id: nat, mediaType: MediaType, bit: nat, count: nat)
    requires OwnBit(cfg, ops, id, mediaType, bit) && count >= |Run(Initial(cfg), ops).q.frames|
    requires !Raised(Run(Initial(cfg), ops), id, mediaType, bit)
    requires ReadsAtBitIndex(Run(Initial(cfg), ops).q.notifiers[id], mediaType)
    ensures var s := Run(Initial(cfg), ops);
            var out := Delivered(NotifyReadReady(s, id, mediaType), Reads(id, mediaType, count), id);
            && Behind(s, id, mediaType) == []
            && out == Current(s, id, mediaType)
            && (out == [] <==> !CurrentDue(s, id, mediaType))
  {
    hide Run, Initial, QueueOK, DataAvailable, Raised, OwnBit, Unread, Delivered, Reads, NotifyReadReady, CurrentDue,
      KeysOnly, HasFrame;
    OwnBitReaches(cfg, ops, id, mediaType, bit);
    var s := Run(Initial(cfg), ops);
    UnavailableIsRead(s.q, s.q.notifiers[id], mediaType, KeysOnly(s, id));
    ReadyDrains(s, id, mediaType, count);
    hide ReadIndex;
  }

  /**
   * What a raised bit promises: a later frame of the kind, read or not, or an unread next frame of whatever kind,
   * or, when no frame of the kind is buffered, nothing.
   */
  lemma RaisedBitPromises(cfg: Config, ops: seq<Op>, id: nat, mediaType: MediaType, bit: nat)
    requires OwnBit(cfg, ops, id, mediaType, bit)
    ensures var s := Run(Initial(cfg), ops);
            var n := s.q.notifiers[id];
            var i := BitIndex(n, mediaType);
            Raised(s, id, mediaType, bit) <==>
            i != INVALID_INDEX &&
            (KindFrom(s.q.frames, i + 1, mediaType) || NextUnread(s.q.frames, i, n.readIndex) ||
             Stale(s.q, i, mediaType))
  {
    hide Run, Initial, QueueOK, DataAvailable, Raised, OwnBit, KindFrom, Stale, NextUnread;
    OwnBitReaches(cfg, ops, id, mediaType, bit);
    AvailableMeans(Run(Initial(cfg), ops).q, Run(Initial(cfg), ops).q.notifiers[id], mediaType);
  }

  /**
   * Where no frame behind the read index is marked, the data bit is raised exactly if reading hands over more than
   * the frame at the index; this holds if and only if `Tells`.
   */
  lemma DataBitIsExact(cfg: Config, ops: seq<Op>, id: nat, mediaType: MediaType, bit: nat, count: nat)
    requires OwnBit(cfg, ops, id, mediaType, bit) && count >= |Run(Initial(cfg), ops).q.frames|
    requires HasFrame(Run(Initial(cfg), ops), id, mediaType)
    requires var s := Run(Initial(cfg), ops);
             var n := s.q.notifiers[id];
             Unmarked(s.q.frames, ReadIndex(n, mediaType), n.readIndex)
    ensures var s := Run(Initial(cfg), ops);
            var out := Delivered(NotifyReadReady(s, id, mediaType), Reads(id, mediaType, count), id);
            (Raised(s, id, mediaType, bit) <==> out != Current(s, id, mediaType)) <==>
            Tells(s.q, s.q.notifiers[id], mediaType, KeysOnly(s, id))
  {
    hide Run, Initial, QueueOK, DataAvailable, Raised, OwnBit, Unread, Delivered, Reads, NotifyReadReady, CurrentDue,
      KeysOnly, Tells, Unmarked, ReadIndex;
    OwnBitReaches(cfg, ops, id, mediaType, bit);
    var s := Run(Initial(cfg), ops);
    AvailableIsExact(s.q, s.q.notifiers[id], mediaType, KeysOnly(s, id));
    ReadyDrains(s, id, mediaType, count);
    hide Current;
  }

  // ---------------------------------------------------------------- a data bit without data

  const PICTURE := MediaData(Video, true, 0)
  const SOUND := MediaData(Audio, false, 0)

  function Reader(audioIndex: nat, videoIndex: nat): Notifiers {
    map[7 := Notifier(0, audioIndex, videoIndex, false, false)]
  }

  ghost predicate Attached(s: State) {
    && s.q == Queue([], Reader(INVALID_INDEX, INVALID_INDEX), [], INVALID_INDEX, INVALID_INDEX, 0, 0)
    && s.z == Initial(s.cfg).z && s.waitingKey && !s.keyOnly && !s.redirect && s.nextSeq == 0
    && s.cfg.mode == Mixed && CoreConfig(s.cfg) && s.audioNeedActivate && s.videoNeedActivate
  }

  ghost predicate HasPicture(s: State) {
    && s.q == Queue([DataSpec(0, PICTURE, {})], Reader(INVALID_INDEX, 0), [0], INVALID_INDEX, 0, 0, 1)
    && s.z.capacity == 500 && s.z.dbl == 1000 && s.z.evaluating && s.z.baseCounter == 1
    && !s.waitingKey && !s.keyOnly && !s.redirect && s.nextSeq == 1
    && s.cfg.mode == Mixed && CoreConfig(s.cfg) && s.audioNeedActivate
  }

  ghost predicate HasBoth(s: State) {
    && s.q == Queue([DataSpec(0, PICTURE, {}), DataSpec(1, SOUND, {})], Reader(1, 0), [0], 1, 0, 1, 1)
    && !s.keyOnly
  }

  lemma AttachReader(cfg: Config)
    requires cfg.mode == Mixed && CoreConfig(cfg)
    ensures Attached(Attach(Initial(cfg), 7, false, false))
  {
    assert LowestFree({}, 0) == 0;
  }

  /** Into an empty ring a picture is written without removing anything. */
  lemma RoomForPicture(s: State)
    requires s.cfg.mode == Mixed && s.q.frames == [] && s.q.keys == [] && s.q.audioCnt == 0
    requires 0 < s.z.capacity <= s.z.base
    ensures MakeRoom(s, PICTURE) == s
  {
  }

  lemma WritePicture(s: State)
    requires Attached(s.(waitingKey := true, z := Initial(s.cfg).z)) && !s.waitingKey
    requires s.z.capacity == 500 && s.z.base == 500 && s.z.dbl == 1000 && s.z.evaluating && s.z.baseCounter == 1
    ensures HasPicture(Write(s, PICTURE).(nextSeq := 1))
  {
    RoomForPicture(s);
    hide MakeRoom;
    assert Append(s, PICTURE).q.notifiers == Reader(INVALID_INDEX, 0);
  }

  lemma InputPicture(s: State)
    requires Attached(s)
    ensures HasPicture(Input(s, PICTURE))
  {
    var a := Restart(s);
    assert Admit(s, PICTURE) == Some(a) && a.q == s.q;
    hide Write;
    WritePicture(a);
  }

  /** Below the capacity a sound frame is written without removing anything. */
  lemma RoomForSound(s: State)
    requires |s.q.frames| < s.z.capacity && s.q.audioCnt < s.z.capacity
    ensures MakeRoom(s, SOUND) == s
  {
  }

  lemma InputSound(s: State)
    requires HasPicture(s)
    ensures HasBoth(Input(s, SOUND))
  {
    var a := s.(z := Recalculate(s.z, s.cfg, false));
    assert Admit(s, SOUND) == Some(a);
    RoomForSound(a);
    hide MakeRoom;
    assert Append(a, SOUND).q.notifiers == Reader(1, 0);
  }

  /** The only frame is unread, and reporting readiness takes the data bit down: the frame is at the index itself. */
  lemma DataBitIgnoresCurrentFrame(cfg: Config)
    requires cfg.mode == Mixed && CoreConfig(cfg)
    ensures var s := Input(Attach(Initial(cfg), 7, false, false), PICTURE);
            && VideoBit(0) !in NotifyReadReady(s, 7, Video).refs.dataRef
            && Read(s, 7, Video).1 == Some(DataSpec(0, PICTURE, {}))
  {
    hide Input, Attach, Initial;
    AttachReader(cfg);
    InputPicture(Attach(Initial(cfg), 7, false, false));
  }

  /**
   * The picture is read and only a sound frame is left: reporting readiness for video raises the data bit, and the
   * read that follows hands over nothing.
   */
  lemma DataBitMayBeIdle(cfg: Config)
    requires cfg.mode == Mixed && CoreConfig(cfg)
    ensures var s := Input(Input(Attach(Initial(cfg), 7, false, false), PICTURE), SOUND);
            var (t, out) := Read(s, 7, Video);
            && out == Some(DataSpec(0, PICTURE, {}))
            && VideoBit(0) in NotifyReadReady(t, 7, Video).refs.dataRef && Read(t, 7, Video).1 == None
  {
    hide Input, Attach, Initial;
    AttachReader(cfg);
    InputPicture(Attach(Initial(cfg), 7, false, false));
    var s := Input(Input(Attach(Initial(cfg), 7, false, false), PICTURE), SOUND);
    InputSound(Input(Attach(Initial(cfg), 7, false, false), PICTURE));
    var u := AfterCallback(s, 7, Video);
    assert u.q.frames[0].reserve == {0} && u.q.frames[1] == DataSpec(1, SOUND, {});
    assert NextStop(u.q.frames, 1, Video, false) == 2;
    var t := Read(s, 7, Video).0;
    assert t.q.frames == u.q.frames && t.q.notifiers[7] == s.q.notifiers[7];
  }

  // ---------------------------------------------------------------- a mixed receiver without its data bits

  ghost predicate HasSounds(s: State, count: nat) {
    && count > 0
    && s.q == Queue(seq(count, i requires 0 <= i < count => DataSpec(i, SOUND, {})), Reader(0, INVALID_INDEX), [],
                    count - 1, INVALID_INDEX, count, 0)
    && s.z.capacity == 500 && s.waitingKey && !s.keyOnly && !s.redirect && s.nextSeq == count
    && s.cfg.mode == Mixed && CoreConfig(s.cfg)
  }

  lemma InputFirstSound(s: State)
    requires Attached(s)
    ensures HasSounds(Input(s, SOUND), 1)
  {
    RoomForSound(s);
    hide MakeRoom;
    assert Append(s, SOUND).q.notifiers == Reader(0, INVALID_INDEX);
  }

  lemma InputSecondSound(s: State)
    requires HasSounds(s, 1)
    ensures HasSounds(Input(s, SOUND), 2)
  {
    RoomForSound(s);
    hide MakeRoom;
    assert Append(s, SOUND).q.notifiers == Reader(0, INVALID_INDEX);
  }

  /**
   * Without a video index the data bits of a mixed receiver are down whatever is buffered: two sound frames are
   * unread, and the reads hand over both of them.
   */
  lemma MixedBitsHideFrames(cfg: Config)
    requires cfg.mode == Mixed && CoreConfig(cfg)
    ensures var s := Input(Input(Attach(Initial(cfg), 7, false, false), SOUND), SOUND);
            var t := NotifyReadReady(s, 7, AV);
            && AudioBit(0) !in t.refs.dataRef && VideoBit(0) !in t.refs.dataRef
            && Delivered(t, Reads(7, AV, 2), 7) == [DataSpec(0, SOUND, {}), DataSpec(1, SOUND, {})]
  {
    hide Input, Attach, Initial;
    AttachReader(cfg);
    InputFirstSound(Attach(Initial(cfg), 7, false, false));
    InputSecondSound(Input(Attach(Initial(cfg), 7, false, false), SOUND));
    var s := Input(Input(Attach(Initial(cfg), 7, false, false), SOUND), SOUND);
    SoundsDrain(s);
  }

  lemma SoundsDrain(s: State)
    requires HasSounds(s, 2)
    ensures var t := NotifyReadReady(s, 7, AV);
            && AudioBit(0) !in t.refs.dataRef && VideoBit(0) !in t.refs.dataRef
            && Delivered(t, Reads(7, AV, 2), 7) == [DataSpec(0, SOUND, {}), DataSpec(1, SOUND, {})]
  {
    ReadyDrains(s, 7, AV, 2);
    assert s.q.frames == [DataSpec(0, SOUND, {}), DataSpec(1, SOUND, {})];
    hide Delivered, Reads;
  }
}
