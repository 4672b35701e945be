/**
 * The dispatcher's state and what each of its operations does to that state.
 * The class in Dispatcher.dfy performs the same operations in place.
 */
module DispatcherSpec {
  import opened Media
  import opened Options

  const INVALID_INDEX: nat := 0xFFFF_FFFF
  const UINT32: nat := 0x1_0000_0000
  const INITIAL_BUFFER_CAPACITY: nat := 500
  const MAX_RECEIVER_SIZE: nat := 16

  datatype Mode = VideoOnly | AudioOnly | Mixed

  /** Constructor arguments, and the data mode, which is fixed for a run. */
  datatype Config = Config(maxCapacity: nat, increment: nat, mode: Mode)

  /** A DataNotifier together with the two flags it reads from its receiver. */
  datatype Notifier = Notifier(readIndex: nat, audioIndex: nat, videoIndex: nat, keyMode: bool, keyRedirect: bool)

  type Notifiers = map<nat, Notifier>

  /** The ring's elements and everything that is re-based or re-counted when its head is popped. */
  datatype Queue = Queue(
    frames: seq<DataSpec>,
    notifiers: Notifiers,
    keys: seq<nat>,
    lastAudio: nat,
    lastVideo: nat,
    audioCnt: nat,
    videoCnt: nat)

  datatype Sizing = Sizing(
    capacity: nat,
    base: nat,
    dbl: nat,
    baseCounter: nat,
    gop: nat,
    evaluating: bool)

  /** The bit fields readRefFlag_, recvBitRef_ and dataBitRef_ as sets of bit positions. */
  datatype Refs = Refs(readRef: set<nat>, recvRef: set<nat>, dataRef: set<nat>)

  datatype State = State(
    cfg: Config,
    nextSeq: nat,
    q: Queue,
    z: Sizing,
    refs: Refs,
    keyOnly: bool,
    waitingKey: bool,
    redirect: bool,
    rapid: bool,
    audioNeedActivate: bool,
    videoNeedActivate: bool)

  function Initial(cfg: Config): State {
    State(cfg, 0, Queue([], map[], [], INVALID_INDEX, INVALID_INDEX, 0, 0),
          Sizing(INITIAL_BUFFER_CAPACITY, INITIAL_BUFFER_CAPACITY, INITIAL_BUFFER_CAPACITY * 2, 0, 0, false),
          Refs({}, {}, {}), false, true, false, false, false, false)
  }

  function Min(a: nat, b: nat): nat {
    if a < b then a else b
  }

  /** The value that a 32-bit unsigned field keeps of a sum. */
  function Wrap(n: nat): nat {
    n % UINT32
  }

  function Up(count: nat): nat {
    if count == UINT32 - 1 then 0 else count + 1
  }

  function Down(count: nat): nat {
    if count == 0 then UINT32 - 1 else count - 1
  }

  // ---------------------------------------------------------------- popping the head frame

  function Dec(index: nat): nat {
    if index > 0 && index != INVALID_INDEX then index - 1 else index
  }

  function DecNotifier(n: Notifier): Notifier {
    n.(audioIndex := Dec(n.audioIndex), videoIndex := Dec(n.videoIndex))
  }

  function ShiftKeys(keys: seq<nat>): seq<nat> {
    var ks := if keys != [] && keys[0] == 0 then keys[1..] else keys;
    seq(|ks|, i requires 0 <= i < |ks| => if ks[i] > 0 then ks[i] - 1 else ks[i])
  }

  function UpdateIndex(q: Queue): Queue {
    q.(keys := ShiftKeys(q.keys),
       notifiers := map id | id in q.notifiers :: DecNotifier(q.notifiers[id]),
       lastVideo := Dec(q.lastVideo),
       lastAudio := Dec(q.lastAudio))
  }

  /** Pops the head and charges it to one of the two counters. */
  function PopAs(q: Queue, audio: bool): Queue
    requires q.frames != []
  {
    UpdateIndex(q.(frames := q.frames[1..],
                   audioCnt := if audio then Down(q.audioCnt) else q.audioCnt,
                   videoCnt := if audio then q.videoCnt else Down(q.videoCnt)))
  }

  function PopHead(q: Queue): Queue
    requires q.frames != []
  {
    PopAs(q, IsAudio(q.frames[0].media))
  }

  function PopHeads(q: Queue, n: nat): Queue
    decreases n
  {
    if n == 0 || q.frames == [] then q else PopHeads(PopHead(q), n - 1)
  }

  /** The pops of the restore loop, which always charge the audio counter. */
  function PopAudios(q: Queue, n: nat): Queue
    decreases n
  {
    if n == 0 || q.frames == [] then q else PopAudios(PopAs(q, true), n - 1)
  }

  // ---------------------------------------------------------------- capacity

  predicate HeadNeedReserve(q: Queue, readRef: set<nat>) {
    q.frames != [] && readRef != q.frames[0].reserve
  }

  function SetCapacity(z: Sizing, max: nat, capacity: nat): Sizing {
    if capacity == 0 || capacity > max then z else z.(capacity := capacity)
  }

  function Extend(s: State): State {
    s.(z := if |s.q.frames| >= s.z.capacity && s.z.capacity < s.z.dbl && HeadNeedReserve(s.q, s.refs.readRef)
            then SetCapacity(s.z, s.cfg.maxCapacity, s.z.dbl) else s.z)
  }

  predicate NeedRestore(s: State) {
    s.q.audioCnt >= s.z.capacity && s.z.capacity != INITIAL_BUFFER_CAPACITY
  }

  function Excess(size: nat): nat {
    if size > INITIAL_BUFFER_CAPACITY then size - INITIAL_BUFFER_CAPACITY else 0
  }

  function Restore(s: State): State {
    s.(q := if NeedRestore(s) then PopAudios(s.q, Excess(|s.q.frames|)) else s.q,
       z := if NeedRestore(s) then s.z.(base := INITIAL_BUFFER_CAPACITY, dbl := INITIAL_BUFFER_CAPACITY * 2,
                                        capacity := INITIAL_BUFFER_CAPACITY) else s.z)
  }

  /** The base capacity that a key frame confirms for a group of `counter` frames. */
  function BaseFor(cfg: Config, counter: nat): nat {
    var wanted := Min(Wrap(counter + cfg.increment), cfg.maxCapacity);
    if wanted < INITIAL_BUFFER_CAPACITY then INITIAL_BUFFER_CAPACITY else wanted
  }

  /** The counters are 32 bits wide; the capacity is wider, so the sum with it does not wrap. */
  function Recalculate(z: Sizing, cfg: Config, key: bool): Sizing {
    var counter := Wrap(z.baseCounter + 1);
    var max := cfg.maxCapacity;
    if counter >= z.capacity && !key then
      var size := Min(z.capacity + cfg.increment, max);
      SetCapacity(z.(baseCounter := counter, dbl := Min(Wrap(size * 2), max)), max, size)
    else if key then
      var base := BaseFor(cfg, counter);
      SetCapacity(z.(base := base, dbl := Min(Wrap(base * 2), max), gop := counter, evaluating := counter == 0),
                  max, base).(baseCounter := 0)
    else z.(baseCounter := counter)
  }

  // ---------------------------------------------------------------- erasing old groups of pictures

  function DeleteLoop(q: Queue, readRef: set<nat>, n: nat, force: bool): Queue
    decreases n
  {
    if n == 0 || (HeadNeedReserve(q, readRef) && !force) || q.frames == [] then q
    else DeleteLoop(PopHead(q), readRef, n - 1, force)
  }

  function ShrinkToBase(z: Sizing, size: nat): Sizing {
    if size < z.base && z.capacity > z.base then z.(capacity := z.base) else z
  }

  /** Did the loop stop because the ring was empty with deletions still to do? */
  predicate RanDry(before: Queue, after: Queue, n: nat) {
    after.frames == [] && n > |before.frames|
  }

  /** The sizing after a deletion of `n` frames that turned `before` into `after`. */
  function Shrunk(z: Sizing, before: Queue, after: Queue, n: nat): Sizing {
    if n == 0 || RanDry(before, after, n) then z else ShrinkToBase(z, |after.frames|)
  }

  function DeleteHeads(s: State, n: nat, force: bool): State {
    var q := DeleteLoop(s.q, s.refs.readRef, n, force);
    s.(q := q, z := Shrunk(s.z, s.q, q, n))
  }

  /** Position of the first video frame at or after `i`, or the length when there is none. */
  function FirstVideoFrom(frames: seq<DataSpec>, i: nat): (r: nat)
    decreases |frames| - i
  {
    if i >= |frames| then |frames|
    else if IsVideo(frames[i].media) then i
    else FirstVideoFrom(frames, i + 1)
  }

  function NextDeleteVideo(frames: seq<DataSpec>): nat {
    var i := FirstVideoFrom(frames, 0);
    if i < |frames| then i else 0
  }

  function ResetAllIndex(q: Queue): Queue {
    q.(keys := [],
       notifiers := map id | id in q.notifiers ::
         q.notifiers[id].(audioIndex := INVALID_INDEX, videoIndex := INVALID_INDEX),
       lastAudio := INVALID_INDEX, lastVideo := INVALID_INDEX)
  }

  function Flush(s: State): (t: State)
    ensures t.cfg == s.cfg && t.nextSeq == s.nextSeq && t.q.frames == []
  {
    s.(q := ResetAllIndex(s.q.(frames := [], audioCnt := 0, videoCnt := 0)),
       z := s.z.(gop := 0),
       waitingKey := true, videoNeedActivate := true, audioNeedActivate := true)
  }

  function LastKey(keys: seq<nat>): nat {
    if keys != [] && keys[|keys| - 1] > 0 then keys[|keys| - 1] else 0
  }

  /** The frames before the last key frame go, as far as nobody needs them. */
  function ErasePolitely(s: State): State {
    var k := LastKey(s.q.keys);
    DeleteHeads(s.(q := s.q.(keys := if k > 0 then [k] else s.q.keys)), k, false)
  }

  /** The frames before the first video frame go. */
  function EraseToVideo(s: State): State {
    DeleteHeads(s, NextDeleteVideo(s.q.frames), true)
  }

  function EraseOldGop(s: State): State {
    if s.cfg.mode == AudioOnly then Flush(s) else EraseToVideo(ErasePolitely(s))
  }

  // ---------------------------------------------------------------- writing

  function Evict(s: State, media: MediaData): State {
    s.(q := if |s.q.frames| >= s.z.capacity
            then PopHeads(s.q, (if IsVideo(media) then NextDeleteVideo(s.q.frames) else 1) + 1)
            else s.q)
  }

  /** push_back of the ring buffer, with its silent eviction of the head. */
  function PushBack(frames: seq<DataSpec>, capacity: nat, d: DataSpec): seq<DataSpec> {
    (if |frames| >= capacity && frames != [] then frames[1..] else frames) + [d]
  }

  function ActiveAudioBits(ns: Notifiers): set<nat> {
    set id | id in ns :: AudioBit(ns[id].readIndex)
  }

  function ActiveVideoBits(ns: Notifiers, key: bool): set<nat> {
    set id | id in ns && (!ns[id].keyMode || key) :: VideoBit(ns[id].readIndex)
  }

  /** A key-mode receiver jumps to the key frame at `last` when it is the only one buffered. */
  function JumpToKey(ns: Notifiers, last: nat): Notifiers {
    map id | id in ns :: if ns[id].keyMode then ns[id].(videoIndex := last) else ns[id]
  }

  function ActivateAudio(ns: Notifiers, index: nat): Notifiers {
    map id | id in ns :: if ns[id].audioIndex == INVALID_INDEX then ns[id].(audioIndex := index) else ns[id]
  }

  function ActivateVideo(ns: Notifiers, index: nat): Notifiers {
    map id | id in ns :: if ns[id].videoIndex == INVALID_INDEX then ns[id].(videoIndex := index) else ns[id]
  }

  /** Slots of the redirected receivers that skip the frame at position `i` on their way to `next`. */
  function RedirectMarks(ns: Notifiers, i: nat, next: nat): set<nat> {
    set id | id in ns && ns[id].keyRedirect && ns[id].videoIndex <= i < next :: ns[id].readIndex
  }

  function AddMarks(d: DataSpec, marks: set<nat>): DataSpec {
    d.(reserve := d.reserve + marks)
  }

  function RedirectNotifier(n: Notifier, next: nat, rapid: bool): Notifier {
    if n.keyRedirect then n.(videoIndex := next, keyRedirect := rapid) else n
  }

  /** Redirected receivers jump to position `next`, marking what they skip as read. */
  function RedirectTo(q: Queue, next: nat, rapid: bool): Queue {
    q.(frames := seq(|q.frames|, i requires 0 <= i < |q.frames| =>
                   AddMarks(q.frames[i], RedirectMarks(q.notifiers, i, next))),
       notifiers := map id | id in q.notifiers :: RedirectNotifier(q.notifiers[id], next, rapid))
  }

  function OnKeyRedirect(q: Queue, rapid: bool): Queue {
    if q.keys == [] then q else RedirectTo(q, q.keys[|q.keys| - 1], rapid)
  }

  /** The notifiers that the key-mode jump of ActiveDataRef yields. */
  function Jumped(s: State, media: MediaData, last: nat): Notifiers {
    if IsKeyVideo(media) && s.q.keys == [] then JumpToKey(s.q.notifiers, last) else s.q.notifiers
  }

  function AppendNotifiers(s: State, media: MediaData, last: nat): Notifiers {
    if IsAudio(media) && s.audioNeedActivate then ActivateAudio(s.q.notifiers, last)
    else if IsKeyVideo(media) && s.videoNeedActivate then ActivateVideo(Jumped(s, media, last), last)
    else Jumped(s, media, last)
  }

  /** The data bits that the new frame raises. */
  function ReadyBits(s: State, media: MediaData): set<nat> {
    if IsAudio(media) then ActiveAudioBits(s.q.notifiers)
    else if !s.keyOnly || IsKeyVideo(media) then ActiveVideoBits(s.q.notifiers, IsKeyVideo(media))
    else {}
  }

  /** The bookkeeping of a push: `frames` already ends with the new frame. */
  function Pushed(q: Queue, frames: seq<DataSpec>, media: MediaData, ns: Notifiers): Queue
    requires frames != []
  {
    var last := |frames| - 1;
    q.(frames := frames, notifiers := ns,
       keys := if IsKeyVideo(media) then q.keys + [last] else q.keys,
       lastAudio := if IsAudio(media) then last else q.lastAudio,
       lastVideo := if IsAudio(media) then q.lastVideo else last,
       audioCnt := if IsAudio(media) then Up(q.audioCnt) else q.audioCnt,
       videoCnt := if IsAudio(media) then q.videoCnt else Up(q.videoCnt))
  }

  /** The queue after a push, before any key redirect. */
  function AppendQueue(s: State, media: MediaData): Queue {
    var frames := PushBack(s.q.frames, s.z.capacity, DataSpec(s.nextSeq, media, {}));
    Pushed(s.q, frames, media, AppendNotifiers(s, media, |frames| - 1))
  }

  predicate AllAudioValid(ns: Notifiers) {
    forall id | id in ns :: ns[id].audioIndex != INVALID_INDEX
  }

  predicate AllVideoValid(ns: Notifiers) {
    forall id | id in ns :: ns[id].videoIndex != INVALID_INDEX
  }

  function Append(s: State, media: MediaData): State {
    var q := AppendQueue(s, media);
    var redirected := IsKeyVideo(media) && s.redirect;
    s.(q := if redirected then OnKeyRedirect(q, s.rapid) else q,
       refs := s.refs.(dataRef := s.refs.dataRef + ReadyBits(s, media)),
       redirect := s.redirect && !redirected,
       audioNeedActivate := s.audioNeedActivate && (IsAudio(media) ==> AllAudioValid(s.q.notifiers)),
       videoNeedActivate := s.videoNeedActivate &&
                            (IsKeyVideo(media) ==> AllVideoValid(Jumped(s, media, |q.frames| - 1))))
  }

  /** The part of a write that makes room for the frame. */
  function MakeRoom(s: State, media: MediaData): State {
    var t := Restore(Extend(s));
    Evict(if IsKeyVideo(media) && !t.keyOnly then EraseOldGop(t) else t, media)
  }

  function Write(s: State, media: MediaData): State {
    Append(MakeRoom(s, media), media)
  }

  /** The state in which the first key frame after a gap is written. */
  function Restart(s: State): State {
    var t := Flush(s);
    t.(z := t.z.(baseCounter := Wrap(s.z.baseCounter + 1), evaluating := true), waitingKey := false)
  }

  /** The state in which an input frame is written, or nothing when the frame is dropped. */
  function Admit(s: State, media: MediaData): Option<State> {
    if s.cfg.mode == AudioOnly then Some(s)
    else if s.waitingKey then
      if IsAudio(media) then Some(s) else if !IsKeyVideo(media) then None else Some(Restart(s))
    else if s.z.evaluating then Some(s.(z := Recalculate(s.z, s.cfg, IsKeyVideo(media))))
    else Some(s)
  }

  function Admitted(s: State, media: MediaData): State {
    match Admit(s, media)
    case None => s
    case Some(t) => Write(t, media)
  }

  function Input(s: State, media: MediaData): (t: State)
    ensures t.nextSeq == s.nextSeq + 1
  {
    Admitted(s, media).(nextSeq := s.nextSeq + 1)
  }

  // ---------------------------------------------------------------- reading

  function ReadIndex(n: Notifier, mediaType: MediaType): nat {
    match mediaType
    case Video => n.videoIndex
    case Audio => n.audioIndex
    case AV =>
      if n.audioIndex != INVALID_INDEX && n.videoIndex != INVALID_INDEX then Min(n.audioIndex, n.videoIndex)
      else if n.audioIndex == INVALID_INDEX then n.videoIndex
      else n.audioIndex
  }

  /** Does a receiver that reads `mediaType` stop at this frame? */
  predicate Stops(media: MediaData, mediaType: MediaType, keysOnly: bool) {
    mediaType == AV || (media.mediaType == mediaType && (keysOnly && mediaType == Video ==> media.keyFrame))
  }

  /** First position at or after `i` where the receiver stops, or the length when there is none. */
  function NextStop(frames: seq<DataSpec>, i: nat, mediaType: MediaType, keysOnly: bool): (r: nat)
    decreases |frames| - i
  {
    if i >= |frames| then |frames|
    else if Stops(frames[i].media, mediaType, keysOnly) then i
    else NextStop(frames, i + 1, mediaType, keysOnly)
  }

  /** The next read index: the current one when no later frame qualifies. */
  function NextIndex(frames: seq<DataSpec>, i: nat, mediaType: MediaType, keysOnly: bool): nat {
    var j := NextStop(frames, i + 1, mediaType, keysOnly);
    if j < |frames| then j else i
  }

  predicate KeysOnly(s: State, id: nat)
    requires id in s.q.notifiers
  {
    s.keyOnly || s.q.notifiers[id].keyMode
  }

  /** Sets bit `slot` in the frames at positions lo .. hi - 1. */
  function MarkRange(frames: seq<DataSpec>, lo: nat, hi: nat, slot: nat): seq<DataSpec> {
    seq(|frames|, i requires 0 <= i < |frames| =>
      if lo <= i < hi then AddMarks(frames[i], {slot}) else frames[i])
  }

  function MoveIndex(n: Notifier, mediaType: MediaType, index: nat): Notifier {
    match mediaType
    case Video => n.(videoIndex := index)
    case Audio => n.(audioIndex := index)
    case AV => n.(videoIndex := index, audioIndex := index)
  }

  function Advance(s: State, id: nat, i: nat, mediaType: MediaType): State
    requires id in s.q.notifiers && i < |s.q.frames|
  {
    var n := s.q.notifiers[id];
    var next := NextIndex(s.q.frames, i, mediaType, KeysOnly(s, id));
    var marked := if KeysOnly(s, id) && mediaType == Video
                  then MarkRange(s.q.frames, i + 1, next, n.readIndex) else s.q.frames;
    s.(q := s.q.(frames := marked, notifiers := s.q.notifiers[id := MoveIndex(n, mediaType, next)]))
  }

  /** May the receiver in `slot` be given this frame: unread, and a key frame where only those are wanted? */
  predicate Deliverable(d: DataSpec, slot: nat, mediaType: MediaType, keysOnly: bool) {
    slot !in d.reserve && (keysOnly && mediaType == Video ==> IsKeyVideo(d.media))
  }

  /** The frames after the callback: the frame at `i` is marked as read if it is delivered. */
  function ReadFrames(frames: seq<DataSpec>, i: nat, slot: nat, deliver: bool): seq<DataSpec>
    requires i < |frames|
  {
    if deliver then frames[i := AddMarks(frames[i], {slot})] else frames
  }

  /** Does the receiver's read index name a buffered frame? */
  predicate HasFrame(s: State, id: nat, mediaType: MediaType) {
    id in s.q.notifiers && ReadIndex(s.q.notifiers[id], mediaType) < |s.q.frames|
  }

  predicate Delivers(s: State, id: nat, mediaType: MediaType)
    requires HasFrame(s, id, mediaType)
  {
    var n := s.q.notifiers[id];
    Deliverable(s.q.frames[ReadIndex(n, mediaType)], n.readIndex, mediaType, KeysOnly(s, id))
  }

  function AfterCallback(s: State, id: nat, mediaType: MediaType): State
    requires HasFrame(s, id, mediaType)
  {
    var n := s.q.notifiers[id];
    s.(q := s.q.(frames := ReadFrames(s.q.frames, ReadIndex(n, mediaType), n.readIndex,
                                      Delivers(s, id, mediaType))))
  }

  /** One ReadBufferData call: the new state and the frame passed to the callback, if any. */
  function Read(s: State, id: nat, mediaType: MediaType): (State, Option<DataSpec>) {
    if !HasFrame(s, id, mediaType) then (s, None)
    else
      var i := ReadIndex(s.q.notifiers[id], mediaType);
      (Advance(AfterCallback(s, id, mediaType), id, i, mediaType),
       if Delivers(s, id, mediaType) then Some(s.q.frames[i]) else None)
  }

  // ---------------------------------------------------------------- receivers

  /** The lowest clear bit of readRefFlag_, or 16 when all are set. */
  function LowestFree(ref: set<nat>, from: nat): nat
    requires from <= MAX_RECEIVER_SIZE
    decreases MAX_RECEIVER_SIZE - from
  {
    if from == MAX_RECEIVER_SIZE || from !in ref then from else LowestFree(ref, from + 1)
  }

  function AudioBit(slot: nat): nat { 2 * slot }

  function VideoBit(slot: nat): nat { 2 * slot + 1 }

  function Bits(slot: nat, mediaType: MediaType): set<nat> {
    match mediaType
    case Audio => {AudioBit(slot)}
    case Video => {VideoBit(slot)}
    case AV => {AudioBit(slot), VideoBit(slot)}
  }

  function SetBits(ref: set<nat>, bits: set<nat>, ready: bool): set<nat> {
    if ready then ref + bits else ref - bits
  }

  /** Where a new receiver starts, and which of its two data bits are raised. */
  function StartPosition(s: State): (nat, nat, bool, bool) {
    if s.q.frames == [] then (INVALID_INDEX, INVALID_INDEX, false, false)
    else if s.cfg.mode == AudioOnly then (|s.q.frames| - 1, INVALID_INDEX, true, false)
    else if s.q.keys != [] then
      var key := s.q.keys[|s.q.keys| - 1];
      var next := NextIndex(s.q.frames, key, Audio, false);
      (if next == key then INVALID_INDEX else next, key, true, true)
    else (s.q.lastAudio, INVALID_INDEX, true, false)
  }

  function Attach(s: State, id: nat, keyMode: bool, keyRedirect: bool): (t: State)
    ensures t.cfg == s.cfg && t.nextSeq == s.nextSeq && t.q.frames == s.q.frames
  {
    var slot := LowestFree(s.refs.readRef, 0);
    if id in s.q.notifiers || slot == MAX_RECEIVER_SIZE then s
    else
      var (audio, video, audioReady, videoReady) := StartPosition(s);
      s.(q := s.q.(notifiers := s.q.notifiers[id := Notifier(slot, audio, video, keyMode, keyRedirect)]),
         refs := s.refs.(readRef := s.refs.readRef + {slot},
                         dataRef := SetBits(SetBits(s.refs.dataRef, {AudioBit(slot)}, audioReady),
                                            {VideoBit(slot)}, videoReady)),
         videoNeedActivate := s.videoNeedActivate || s.q.frames == [],
         audioNeedActivate := s.audioNeedActivate || s.q.frames == [] ||
                              (s.cfg.mode != AudioOnly && s.q.lastAudio == INVALID_INDEX))
  }

  function Detach(s: State, id: nat): (t: State)
    ensures t.cfg == s.cfg && t.nextSeq == s.nextSeq && t.q.frames == s.q.frames
  {
    if id !in s.q.notifiers then s
    else
      var slot := s.q.notifiers[id].readIndex;
      s.(q := s.q.(notifiers := s.q.notifiers - {id}),
         refs := s.refs.(recvRef := s.refs.recvRef - Bits(slot, AV), readRef := s.refs.readRef - {slot}))
  }

  predicate IsRead(q: Queue, slot: nat, index: nat) {
    index >= |q.frames| || slot in q.frames[index].reserve
  }

  predicate DataAvailable(q: Queue, n: Notifier, mediaType: MediaType) {
    match mediaType
    case Audio => n.audioIndex != INVALID_INDEX &&
                  (n.audioIndex < q.lastAudio || !IsRead(q, n.readIndex, n.audioIndex + 1))
    case Video => n.videoIndex != INVALID_INDEX &&
                  (n.videoIndex < q.lastVideo || !IsRead(q, n.readIndex, n.videoIndex + 1))
    case AV => n.videoIndex != INVALID_INDEX &&
               (n.videoIndex + 1 < |q.frames| || !IsRead(q, n.readIndex, n.videoIndex + 1))
  }

  function NotifyReadReady(s: State, id: nat, mediaType: MediaType): (t: State)
    ensures t.cfg == s.cfg && t.nextSeq == s.nextSeq && t.q == s.q
  {
    if id !in s.q.notifiers then s
    else
      var n := s.q.notifiers[id];
      s.(refs := s.refs.(recvRef := s.refs.recvRef + Bits(n.readIndex, mediaType),
                         dataRef := SetBits(s.refs.dataRef, Bits(n.readIndex, mediaType),
                                            DataAvailable(s.q, n, mediaType))))
  }

  function ClearReadBit(s: State, id: nat, mediaType: MediaType): (t: State)
    ensures t.cfg == s.cfg && t.nextSeq == s.nextSeq && t.q == s.q
  {
    if id !in s.q.notifiers then s
    else s.(refs := s.refs.(recvRef := s.refs.recvRef - Bits(s.q.notifiers[id].readIndex, mediaType)))
  }

  function ClearDataBit(s: State, id: nat, mediaType: MediaType): (t: State)
    ensures t.cfg == s.cfg && t.nextSeq == s.nextSeq && t.q == s.q
  {
    if id !in s.q.notifiers then s
    else s.(refs := s.refs.(dataRef := s.refs.dataRef - Bits(s.q.notifiers[id].readIndex, mediaType)))
  }

  function SetNotifier(s: State, id: nat, n: Notifier): (t: State)
    ensures t.cfg == s.cfg && t.nextSeq == s.nextSeq && t.q.frames == s.q.frames
  {
    s.(q := s.q.(notifiers := s.q.notifiers[id := n]))
  }

  function ReceiverKeyMode(s: State, id: nat, enable: bool): (t: State)
    ensures t.cfg == s.cfg && t.nextSeq == s.nextSeq && t.q.frames == s.q.frames
  {
    if id !in s.q.notifiers then s
    else
      var t := SetNotifier(s, id, s.q.notifiers[id].(keyMode := enable));
      if enable then ClearDataBit(t, id, Video) else t
  }

  function ReceiverRedirect(s: State, id: nat, enable: bool): (t: State)
    ensures t.cfg == s.cfg && t.nextSeq == s.nextSeq && t.q.frames == s.q.frames
  {
    if id !in s.q.notifiers then s
    else SetNotifier(s, id, s.q.notifiers[id].(keyRedirect := enable)).(redirect := s.redirect || enable)
  }

  // ---------------------------------------------------------------- runs

  datatype Op =
    | OpInput(media: MediaData)
    | OpFlush
    | OpAttach(id: nat, keyMode: bool, keyRedirect: bool)
    | OpDetach(id: nat)
    | OpRead(id: nat, mediaType: MediaType)
    | OpReady(id: nat, mediaType: MediaType)
    | OpClearReadBit(id: nat, mediaType: MediaType)
    | OpClearDataBit(id: nat, mediaType: MediaType)
    | OpReceiverKeyMode(id: nat, enable: bool)
    | OpReceiverRedirect(id: nat, enable: bool)
    | OpKeyMode(enable: bool)
    | OpRedirect(enable: bool)
    | OpRapid(enable: bool)

  /** One atomic step: the new state and the frame handed to a receiver, if any. */
  function Step(s: State, op: Op): (State, Option<DataSpec>) {
    match op
    case OpInput(media) => (Input(s, media), None)
    case OpFlush => (Flush(s), None)
    case OpAttach(id, keyMode, keyRedirect) => (Attach(s, id, keyMode, keyRedirect), None)
    case OpDetach(id) => (Detach(s, id), None)
    case OpRead(id, mediaType) => Read(s, id, mediaType)
    case OpReady(id, mediaType) => (NotifyReadReady(s, id, mediaType), None)
    case OpClearReadBit(id, mediaType) => (ClearReadBit(s, id, mediaType), None)
    case OpClearDataBit(id, mediaType) => (ClearDataBit(s, id, mediaType), None)
    case OpReceiverKeyMode(id, enable) => (ReceiverKeyMode(s, id, enable), None)
    case OpReceiverRedirect(id, enable) => (ReceiverRedirect(s, id, enable), None)
    case OpKeyMode(enable) => (s.(keyOnly := enable), None)
    case OpRedirect(enable) => (s.(redirect := enable), None)
    case OpRapid(enable) => (s.(rapid := enable), None)
  }

  function Run(s: State, ops: seq<Op>): State
    decreases ops
  {
    if ops == [] then s else Run(Step(s, ops[0]).0, ops[1..])
  }

  /** The frames handed to receiver `id` along a run, in order. */
  function Delivered(s: State, ops: seq<Op>, id: nat): seq<DataSpec>
    decreases ops
  {
    if ops == [] then []
    else
      var (t, out) := Step(s, ops[0]);
      (if ops[0].OpRead? && ops[0].id == id && out.Some? then [out.value] else []) + Delivered(t, ops[1..], id)
  }
}
