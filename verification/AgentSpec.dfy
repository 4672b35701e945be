/**
 * The run-step machine of an agent: steps and statuses, the ordered cache of deferred events, and the mutual
 * recursion between handling an event and popping the next one. The session is an environment: `env` lists,
 * call by call, the notifications it sends back before the call returns.
 */
module AgentSpec {
  datatype RunStep = Idle | Create | Start | Pause | Resume | AppendSurface | RemoveSurface | Play | PlayStop | Destroy

  datatype Status = StatusIdle | Running | Done | Error | Interrupt

  datatype EventType =
    | AgentStart | AgentDestroy | AgentPause | AgentResume
    | ProsumerCreated | ProsumerStarted | ProsumerPaused | ProsumerResumed | ProsumerStopped | ProsumerDestroyed
    | ProsumerError
    | PlayStart | PlayStopped | PlayStarted | PlayStopDone
    | SurfaceAppend | SurfaceRemove | SurfaceAppended | SurfaceRemoved
    | ChannelSetting | SessionEvent

  /** The error codes that the agent tells apart. */
  datatype Code = Ok | ProsumerFailed | ProsumerStopFailed | OtherError

  datatype Event = Event(eventType: EventType, requestId: nat, code: Code)

  datatype Key = Key(requestId: nat, step: RunStep, weight: nat)

  datatype Entry = Entry(key: Key, event: Event)

  datatype SessionOp = OpStart | OpStop | OpPause | OpResume | OpDestroy | OpInterrupt

  /** A session error of the kinds that pop, or the confirmation of an interrupt. */
  datatype Reply = ReplyError | ReplyInterrupted

  /** What a run leaves behind: dispatches, with the status they were admitted in, acknowledgements, interrupts. */
  datatype Mark = Dispatched(event: Event, from: Status) | Acked(step: RunStep) | Interrupted

  datatype Machine = Machine(
    step: RunStep,
    status: Status,
    cache: seq<Entry>,
    hasSession: bool,
    sessionOp: SessionOp,
    env: seq<seq<Reply>>,
    trace: seq<Mark>)

  // ---------------------------------------------------------------- steps and keys

  function Rank(step: RunStep): nat {
    match step
    case Idle => 0
    case Create => 1
    case Start => 2
    case Pause => 3
    case Resume => 4
    case AppendSurface => 5
    case RemoveSurface => 6
    case Play => 7
    case PlayStop => 8
    case Destroy => 9
  }

  function GetRunStep(eventType: EventType): RunStep {
    match eventType
    case AgentStart => Start
    case SurfaceAppend => AppendSurface
    case SurfaceRemove => RemoveSurface
    case PlayStart => Play
    case PlayStopped => PlayStop
    case ProsumerError => Destroy
    case AgentDestroy => Destroy
    case _ => Idle
  }

  function GetRunStepWeight(step: RunStep): nat {
    match step
    case Start => 2
    case AppendSurface => 1
    case RemoveSurface => 1
    case Play => 1
    case PlayStop => 1
    case Destroy => 3
    case _ => 0
  }

  function KeyOf(event: Event): Key {
    var step := GetRunStep(event.eventType);
    Key(event.requestId, step, GetRunStepWeight(step))
  }

  /** The ordering of the cache: heavier first, then by step, then by request. */
  predicate Less(a: Key, b: Key) {
    if a.weight == b.weight then
      if a.step == b.step then a.requestId < b.requestId else Rank(a.step) < Rank(b.step)
    else a.weight > b.weight
  }

  predicate HasKey(cache: seq<Entry>, key: Key) {
    exists i :: 0 <= i < |cache| && cache[i].key == key
  }

  /** emplace into the ordered map: an existing key wins. */
  function Insert(cache: seq<Entry>, e: Entry): (r: seq<Entry>)
    ensures |cache| <= |r| <= |cache| + 1
  {
    if cache == [] then [e]
    else if e.key == cache[0].key then cache
    else if Less(e.key, cache[0].key) then [e] + cache
    else [cache[0]] + Insert(cache[1..], e)
  }

  // ---------------------------------------------------------------- admission

  datatype Check = Check(s: Machine, rejected: bool, cached: bool)

  function CheckRunStep(s: Machine, event: Event): (c: Check)
    ensures |c.s.cache| <= |s.cache| + 1 && (!c.cached ==> c.s.cache == s.cache)
  {
    var step := GetRunStep(event.eventType);
    if step == Idle then Check(s, false, false)
    else
      var keep := s.(cache := Insert(s.cache, Entry(KeyOf(event), event)));
      match s.status
      case Done =>
        if s.step == Destroy then Check(s, true, false)
        else if Rank(s.step) < Rank(Start) && Rank(Start) < Rank(step) < Rank(Destroy) then Check(keep, false, true)
        else Check(s.(step := step, status := Running), false, false)
      case Running =>
        if step == s.step || s.step == Destroy || HasKey(s.cache, KeyOf(event)) then Check(s, true, false)
        else if step == Destroy then Check(keep.(status := Interrupt, trace := s.trace + [Interrupted]), false, true)
        else Check(keep, false, true)
      case Error =>
        if step == Destroy then Check(s.(step := step, status := Running), false, false) else Check(s, true, false)
      case _ => Check(s, false, false)
  }

  /** A prosumer error overrides the status before it is admitted. */
  function Arrive(s: Machine, event: Event): Machine {
    if event.eventType == ProsumerError then s.(status := Error) else s
  }

  function Admit(s: Machine, event: Event): Check {
    CheckRunStep(Arrive(s, event), event)
  }

  predicate Proceeds(c: Check) {
    (!c.rejected && !c.cached) || c.s.status == Interrupt
  }

  // ---------------------------------------------------------------- handling

  /** What is left to pop while the event is handled. */
  function Work(s: Machine, event: Event): nat {
    if Proceeds(Admit(s, event)) then |Admit(s, event).s.cache| else 0
  }

  function HandleEvent(s: Machine, event: Event): (t: Machine)
    ensures |t.cache| <= |Admit(s, event).s.cache|
    decreases Work(s, event), 4, 0
  {
    var c := Admit(s, event);
    if Proceeds(c) then Proceed(c.s, event, Arrive(s, event).status) else c.s
  }

  function Proceed(s: Machine, event: Event, from: Status): (t: Machine)
    ensures |t.cache| <= |s.cache|
    decreases |s.cache|, 3, 0
  {
    if s.status == Interrupt then CallSession(s, OpInterrupt)
    else Dispatch(s.(trace := s.trace + [Dispatched(event, from)]), event)
  }

  function Dispatch(s: Machine, event: Event): (t: Machine)
    ensures |t.cache| <= |s.cache|
    decreases |s.cache|, 2, 2
  {
    match event.eventType
    case AgentStart => CallSession(s, OpStart)
    case AgentDestroy => CallSession(s, OpStop)
    case AgentPause => CallSession(s, OpPause)
    case AgentResume => CallSession(s, OpResume)
    case ProsumerCreated => ProsumerState(s, event)
    case ProsumerStarted => ProsumerState(s, event)
    case ProsumerPaused => ProsumerState(s, event)
    case ProsumerResumed => ProsumerState(s, event)
    case ProsumerStopped => ProsumerState(s, event)
    case ProsumerDestroyed => ProsumerState(s, event)
    case ProsumerError =>
      if event.code == ProsumerFailed then CallSession(s, OpStop)
      else if event.code == ProsumerStopFailed then CallSession(s, OpDestroy)
      else s
    case PlayStarted => if event.code == Ok then PushNextStep(s, event) else s.(status := Error)
    case PlayStopDone => if event.code == Ok then PushNextStep(s, event) else s.(status := Error)
    case SurfaceAppended => if event.code == Ok then PushNextStep(s, event) else s.(status := Error)
    case SurfaceRemoved => PushNextStep(s, event)
    case SessionEvent => InformSession(s)
    case _ => s
  }

  function ProsumerState(s: Machine, event: Event): (t: Machine)
    ensures |t.cache| <= |s.cache|
    decreases |s.cache|, 2, 1
  {
    if s.hasSession then PushNextStep(InformSession(s), event) else s
  }

  function PushNextStep(s: Machine, event: Event): (t: Machine)
    ensures |t.cache| <= |s.cache|
    decreases |s.cache|, 2, 0
  {
    match event.eventType
    case ProsumerStarted => PopNextStep(s, Start, Done)
    case ProsumerStopped => CallSession(s, OpDestroy)
    case ProsumerDestroyed => PopNextStep(s, Destroy, Done)
    case PlayStarted => PopNextStep(s, Play, Done)
    case PlayStopDone => PopNextStep(s, PlayStop, Done)
    case SurfaceAppended => PopNextStep(s, AppendSurface, Done)
    case SurfaceRemoved => PopNextStep(s, RemoveSurface, Done)
    case _ => s
  }

  /** UpdateOperation: the session takes the order, and may answer before it returns. */
  function CallSession(s: Machine, op: SessionOp): (t: Machine)
    ensures |t.cache| <= |s.cache|
    decreases |s.cache|, 1, 1
  {
    if s.hasSession then InformSession(s.(sessionOp := op)) else s
  }

  /** A call that gives the session no order: UpdateMediaStatus, or an event forwarded to it. */
  function InformSession(s: Machine): (t: Machine)
    ensures |t.cache| <= |s.cache|
    decreases |s.cache|, 1, 0
  {
    if !s.hasSession || s.env == [] then s else Answer(s.(env := s.env[1..]), s.env[0])
  }

  function Answer(s: Machine, replies: seq<Reply>): (t: Machine)
    ensures |t.cache| <= |s.cache|
    decreases |s.cache|, 0, |replies|, 0
  {
    if replies == [] then s else Answer(OnReply(s, replies[0]), replies[1..])
  }

  /** Errors pop with ERROR; an interrupt is confirmed only by a session that was told to interrupt. */
  function OnReply(s: Machine, reply: Reply): (t: Machine)
    ensures |t.cache| <= |s.cache|
    decreases |s.cache|, 0, 0, 1
  {
    match reply
    case ReplyError => PopNextStep(s, s.step, Error)
    case ReplyInterrupted => if s.sessionOp == OpInterrupt then PopNextStep(s, s.step, Done) else s
  }

  /** The state in which the popped event is handled. */
  function Settle(s: Machine, status: Status): Machine {
    s.(status := status, trace := if status == Done then s.trace + [Acked(s.step)] else s.trace)
  }

  function PopNextStep(s: Machine, step: RunStep, status: Status): (t: Machine)
    requires status == Done || status == Error
    ensures |t.cache| <= |s.cache|
    decreases |s.cache|, 0, 0, 0
  {
    if step != s.step then s
    else
      var u := Settle(s, status);
      if u.cache == [] then u else HandleEvent(u.(cache := u.cache[1..]), u.cache[0].event)
  }

  // ---------------------------------------------------------------- runs

  datatype Op = OnEvent(event: Event) | OnSession(reply: Reply)

  function Step(s: Machine, op: Op): Machine {
    match op
    case OnEvent(event) => HandleEvent(s, event)
    case OnSession(reply) => if s.hasSession then OnReply(s, reply) else s
  }

  function Run(s: Machine, ops: seq<Op>): Machine
    decreases ops
  {
    if ops == [] then s else Run(Step(s, ops[0]), ops[1..])
  }

  /** The agent as CreateSession leaves it. */
  function Created(ok: bool, env: seq<seq<Reply>>): Machine {
    Machine(Create, if ok then Done else Error, [], ok, OpStart, env, [])
  }
}
