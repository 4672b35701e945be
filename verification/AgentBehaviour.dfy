/** What an agent does with each event, by the names of the events: admission, session orders, acknowledgements. */
module AgentBehaviour {
  import opened AgentSpec
  import opened AgentSafety

  // ---------------------------------------------------------------- the trace only grows

  predicate Grows(s: Machine, t: Machine) {
    s.trace <= t.trace
  }

  lemma {:induction false} HandleGrows(s: Machine, event: Event)
    ensures Grows(s, HandleEvent(s, event))
    decreases Work(s, event), 4, 0
  {
    var c := Admit(s, event);
    if Proceeds(c) {
      ProceedGrows(c.s, event, Arrive(s, event).status);
    }
  }

  lemma {:induction false} ProceedGrows(s: Machine, event: Event, from: Status)
    ensures Grows(s, Proceed(s, event, from))
    ensures s.status != Interrupt ==> s.trace + [Dispatched(event, from)] <= Proceed(s, event, from).trace
    decreases |s.cache|, 3, 0
  {
    if s.status == Interrupt {
      CallGrows(s, OpInterrupt);
    } else {
      DispatchGrows(s.(trace := s.trace + [Dispatched(event, from)]), event);
    }
  }

  lemma {:induction false} DispatchGrows(s: Machine, event: Event)
    ensures Grows(s, Dispatch(s, event))
    decreases |s.cache|, 2, 2
  {
    match event.eventType
    case AgentStart => CallGrows(s, OpStart);
    case AgentDestroy => CallGrows(s, OpStop);
    case AgentPause => CallGrows(s, OpPause);
    case AgentResume => CallGrows(s, OpResume);
    case ProsumerCreated => ProsumerGrows(s, event);
    case ProsumerStarted => ProsumerGrows(s, event);
    case ProsumerPaused => ProsumerGrows(s, event);
    case ProsumerResumed => ProsumerGrows(s, event);
    case ProsumerStopped => ProsumerGrows(s, event);
    case ProsumerDestroyed => ProsumerGrows(s, event);
    case ProsumerError =>
      CallGrows(s, OpStop);
      CallGrows(s, OpDestroy);
    case PlayStarted => PushGrows(s, event);
    case PlayStopDone => PushGrows(s, event);
    case SurfaceAppended => PushGrows(s, event);
    case SurfaceRemoved => PushGrows(s, event);
    case SessionEvent => InformGrows(s);
    case _ =>
  }

  lemma {:induction false} ProsumerGrows(s: Machine, event: Event)
    ensures Grows(s, ProsumerState(s, event))
    decreases |s.cache|, 2, 1
  {
    InformGrows(s);
    if s.hasSession {
      PushGrows(InformSession(s), event);
    }
  }

  lemma {:induction false} PushGrows(s: Machine, event: Event)
    ensures Grows(s, PushNextStep(s, event))
    decreases |s.cache|, 2, 0
  {
    match event.eventType
    case ProsumerStarted => PopGrows(s, Start, Done);
    case ProsumerStopped => CallGrows(s, OpDestroy);
    case ProsumerDestroyed => PopGrows(s, Destroy, Done);
    case PlayStarted => PopGrows(s, Play, Done);
    case PlayStopDone => PopGrows(s, PlayStop, Done);
    case SurfaceAppended => PopGrows(s, AppendSurface, Done);
    case SurfaceRemoved => PopGrows(s, RemoveSurface, Done);
    case _ =>
  }

  lemma {:induction false} CallGrows(s: Machine, op: SessionOp)
    ensures Grows(s, CallSession(s, op))
    decreases |s.cache|, 1, 1
  {
    InformGrows(s.(sessionOp := op));
  }

  lemma {:induction false} InformGrows(s: Machine)
    ensures Grows(s, InformSession(s))
    decreases |s.cache|, 1, 0
  {
    if s.hasSession && s.env != [] {
      AnswerGrows(s.(env := s.env[1..]), s.env[0]);
    }
  }

  lemma {:induction false} AnswerGrows(s: Machine, replies: seq<Reply>)
    ensures Grows(s, Answer(s, replies))
    decreases |s.cache|, 0, |replies|, 0
  {
    if replies != [] {
      ReplyGrows(s, replies[0]);
      AnswerGrows(OnReply(s, replies[0]), replies[1..]);
    }
  }

  lemma {:induction false} ReplyGrows(s: Machine, reply: Reply)
    ensures Grows(s, OnReply(s, reply))
    decreases |s.cache|, 0, 0, 1
  {
    PopGrows(s, s.step, Error);
    PopGrows(s, s.step, Done);
  }

  lemma {:induction false} PopGrows(s: Machine, step: RunStep, status: Status)
    requires status == Done || status == Error
    ensures Grows(s, PopNextStep(s, step, status))
    decreases |s.cache|, 0, 0, 0
  {
    if step == s.step {
      var u := Settle(s, status);
      if u.cache != [] {
        HandleGrows(u.(cache := u.cache[1..]), u.cache[0].event);
      }
    }
  }

  // ---------------------------------------------------------------- admission

  /** The events that start a step, with the step and the weight under which they are cached. */
  predicate StartsStep(eventType: EventType, step: RunStep, weight: nat) {
    || (eventType == AgentStart && step == Start && weight == 2)
    || (eventType == SurfaceAppend && step == AppendSurface && weight == 1)
    || (eventType == SurfaceRemove && step == RemoveSurface && weight == 1)
    || (eventType == PlayStart && step == Play && weight == 1)
    || (eventType == PlayStopped && step == PlayStop && weight == 1)
    || (eventType == AgentDestroy && step == Destroy && weight == 3)
  }

  /** An event of this step with this request is cached already. */
  ghost predicate Waits(s: Machine, requestId: nat, step: RunStep) {
    exists i :: 0 <= i < |s.cache| && s.cache[i].key.requestId == requestId && s.cache[i].key.step == step
  }

  ghost predicate Refuses(s: Machine, requestId: nat, step: RunStep) {
    || (s.status == Done && s.step == Destroy)
    || (s.status == Running && (s.step == step || s.step == Destroy || Waits(s, requestId, step)))
    || (s.status == Error && step != Destroy)
  }

  /** Surface and play steps wait for the first START; while a step runs, everything waits. */
  ghost predicate Defers(s: Machine, requestId: nat, step: RunStep) {
    && !Refuses(s, requestId, step)
    && (s.status == Running || (s.status == Done && s.step == Create && step != Start && step != Destroy))
  }

  /** The event is dispatched before anything else happens. */
  predicate DispatchedFirst(s: Machine, t: Machine, event: Event, from: Status) {
    s.trace + [Dispatched(event, from)] <= t.trace
  }

  lemma WaitsIsKey(s: Machine, event: Event, step: RunStep, weight: nat)
    requires CacheOK(s.cache) && StartsStep(event.eventType, step, weight)
    ensures KeyOf(event) == Key(event.requestId, step, weight) && GetRunStep(event.eventType) == step
    ensures HasKey(s.cache, KeyOf(event)) <==> Waits(s, event.requestId, step)
  {
    if i :| 0 <= i < |s.cache| && s.cache[i].key.requestId == event.requestId && s.cache[i].key.step == step {
      assert s.cache[i].key == KeyOf(s.cache[i].event);
    }
  }

  lemma StepIsAdmitted(s: Machine, event: Event, step: RunStep, weight: nat)
    requires Inv(s) && StartsStep(event.eventType, step, weight)
    ensures var c := Admit(s, event);
            && (c.rejected <==> Refuses(s, event.requestId, step))
            && (c.cached <==> Defers(s, event.requestId, step))
            && (c.rejected ==> c.s == s)
            && (c.cached && Waits(s, event.requestId, step) ==> c.s == s)
            && (c.cached && !Waits(s, event.requestId, step) ==>
                  && multiset(c.s.cache) == multiset(s.cache) +
                                            multiset{Entry(Key(event.requestId, step, weight), event)}
                  && c.s == if step == Destroy
                            then s.(cache := c.s.cache, status := Interrupt, trace := s.trace + [Interrupted])
                            else s.(cache := c.s.cache))
            && (!c.rejected && !c.cached ==>
                  c.s == if s.status == Interrupt then s else s.(step := step, status := Running))
  {
    WaitsIsKey(s, event, step, weight);
    var e := Entry(KeyOf(event), event);
    InsertKeeps(s.cache, e);
    AdmissionIs(s, event);
    hide Admit, Insert, Sorted, TraceOK, Ended, Less, HasKey, Waits, KeyOf;
  }

  /** Admission, status by status. */
  lemma AdmissionIs(s: Machine, event: Event)
    requires event.eventType != ProsumerError && GetRunStep(event.eventType) != Idle
    ensures var c := Admit(s, event);
            var step := GetRunStep(event.eventType);
            var keep := s.(cache := Insert(s.cache, Entry(KeyOf(event), event)));
            match s.status
            case Done =>
              if s.step == Destroy then c == Check(s, true, false)
              else if s.step in {Idle, Create} && step != Start && step != Destroy
              then c == Check(keep, false, true)
              else c == Check(s.(step := step, status := Running), false, false)
            case Running =>
              if step == s.step || s.step == Destroy || HasKey(s.cache, KeyOf(event)) then c == Check(s, true, false)
              else if step == Destroy
              then c == Check(keep.(status := Interrupt, trace := s.trace + [Interrupted]), false, true)
              else c == Check(keep, false, true)
            case Error =>
              if step == Destroy then c == Check(s.(step := step, status := Running), false, false)
              else c == Check(s, true, false)
            case _ => c == Check(s, false, false)
  {
    hide Insert, HasKey, KeyOf;
  }

  /** What becomes of an event that starts a step, when no interrupt is waiting for the session. */
  ghost predicate StepIsHandled(s: Machine, t: Machine, event: Event, step: RunStep, weight: nat) {
    var waits := Waits(s, event.requestId, step);
    if Refuses(s, event.requestId, step) then t == s
    else if Defers(s, event.requestId, step) then
      if waits then t == s
      else if step == Destroy then s.trace + [Interrupted] <= t.trace
      else
        && multiset(t.cache) == multiset(s.cache) + multiset{Entry(Key(event.requestId, step, weight), event)}
        && t == s.(cache := t.cache)
    else DispatchedFirst(s, t, event, s.status)
  }

  /**
   * In every reachable state: an event that starts a step is refused, deferred or dispatched exactly as the step,
   * the status and the cache say. Refused, it changes nothing; deferred, it is added to the cache, and a destroy
   * event interrupts the running step; dispatched, it puts the agent in (its step, RUNNING).
   */
  lemma StepEvents(ok: bool, env: seq<seq<Reply>>, ops: seq<Op>, event: Event, step: RunStep, weight: nat)
    requires StartsStep(event.eventType, step, weight)
    requires Run(Created(ok, env), ops).status != Interrupt
    ensures var s := Run(Created(ok, env), ops);
            StepIsHandled(s, HandleEvent(s, event), event, step, weight)
  {
    hide Inv, Run, Waits;
    CreatedOK(ok, env);
    RunKeeps(Created(ok, env), ops);
    var s := Run(Created(ok, env), ops);
    StepIsAdmitted(s, event, step, weight);
    StatusKnown(s);
    var c := Admit(s, event);
    if Proceeds(c) {
      ProceedGrows(c.s, event, Arrive(s, event).status);
    }
  }

  lemma StatusKnown(s: Machine)
    requires Inv(s)
    ensures s.status != StatusIdle
  {
  }

  // ---------------------------------------------------------------- orders

  /** The session, if there is one, is given an order, and may answer it at once. */
  function Ordered(s: Machine, op: SessionOp): Machine {
    if s.hasSession then InformSession(s.(sessionOp := op)) else s
  }

  /** The mark that a dispatch leaves. */
  function Noted(s: Machine, event: Event, from: Status): Machine {
    s.(trace := s.trace + [Dispatched(event, from)])
  }

  lemma CallIsOrdered(s: Machine, op: SessionOp)
    ensures CallSession(s, op) == Ordered(s, op)
  {
  }

  lemma HandleIsProceed(s: Machine, event: Event)
    ensures var c := Admit(s, event);
            HandleEvent(s, event) == if Proceeds(c) then Proceed(c.s, event, Arrive(s, event).status) else c.s
  {
  }

  lemma ProceedIsDispatch(s: Machine, event: Event, from: Status)
    ensures Proceed(s, event, from) ==
            if s.status == Interrupt then CallSession(s, OpInterrupt) else Dispatch(Noted(s, event, from), event)
  {
  }

  /** An event that is not stopped by the admission, and finds no interrupt, is dispatched. */
  lemma PassesIsDispatched(s: Machine, event: Event)
    ensures var c := Admit(s, event);
            !c.rejected && !c.cached && c.s.status != Interrupt ==>
              HandleEvent(s, event) == Dispatch(Noted(c.s, event, Arrive(s, event).status), event)
  {
    HandleIsProceed(s, event);
    ProceedIsDispatch(Admit(s, event).s, event, Arrive(s, event).status);
    hide Admit, HandleEvent, Proceed, Dispatch;
  }

  lemma ProsumerIs(s: Machine, event: Event)
    ensures ProsumerState(s, event) == if s.hasSession then PushNextStep(InformSession(s), event) else s
  {
  }

  /** Events that start no step pass. */
  lemma OthersPass(s: Machine, event: Event)
    requires s.status != Interrupt && GetRunStep(event.eventType) == Idle
    ensures HandleEvent(s, event) == Dispatch(Noted(s, event, s.status), event)
  {
    PassesIsDispatched(s, event);
    hide HandleEvent, Dispatch;
  }

  /**
   * A step event that is neither refused nor deferred puts the agent in (its step, RUNNING). START and DESTROY order
   * the session to start and to stop; the others are passed on to the media channel and order nothing.
   */
  lemma StepOrders(s: Machine, event: Event, step: RunStep, weight: nat)
    requires Inv(s) && s.status != Interrupt && StartsStep(event.eventType, step, weight)
    requires !Refuses(s, event.requestId, step) && !Defers(s, event.requestId, step)
    ensures var m := Noted(s, event, s.status).(step := step, status := Running);
            HandleEvent(s, event) ==
            if event.eventType == AgentStart then Ordered(m, OpStart)
            else if event.eventType == AgentDestroy then Ordered(m, OpStop)
            else m
  {
    StepIsAdmitted(s, event, step, weight);
    PassesIsDispatched(s, event);
    var m := Noted(s, event, s.status).(step := step, status := Running);
    assert event.eventType != ProsumerError && Admit(s, event).s == s.(step := step, status := Running);
    hide Inv, Refuses, Defers, Admit, HandleEvent, CallSession, Ordered;
    CallIsOrdered(m, OpStart);
    CallIsOrdered(m, OpStop);
  }

  /** A destroy event that meets a running step interrupts it: the session is told, and the event waits. */
  lemma DestroyInterrupts(s: Machine, event: Event)
    requires Inv(s) && s.status == Running && event.eventType == AgentDestroy && s.step != Destroy
    requires !Waits(s, event.requestId, Destroy)
    ensures exists cache ::
              && multiset(cache) == multiset(s.cache) + multiset{Entry(Key(event.requestId, Destroy, 3), event)}
              && HandleEvent(s, event) ==
                 Ordered(s.(cache := cache, status := Interrupt, trace := s.trace + [Interrupted]), OpInterrupt)
  {
    StepIsAdmitted(s, event, Destroy, 3);
    var c := Admit(s, event);
    HandleIsProceed(s, event);
    ProceedIsDispatch(c.s, event, s.status);
    CallIsOrdered(c.s, OpInterrupt);
    hide Inv, Waits, Admit, Ordered, HandleEvent, Proceed, CallSession;
    assert c.s == s.(cache := c.s.cache, status := Interrupt, trace := s.trace + [Interrupted]);
  }

  /** While an interrupt waits for the session, every event but a prosumer error repeats the order to interrupt. */
  lemma InterruptRepeats(s: Machine, event: Event)
    requires s.status == Interrupt && event.eventType != ProsumerError
    ensures HandleEvent(s, event) == Ordered(s, OpInterrupt)
  {
    HandleIsProceed(s, event);
    ProceedIsDispatch(s, event, s.status);
    CallIsOrdered(s, OpInterrupt);
    hide Ordered, HandleEvent, Proceed, CallSession;
  }

  /**
   * A prosumer error is always dispatched and puts the agent in (DESTROY, RUNNING), whatever it was doing. A failure
   * orders the session to stop, and a failure to stop orders its destruction.
   */
  lemma ProsumerErrors(s: Machine, event: Event)
    requires event.eventType == ProsumerError
    ensures var m := Noted(s, event, Error).(step := Destroy, status := Running);
            HandleEvent(s, event) ==
            if event.code == ProsumerFailed then Ordered(m, OpStop)
            else if event.code == ProsumerStopFailed then Ordered(m, OpDestroy)
            else m
  {
    var m := Noted(s, event, Error).(step := Destroy, status := Running);
    PassesIsDispatched(s, event);
    CallIsOrdered(m, OpStop);
    CallIsOrdered(m, OpDestroy);
    hide Ordered, HandleEvent, CallSession;
  }

  /** The events that start no step and acknowledge none are dispatched in any step; these are their orders. */
  lemma OtherOrders(s: Machine, event: Event)
    requires s.status != Interrupt
    ensures var m := Noted(s, event, s.status);
            var t := HandleEvent(s, event);
            && (event.eventType == AgentPause ==> t == Ordered(m, OpPause))
            && (event.eventType == AgentResume ==> t == Ordered(m, OpResume))
            && (event.eventType in {ProsumerCreated, ProsumerPaused, ProsumerResumed, SessionEvent} ==>
                  t == InformSession(m))
            && (event.eventType == ProsumerStopped ==>
                  t == if s.hasSession then Ordered(InformSession(m), OpDestroy) else m)
            && (event.eventType == ChannelSetting ==> t == m)
  {
    var m := Noted(s, event, s.status);
    if GetRunStep(event.eventType) == Idle {
      OthersPass(s, event);
      CallIsOrdered(m, OpPause);
      CallIsOrdered(m, OpResume);
      ProsumerIs(m, event);
      PushIs(InformSession(m), event);
    }
    hide Ordered, HandleEvent, CallSession, InformSession, ProsumerState, PushNextStep;
  }

  lemma PushIs(s: Machine, event: Event)
    ensures event.eventType == ProsumerStopped ==> PushNextStep(s, event) == Ordered(s, OpDestroy)
    ensures event.eventType in {ProsumerCreated, ProsumerPaused, ProsumerResumed} ==> PushNextStep(s, event) == s
  {
    CallIsOrdered(s, OpDestroy);
    hide Ordered, CallSession;
  }

  // ---------------------------------------------------------------- acknowledgements

  /** The next cached event, if any, is handled. */
  function Next(s: Machine): Machine {
    if s.cache == [] then s else HandleEvent(s.(cache := s.cache[1..]), s.cache[0].event)
  }

  /** The current step, if it is `step`, is done and acknowledged. */
  function Acknowledged(s: Machine, step: RunStep): Machine {
    if s.step != step then s else Next(s.(status := Done, trace := s.trace + [Acked(step)]))
  }

  /** The events that acknowledge a step when they report success. */
  predicate Acknowledges(event: Event, step: RunStep) {
    || (event.eventType == ProsumerStarted && step == Start)
    || (event.eventType == ProsumerDestroyed && step == Destroy)
    || (event.eventType == PlayStarted && event.code == Ok && step == Play)
    || (event.eventType == PlayStopDone && event.code == Ok && step == PlayStop)
    || (event.eventType == SurfaceAppended && event.code == Ok && step == AppendSurface)
    || (event.eventType == SurfaceRemoved && step == RemoveSurface)
  }

  lemma AcknowledgedIsPop(s: Machine, step: RunStep)
    ensures PopNextStep(s, step, Done) == Acknowledged(s, step)
  {
    hide HandleEvent;
  }

  /**
   * An acknowledgement ends its own step and no other, and the next cached event is handled; the two reports of the
   * prosumer need a session, which is informed first. A reported failure puts the agent in ERROR.
   */
  lemma Acknowledgements(s: Machine, event: Event, step: RunStep)
    requires s.status != Interrupt
    ensures var m := Noted(s, event, s.status);
            var t := HandleEvent(s, event);
            && (Acknowledges(event, step) ==>
                  t == if event.eventType in {ProsumerStarted, ProsumerDestroyed}
                       then (if s.hasSession then Acknowledged(InformSession(m), step) else m)
                       else Acknowledged(m, step))
            && (event.eventType in {PlayStarted, PlayStopDone, SurfaceAppended} && event.code != Ok ==>
                  t == m.(status := Error))
  {
    var m := Noted(s, event, s.status);
    if GetRunStep(event.eventType) == Idle {
      OthersPass(s, event);
      ProsumerIs(m, event);
      PushAcknowledges(m, event, step);
      PushAcknowledges(InformSession(m), event, step);
    }
    hide InformSession, Acknowledged, HandleEvent, ProsumerState, PushNextStep;
  }

  lemma PushAcknowledges(s: Machine, event: Event, step: RunStep)
    ensures Acknowledges(event, step) ==> PushNextStep(s, event) == Acknowledged(s, step)
  {
    AcknowledgedIsPop(s, step);
    hide PopNextStep, Acknowledged;
  }

  // ---------------------------------------------------------------- the session

  /**
   * A session error ends the current step in ERROR; the confirmation of an interrupt ends it, acknowledged, if an
   * interrupt was ordered last. The next cached event is handled in both cases.
   */
  lemma SessionReplies(s: Machine)
    ensures OnReply(s, ReplyError) == Next(s.(status := Error))
    ensures OnReply(s, ReplyInterrupted) == if s.sessionOp == OpInterrupt then Acknowledged(s, s.step) else s
  {
    AcknowledgedIsPop(s, s.step);
    hide HandleEvent;
  }

  /** A session answers call by call, with the replies listed for that call, in their order. */
  lemma SessionAnswers(s: Machine)
    ensures !s.hasSession || s.env == [] ==> InformSession(s) == s
    ensures s.hasSession && s.env != [] && s.env[0] == [] ==> InformSession(s) == s.(env := s.env[1..])
    ensures s.hasSession && s.env != [] ==>
              InformSession(s) == Answered(s.(env := s.env[1..]), s.env[0])
  {
    if s.hasSession && s.env != [] {
      AnswerIs(s.(env := s.env[1..]), s.env[0]);
      hide Answer, Answered;
    }
  }

  /** The replies take effect one after another. */
  function Answered(s: Machine, replies: seq<Reply>): Machine {
    if replies == [] then s
    else OnReply(Answered(s, replies[..|replies| - 1]), replies[|replies| - 1])
  }

  lemma {:induction false} AnswerIs(s: Machine, replies: seq<Reply>)
    ensures Answer(s, replies) == Answered(s, replies)
    decreases |replies|
  {
    hide OnReply;
    AnswerLast(s, replies);
    if replies != [] {
      AnswerIs(s, replies[..|replies| - 1]);
    }
  }

  lemma {:induction false} AnswerLast(s: Machine, replies: seq<Reply>)
    ensures replies != [] ==>
              Answer(s, replies) == OnReply(Answer(s, replies[..|replies| - 1]), replies[|replies| - 1])
    decreases |replies|
  {
    hide OnReply;
    if |replies| > 1 {
      var last := |replies| - 1;
      AnswerStep(s, replies);
      AnswerStep(s, replies[..last]);
      AnswerLast(OnReply(s, replies[0]), replies[1..]);
      assert replies[1..][..last - 1] == replies[..last][1..];
    } else if |replies| == 1 {
      AnswerStep(s, replies);
    }
  }

  lemma AnswerStep(s: Machine, replies: seq<Reply>)
    ensures Answer(s, replies) ==
            if replies == [] then s else Answer(OnReply(s, replies[0]), replies[1..])
  {
  }

  // ---------------------------------------------------------------- order of the cache

  /**
   * Of two cached events the one for DESTROY goes first, then the one for START, then the others in the order
   * append, remove, play and stop; events of the same step go by their request.
   */
  lemma EarlierEvent(a: Event, b: Event, i: RunStep, j: RunStep, v: nat, w: nat)
    requires StartsStep(a.eventType, i, v) && StartsStep(b.eventType, j, w)
    ensures Less(KeyOf(a), KeyOf(b)) <==>
            || (i == j && a.requestId < b.requestId)
            || (i == Destroy && j != Destroy)
            || (i == Start && j != Destroy && j != Start)
            || (i == AppendSurface && j in {RemoveSurface, Play, PlayStop})
            || (i == RemoveSurface && j in {Play, PlayStop})
            || (i == Play && j == PlayStop)
  {
  }

  // ---------------------------------------------------------------- a run

  /** A play order that comes too early waits; START is ordered; its acknowledgement starts the play. */
  lemma StartsAndPlays(play: nat, start: nat, done: nat)
    ensures var ordered := Run(Created(true, []), [OnEvent(Event(PlayStart, play, Ok)),
                                                   OnEvent(Event(AgentStart, start, Ok))]);
            var started := Step(ordered, OnEvent(Event(ProsumerStarted, done, Ok)));
            && ordered.step == Start && ordered.status == Running && ordered.sessionOp == OpStart
            && ordered.trace == [Dispatched(Event(AgentStart, start, Ok), Done)]
            && started.step == Play && started.status == Running && started.cache == []
            && started.trace == [Dispatched(Event(AgentStart, start, Ok), Done),
                                 Dispatched(Event(ProsumerStarted, done, Ok), Running),
                                 Acked(Start), Dispatched(Event(PlayStart, play, Ok), Done)]
  {
    var e0, e1, e2 := Event(PlayStart, play, Ok), Event(AgentStart, start, Ok), Event(ProsumerStarted, done, Ok);
    PlayWaits(e0);
    StartRuns(e0, e1);
    StartEnds(e0, e1, e2);
    RunTwo(Created(true, []), e0, e1);
    hide Run, HandleEvent;
  }

  function Waiting(play: Event): Machine {
    Created(true, []).(cache := [Entry(Key(play.requestId, Play, 1), play)])
  }

  function Starting(play: Event, start: Event): Machine {
    Waiting(play).(step := Start, status := Running, trace := [Dispatched(start, Done)])
  }

  lemma PlayWaits(play: Event)
    requires play.eventType == PlayStart
    ensures HandleEvent(Created(true, []), play) == Waiting(play)
  {
  }

  lemma StartRuns(play: Event, start: Event)
    requires start.eventType == AgentStart
    ensures HandleEvent(Waiting(play), start) == Starting(play, start)
  {
    var s := Starting(play, start);
    PassesIsDispatched(Waiting(play), start);
    assert Dispatch(s, start) == CallSession(s, OpStart);
    CallIsOrdered(s, OpStart);
    SessionAnswers(s);
    hide HandleEvent, CallSession, InformSession;
    assert s == Noted(Admit(Waiting(play), start).s, start, Done);
  }

  lemma StartEnds(play: Event, start: Event, done: Event)
    requires play.eventType == PlayStart && done.eventType == ProsumerStarted
    ensures var s := Starting(play, start);
            HandleEvent(s, done) ==
            s.(step := Play, cache := [],
               trace := s.trace + [Dispatched(done, Running), Acked(Start), Dispatched(play, Done)])
  {
    var s := Starting(play, start);
    Acknowledgements(s, done, Start);
    var m := Noted(s, done, Running);
    SessionAnswers(m);
    var u := m.(status := Done, trace := m.trace + [Acked(Start)], cache := []);
    PassesIsDispatched(u, play);
    hide InformSession, HandleEvent;
    assert u.trace + [Dispatched(play, Done)] ==
           s.trace + [Dispatched(done, Running), Acked(Start), Dispatched(play, Done)];
  }

  lemma RunTwo(s: Machine, a: Event, b: Event)
    ensures Run(s, [OnEvent(a), OnEvent(b)]) == HandleEvent(HandleEvent(s, a), b)
  {
    hide HandleEvent;
    var ops := [OnEvent(a), OnEvent(b)];
    assert ops[1..] == [OnEvent(b)] && ops[1..][1..] == [];
    RunOne(s, ops);
    RunOne(HandleEvent(s, a), ops[1..]);
  }

  lemma RunOne(s: Machine, ops: seq<Op>)
    requires ops != []
    ensures Run(s, ops) == Run(Step(s, ops[0]), ops[1..])
  {
    hide Step;
  }
}
