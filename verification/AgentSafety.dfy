/** Safety of the run-step machine over every event sequence and every session behaviour. */
module AgentSafety {
  import opened AgentSpec

  // ---------------------------------------------------------------- the ordering of the cache

  lemma RankInjective(a: RunStep, b: RunStep)
    ensures Rank(a) == Rank(b) <==> a == b
  {
  }

  /** The key ordering is a strict total order. */
  lemma LessIsStrictTotalOrder(a: Key, b: Key, c: Key)
    ensures !Less(a, a)
    ensures Less(a, b) ==> !Less(b, a)
    ensures Less(a, b) && Less(b, c) ==> Less(a, c)
    ensures a == b || Less(a, b) || Less(b, a)
  {
    RankInjective(a.step, b.step);
  }

  ghost predicate Sorted(cache: seq<Entry>) {
    forall i, j | 0 <= i < j < |cache| :: Less(cache[i].key, cache[j].key)
  }

  /** Insertion keeps the order and adds exactly one entry unless its key is present. */
  lemma {:induction false} InsertKeeps(cache: seq<Entry>, e: Entry)
    requires Sorted(cache)
    ensures Sorted(Insert(cache, e))
    ensures HasKey(cache, e.key) ==> Insert(cache, e) == cache
    ensures !HasKey(cache, e.key) ==> multiset(Insert(cache, e)) == multiset(cache) + multiset{e}
    ensures forall k | 0 <= k < |Insert(cache, e)| :: Insert(cache, e)[k] in cache || Insert(cache, e)[k] == e
    ensures e in Insert(cache, e) || HasKey(cache, e.key)
    decreases |cache|, 1
  {
    if cache != [] {
      forall k | 0 < k < |cache|
        ensures Less(cache[0].key, cache[k].key)
      {
      }
      if e.key == cache[0].key {
        assert HasKey(cache, e.key);
      } else if Less(e.key, cache[0].key) {
        forall k | 0 <= k < |cache|
          ensures Less(e.key, cache[k].key) && cache[k].key != e.key
        {
          LessIsStrictTotalOrder(e.key, cache[0].key, cache[k].key);
          LessIsStrictTotalOrder(e.key, e.key, e.key);
        }
      } else {
        InsertLater(cache, e);
      }
    }
  }

  lemma InsertLater(cache: seq<Entry>, e: Entry)
    requires Sorted(cache) && cache != [] && e.key != cache[0].key && !Less(e.key, cache[0].key)
    ensures Sorted(Insert(cache, e))
    ensures HasKey(cache, e.key) ==> Insert(cache, e) == cache
    ensures !HasKey(cache, e.key) ==> multiset(Insert(cache, e)) == multiset(cache) + multiset{e}
    ensures forall k | 0 <= k < |Insert(cache, e)| :: Insert(cache, e)[k] in cache || Insert(cache, e)[k] == e
    ensures e in Insert(cache, e) || HasKey(cache, e.key)
    decreases |cache|, 0
  {
    hide Insert, Less;
    var rest := cache[1..];
    var tail := Insert(rest, e);
    LessIsStrictTotalOrder(e.key, cache[0].key, cache[0].key);
    InsertKeeps(rest, e);
    InsertPast(cache, e);
    KeyInRest(cache, e.key);
    assert cache == [cache[0]] + rest;
    forall k | 0 <= k < |tail|
      ensures Less(cache[0].key, tail[k].key) && (tail[k] in cache || tail[k] == e)
    {
      if tail[k] != e {
        assert tail[k] in rest;
        var i :| 0 <= i < |rest| && rest[i] == tail[k];
        assert cache[i + 1] == tail[k];
      }
    }
  }

  lemma InsertPast(cache: seq<Entry>, e: Entry)
    requires cache != [] && e.key != cache[0].key && !Less(e.key, cache[0].key)
    ensures Insert(cache, e) == [cache[0]] + Insert(cache[1..], e)
  {
  }

  lemma KeyInRest(cache: seq<Entry>, key: Key)
    requires cache != [] && cache[0].key != key
    ensures HasKey(cache, key) <==> HasKey(cache[1..], key)
  {
    var rest := cache[1..];
    if HasKey(rest, key) {
      var i :| 0 <= i < |rest| && rest[i].key == key;
      assert cache[i + 1].key == key;
    }
    if HasKey(cache, key) {
      var i :| 0 <= i < |cache| && cache[i].key == key;
      assert rest[i - 1].key == key;
    }
  }

  // ---------------------------------------------------------------- the invariant

  predicate IsStepEvent(event: Event) {
    GetRunStep(event.eventType) != Idle
  }

  predicate IsDestroyMark(m: Mark) {
    m.Dispatched? && GetRunStep(m.event.eventType) == Destroy
  }

  /** A destroy event has been dispatched or has interrupted a step. */
  ghost predicate Ended(trace: seq<Mark>) {
    Interrupted in trace || exists i :: 0 <= i < |trace| && IsDestroyMark(trace[i])
  }

  /** What may be dispatched after `prefix`. */
  ghost predicate Legal(prefix: seq<Mark>, m: Mark) {
    m.Dispatched? && IsStepEvent(m.event) ==>
      var step := GetRunStep(m.event.eventType);
      && (Rank(Start) < Rank(step) < Rank(Destroy) ==> Acked(Start) in prefix)
      && (m.from == Error ==> step == Destroy)
      && (Ended(prefix) ==> step == Destroy)
  }

  ghost predicate TraceOK(trace: seq<Mark>) {
    forall i | 0 <= i < |trace| :: Legal(trace[..i], trace[i])
  }

  ghost predicate CacheOK(cache: seq<Entry>) {
    && Sorted(cache)
    && forall i | 0 <= i < |cache| ::
         && cache[i].key == KeyOf(cache[i].event) && IsStepEvent(cache[i].event)
         && cache[i].event.eventType != ProsumerError
  }

  ghost predicate DestroyFirst(cache: seq<Entry>) {
    cache != [] && cache[0].key.step == Destroy
  }

  ghost predicate Inv(s: Machine) {
    && TraceOK(s.trace) && CacheOK(s.cache)
    && s.status != StatusIdle && s.step != Idle
    && (s.status == Interrupt ==> s.step != Destroy && DestroyFirst(s.cache))
    && (Acked(Start) !in s.trace ==> s.step in {Create, Start, Destroy} && (s.status == Done ==> s.step != Start))
    && (Ended(s.trace) ==> s.step == Destroy || s.status == Interrupt)
    && (s.sessionOp == OpInterrupt ==> s.step == Destroy || s.status == Interrupt)
  }

  lemma TraceGrows(trace: seq<Mark>, m: Mark)
    requires TraceOK(trace) && Legal(trace, m)
    ensures TraceOK(trace + [m])
    ensures Ended(trace + [m]) <==> Ended(trace) || m == Interrupted || IsDestroyMark(m)
  {
    var t := trace + [m];
    forall i | 0 <= i < |t|
      ensures Legal(t[..i], t[i])
    {
      assert t[..i] == trace[..i];
      if i == |trace| {
        assert trace[..i] == trace;
      }
    }
    if Ended(trace) && Interrupted !in trace {
      var i :| 0 <= i < |trace| && IsDestroyMark(trace[i]);
      assert t[i] == trace[i];
    }
    if IsDestroyMark(m) {
      assert t[|trace|] == m;
    }
  }

  lemma InsertCacheOK(cache: seq<Entry>, event: Event)
    requires CacheOK(cache) && IsStepEvent(event) && event.eventType != ProsumerError
    ensures CacheOK(Insert(cache, Entry(KeyOf(event), event)))
  {
    InsertKeeps(cache, Entry(KeyOf(event), event));
  }

  lemma WeightOfDestroy(event: Event)
    ensures KeyOf(event).weight <= 3
    ensures KeyOf(event).weight == 3 <==> KeyOf(event).step == Destroy
  {
  }

  /** A destroy event is cached ahead of everything else. */
  lemma DestroyIsFirst(cache: seq<Entry>, event: Event)
    requires CacheOK(cache) && IsStepEvent(event) && event.eventType != ProsumerError
    requires KeyOf(event).step == Destroy && !HasKey(cache, KeyOf(event))
    ensures DestroyFirst(Insert(cache, Entry(KeyOf(event), event)))
  {
    var e := Entry(KeyOf(event), event);
    var r := Insert(cache, e);
    InsertKeeps(cache, e);
    InsertCacheOK(cache, event);
    var i :| 0 <= i < |r| && r[i] == e;
    WeightOfDestroy(event);
    WeightOfDestroy(r[0].event);
    assert i > 0 ==> Less(r[0].key, e.key);
  }

  lemma TailOK(cache: seq<Entry>)
    requires CacheOK(cache) && cache != []
    ensures CacheOK(cache[1..])
  {
  }

  // ---------------------------------------------------------------- admission

  /** The event may be dispatched in state `s`, or `s` waits for the session's answer to an interrupt. */
  ghost predicate MayProceed(s: Machine, event: Event, from: Status) {
    s.status != Interrupt ==>
      && Legal(s.trace, Dispatched(event, from))
      && (GetRunStep(event.eventType) == Destroy ==> s.step == Destroy)
  }

  /** DESTROY is never left, and an interrupt is left only for DESTROY. */
  predicate Onward(s: Machine, t: Machine) {
    && (s.step == Destroy ==> t.step == Destroy)
    && (s.status == Interrupt ==> t.status == Interrupt || t.step == Destroy)
  }

  /** Admitting an event keeps the invariant, and lets only legal events through. */
  lemma AdmitKeeps(s: Machine, event: Event)
    requires Inv(s)
    ensures var c := Admit(s, event);
            Inv(c.s) && Onward(s, c.s) && (Proceeds(c) ==> MayProceed(c.s, event, Arrive(s, event).status))
  {
    if event.eventType != ProsumerError && IsStepEvent(event) && s.status == Running {
      CacheWhileRunning(s, event);
    } else if event.eventType != ProsumerError && IsStepEvent(event) {
      InsertCacheOK(s.cache, event);
    }
  }

  /** A running step caches the event, and is interrupted by a destroy event. */
  lemma CacheWhileRunning(s: Machine, event: Event)
    requires Inv(s) && event.eventType != ProsumerError && IsStepEvent(event) && s.status == Running
    ensures var c := Admit(s, event);
            Inv(c.s) && Onward(s, c.s) && (Proceeds(c) ==> c.s.status == Interrupt)
  {
    hide Sorted, Legal;
    InsertCacheOK(s.cache, event);
    TraceGrows(s.trace, Interrupted);
    if GetRunStep(event.eventType) == Destroy && !HasKey(s.cache, KeyOf(event)) {
      DestroyIsFirst(s.cache, event);
    }
  }

  // ---------------------------------------------------------------- the recursion

  /**
   * Every call of the recursion keeps the invariant. The measure is the number of cached events: an event that
   * was popped is dispatched or rejected.
   */
  lemma {:induction false} HandleKeeps(s: Machine, event: Event)
    requires Inv(s)
    ensures Inv(HandleEvent(s, event)) && Onward(s, HandleEvent(s, event))
    decreases Work(s, event), 4, 0
  {
    var c := Admit(s, event);
    AdmitKeeps(s, event);
    if Proceeds(c) {
      ProceedKeeps(c.s, event, Arrive(s, event).status);
    }
  }

  lemma {:induction false} ProceedKeeps(s: Machine, event: Event, from: Status)
    requires Inv(s) && MayProceed(s, event, from)
    ensures Inv(Proceed(s, event, from)) && Onward(s, Proceed(s, event, from))
    decreases |s.cache|, 3, 0
  {
    if s.status == Interrupt {
      CallKeeps(s, OpInterrupt);
    } else {
      TraceGrows(s.trace, Dispatched(event, from));
      DispatchKeeps(s.(trace := s.trace + [Dispatched(event, from)]), event);
    }
  }

  lemma {:induction false} DispatchKeeps(s: Machine, event: Event)
    requires Inv(s) && s.status != Interrupt
    ensures Inv(Dispatch(s, event)) && Onward(s, Dispatch(s, event))
    decreases |s.cache|, 2, 2
  {
    match event.eventType
    case AgentStart => CallKeeps(s, OpStart);
    case AgentDestroy => CallKeeps(s, OpStop);
    case AgentPause => CallKeeps(s, OpPause);
    case AgentResume => CallKeeps(s, OpResume);
    case ProsumerCreated => ProsumerKeeps(s, event);
    case ProsumerStarted => ProsumerKeeps(s, event);
    case ProsumerPaused => ProsumerKeeps(s, event);
    case ProsumerResumed => ProsumerKeeps(s, event);
    case ProsumerStopped => ProsumerKeeps(s, event);
    case ProsumerDestroyed => ProsumerKeeps(s, event);
    case ProsumerError =>
      CallKeeps(s, OpStop);
      CallKeeps(s, OpDestroy);
    case PlayStarted => PushKeeps(s, event);
    case PlayStopDone => PushKeeps(s, event);
    case SurfaceAppended => PushKeeps(s, event);
    case SurfaceRemoved => PushKeeps(s, event);
    case SessionEvent => InformKeeps(s);
    case _ =>
  }

  lemma {:induction false} ProsumerKeeps(s: Machine, event: Event)
    requires Inv(s)
    ensures Inv(ProsumerState(s, event)) && Onward(s, ProsumerState(s, event))
    decreases |s.cache|, 2, 1
  {
    InformKeeps(s);
    if s.hasSession {
      PushKeeps(InformSession(s), event);
    }
  }

  lemma {:induction false} PushKeeps(s: Machine, event: Event)
    requires Inv(s)
    ensures Inv(PushNextStep(s, event)) && Onward(s, PushNextStep(s, event))
    decreases |s.cache|, 2, 0
  {
    match event.eventType
    case ProsumerStarted => PopKeeps(s, Start, Done);
    case ProsumerStopped => CallKeeps(s, OpDestroy);
    case ProsumerDestroyed => PopKeeps(s, Destroy, Done);
    case PlayStarted => PopKeeps(s, Play, Done);
    case PlayStopDone => PopKeeps(s, PlayStop, Done);
    case SurfaceAppended => PopKeeps(s, AppendSurface, Done);
    case SurfaceRemoved => PopKeeps(s, RemoveSurface, Done);
    case _ =>
  }

  lemma {:induction false} CallKeeps(s: Machine, op: SessionOp)
    requires Inv(s) && (op == OpInterrupt ==> s.status == Interrupt)
    ensures Inv(CallSession(s, op)) && Onward(s, CallSession(s, op))
    decreases |s.cache|, 1, 1
  {
    InformKeeps(s.(sessionOp := op));
  }

  lemma {:induction false} InformKeeps(s: Machine)
    requires Inv(s)
    ensures Inv(InformSession(s)) && Onward(s, InformSession(s))
    decreases |s.cache|, 1, 0
  {
    if s.hasSession && s.env != [] {
      AnswerKeeps(s.(env := s.env[1..]), s.env[0]);
    }
  }

  lemma {:induction false} AnswerKeeps(s: Machine, replies: seq<Reply>)
    requires Inv(s)
    ensures Inv(Answer(s, replies)) && Onward(s, Answer(s, replies))
    decreases |s.cache|, 0, |replies|, 0
  {
    if replies != [] {
      ReplyKeeps(s, replies[0]);
      AnswerKeeps(OnReply(s, replies[0]), replies[1..]);
    }
  }

  lemma {:induction false} ReplyKeeps(s: Machine, reply: Reply)
    requires Inv(s)
    ensures Inv(OnReply(s, reply)) && Onward(s, OnReply(s, reply))
    decreases |s.cache|, 0, 0, 1
  {
    PopKeeps(s, s.step, Error);
    if s.sessionOp == OpInterrupt {
      PopKeeps(s, s.step, Done);
    }
  }

  /** The state in which a popped event is admitted. */
  function Popped(s: Machine, status: Status): Machine
    requires s.cache != []
  {
    Settle(s, status).(cache := s.cache[1..])
  }

  lemma SettleTrace(s: Machine, status: Status)
    requires TraceOK(s.trace)
    ensures TraceOK(Settle(s, status).trace) && (Ended(Settle(s, status).trace) <==> Ended(s.trace))
    ensures Acked(Start) in Settle(s, status).trace <==>
            (Acked(Start) in s.trace || (status == Done && s.step == Start))
  {
    TraceGrows(s.trace, Acked(s.step));
  }

  /** A popped event is dispatched or rejected, and never cached again. */
  lemma PoppedNeverCached(s: Machine, status: Status)
    requires Inv(s) && s.cache != [] && (status == Done || status == Error)
    requires status == Done ==> s.step != Create || s.status == Interrupt
    ensures !Admit(Popped(s, status), s.cache[0].event).cached
    ensures Admit(Popped(s, status), s.cache[0].event).s.cache == s.cache[1..]
  {
    WeightOfDestroy(s.cache[0].event);
  }

  /** Admitting the popped event restores the invariant, even out of an interrupt. */
  lemma PopAdmits(s: Machine, status: Status)
    requires Inv(s) && s.cache != [] && (status == Done || status == Error)
    ensures var u := Popped(s, status);
            var c := Admit(u, s.cache[0].event);
            && Inv(c.s) && Onward(s, c.s)
            && (Proceeds(c) ==> MayProceed(c.s, s.cache[0].event, Arrive(u, s.cache[0].event).status))
            && (s.status == Interrupt ==> c.s.step == Destroy && c.s.status == Running && Proceeds(c))
  {
    var event := s.cache[0].event;
    SettleTrace(s, status);
    TailOK(s.cache);
    InsertCacheOK(s.cache[1..], event);
    assert s.cache[0].key == KeyOf(event) && IsStepEvent(event);
  }

  /**
   * There are two ways out of an interrupt, a prosumer error and a pop, and both put the agent in (DESTROY, RUNNING)
   * before anything is dispatched; every other event leaves it interrupted with its step.
   */
  lemma InterruptExits(s: Machine, event: Event, status: Status)
    requires Inv(s) && s.status == Interrupt && (status == Done || status == Error)
    ensures var t := Admit(s, event).s;
            if event.eventType == ProsumerError then t.step == Destroy && t.status == Running
            else t == s
    ensures s.cache != [] && (var t := Admit(Popped(s, status), s.cache[0].event).s;
                              t.step == Destroy && t.status == Running && t.cache == s.cache[1..])
  {
    PopAdmits(s, status);
    PoppedNeverCached(s, status);
  }

  lemma {:induction false} PopKeeps(s: Machine, step: RunStep, status: Status)
    requires Inv(s) && (status == Done || status == Error)
    requires status == Done ==> step != Create || s.status == Interrupt
    ensures Inv(PopNextStep(s, step, status)) && Onward(s, PopNextStep(s, step, status))
    decreases |s.cache|, 0, 0, 0
  {
    if step == s.step {
      SettleTrace(s, status);
      if s.cache != [] {
        var u := Popped(s, status);
        var event := s.cache[0].event;
        PopAdmits(s, status);
        PoppedNeverCached(s, status);
        var c := Admit(u, event);
        if Proceeds(c) {
          ProceedKeeps(c.s, event, Arrive(u, event).status);
        }
      }
    }
  }

  // ---------------------------------------------------------------- runs

  lemma StepKeeps(s: Machine, op: Op)
    requires Inv(s)
    ensures Inv(Step(s, op)) && Onward(s, Step(s, op))
  {
    match op
    case OnEvent(event) => HandleKeeps(s, event);
    case OnSession(reply) => ReplyKeeps(s, reply);
  }

  lemma {:induction false} RunKeeps(s: Machine, ops: seq<Op>)
    requires Inv(s)
    ensures Inv(Run(s, ops)) && Onward(s, Run(s, ops))
    decreases ops
  {
    hide Inv;
    if ops != [] {
      StepKeeps(s, ops[0]);
      RunKeeps(Step(s, ops[0]), ops[1..]);
    }
  }

  /**
   * In every run after CreateSession, whatever the session answers: no surface or play step is dispatched
   * before START was acknowledged; an event admitted in ERROR is a destroy event; and once a destroy event
   * was dispatched, or interrupted a step, only destroy events are dispatched.
   */
  lemma DispatchesAreLegal(ok: bool, env: seq<seq<Reply>>, ops: seq<Op>)
    ensures TraceOK(Run(Created(ok, env), ops).trace)
  {
    CreatedOK(ok, env);
    RunKeeps(Created(ok, env), ops);
  }

  lemma CreatedOK(ok: bool, env: seq<seq<Reply>>)
    ensures Inv(Created(ok, env))
  {
  }

  /** While a step is interrupted, it is below DESTROY and a destroy event waits at the head of the cache. */
  lemma InterruptWaitsForDestroy(ok: bool, env: seq<seq<Reply>>, ops: seq<Op>)
    ensures var s := Run(Created(ok, env), ops);
            s.status == Interrupt ==>
              Rank(s.step) < Rank(Destroy) && DestroyFirst(s.cache) && CacheOK(s.cache)
  {
    CreatedOK(ok, env);
    RunKeeps(Created(ok, env), ops);
  }

  /**
   * After every run, a pop of the current step handles the least cached event, in the acknowledged state and with
   * that event alone taken out of the cache: every other cached key is greater.
   */
  lemma PopTakesLeast(ok: bool, env: seq<seq<Reply>>, ops: seq<Op>, status: Status, i: nat)
    requires status == Done || status == Error
    requires var s := Run(Created(ok, env), ops); s.cache != [] && i < |s.cache|
    ensures var s := Run(Created(ok, env), ops);
            && PopNextStep(s, s.step, status) == HandleEvent(Popped(s, status), s.cache[0].event)
            && multiset(s.cache) == multiset(Popped(s, status).cache) + multiset{s.cache[0]}
            && (s.cache[i] != s.cache[0] ==> Less(s.cache[0].key, s.cache[i].key))
            && (i > 0 ==> s.cache[i] != s.cache[0])
  {
    CreatedOK(ok, env);
    RunKeeps(Created(ok, env), ops);
    var s := Run(Created(ok, env), ops);
    assert Sorted(s.cache);
    hide Inv, Run, HandleEvent;
    assert s.cache == [s.cache[0]] + s.cache[1..];
    LessIsStrictTotalOrder(s.cache[0].key, s.cache[0].key, s.cache[0].key);
  }

  /**
   * Once a destroy event was dispatched or has interrupted a step, every later state is in DESTROY or waits for the
   * interrupt to be confirmed; and DESTROY itself is never left.
   */
  lemma DestroyIsFinal(ok: bool, env: seq<seq<Reply>>, before: seq<Op>, after: seq<Op>)
    ensures var s := Run(Created(ok, env), before);
            var t := Run(s, after);
            && (Ended(s.trace) ==> t.step == Destroy || t.status == Interrupt)
            && (s.step == Destroy ==> t.step == Destroy)
  {
    CreatedOK(ok, env);
    RunKeeps(Created(ok, env), before);
    RunKeeps(Run(Created(ok, env), before), after);
  }
}
