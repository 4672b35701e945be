/** The agent object: its methods update the step, the status and the cache in place, as AgentSpec prescribes. */
module Agents {
  import opened AgentSpec

  class Agent {
    var runStep: RunStep
    var runningStatus: Status
    /** The ordered map from keys to deferred events. */
    var runEvents: seq<Entry>
    var hasSession: bool
    /** The order the session obeys. */
    var sessionOp: SessionOp
    /** The environment: how the session answers its next calls. */
    var env: seq<seq<Reply>>
    ghost var trace: seq<Mark>

    ghost function Abs(): AgentSpec.Machine
      reads this
    {
      AgentSpec.Machine(runStep, runningStatus, runEvents, hasSession, sessionOp, env, trace)
    }

    /** CreateSession: `found` says whether the session class is known. */
    constructor (found: bool, answers: seq<seq<Reply>>)
      ensures Abs() == Created(found, answers)
    {
      hasSession, sessionOp, env, runEvents, trace := found, OpStart, answers, [], [];
      runStep, runningStatus := Create, if found then Done else Error;
    }

    method SetRunningStatus(step: RunStep, status: Status)
      modifies `runStep, `runningStatus
      ensures runStep == step && runningStatus == status
    {
      runStep, runningStatus := step, status;
    }

    /** runEvents_.count(key) */
    method Count(key: Key) returns (found: bool)
      ensures found == HasKey(runEvents, key)
    {
      found := false;
      var i := 0;
      while i < |runEvents|
        invariant 0 <= i <= |runEvents|
        invariant found == exists k :: 0 <= k < i && runEvents[k].key == key
      {
        if runEvents[i].key == key {
          found := true;
        }
        i := i + 1;
      }
    }

    /** runEvents_.emplace(KeyOf(event), event): walks to the event's place in the ordered map. */
    method Cache(event: Event)
      modifies `runEvents
      ensures runEvents == Insert(old(runEvents), Entry(KeyOf(event), event))
    {
      hide Insert, Less, KeyOf;
      var e := Entry(KeyOf(event), event);
      var i := 0;
      assert runEvents[0..] == runEvents && [] + Insert(runEvents, e) == Insert(runEvents, e);
      while i < |runEvents| && e.key != runEvents[i].key && !Less(e.key, runEvents[i].key)
        invariant 0 <= i <= |runEvents| && runEvents == old(runEvents)
        invariant Insert(runEvents, e) == runEvents[..i] + Insert(runEvents[i..], e)
      {
        InsertStep(runEvents, i, e);
        i := i + 1;
      }
      InsertStep(runEvents, i, e);
      if i == |runEvents| || e.key != runEvents[i].key {
        runEvents := runEvents[..i] + ([e] + runEvents[i..]);
      } else {
        assert runEvents[..i] + runEvents[i..] == runEvents;
      }
    }

    method CheckRunStep(event: Event) returns (rejected: bool, cached: bool)
      modifies `runStep, `runningStatus, `runEvents, `trace
      ensures AgentSpec.CheckRunStep(old(Abs()), event) == Check(Abs(), rejected, cached)
    {
      rejected, cached := false, false;
      var step := GetRunStep(event.eventType);
      if step == Idle {
        return;
      }
      match runningStatus {
        case Done =>
          if runStep == Destroy {
            rejected := true;
          } else if Rank(runStep) < Rank(Start) && Rank(step) > Rank(Start) && Rank(step) < Rank(Destroy) {
            Cache(event);
            cached := true;
          } else {
            SetRunningStatus(step, Running);
          }
        case Running =>
          var known := Count(KeyOf(event));
          if step == runStep || Rank(runStep) >= Rank(Destroy) || known {
            rejected := true;
          } else {
            if step == Destroy && Rank(runStep) < Rank(step) {
              SetRunningStatus(runStep, Interrupt);
              trace := trace + [Interrupted];
            }
            Cache(event);
            cached := true;
          }
        case Error =>
          if step == Destroy {
            SetRunningStatus(step, Running);
          } else {
            rejected := true;
          }
        case _ =>
      }
    }

    method HandleEvent(event: Event)
      modifies this
      ensures Abs() == AgentSpec.HandleEvent(old(Abs()), event)
      decreases Work(Abs(), event), 4, 0
    {
      if event.eventType == ProsumerError {
        SetRunningStatus(runStep, Error);
      }
      ghost var from := runningStatus;
      var rejected, cached := CheckRunStep(event);
      if (rejected || cached) && runningStatus != Interrupt {
        return;
      }
      if runningStatus == Interrupt {
        UpdateSessionStatus(OpInterrupt);
      } else {
        trace := trace + [Dispatched(event, from)];
        DispatchEvent(event);
      }
    }

    /** The switch of HandleEvent. */
    method DispatchEvent(event: Event)
      modifies this
      ensures Abs() == Dispatch(old(Abs()), event)
      decreases |runEvents|, 2, 2
    {
      match event.eventType {
        case AgentStart => UpdateSessionStatus(OpStart);
        case AgentDestroy => UpdateSessionStatus(OpStop);
        case AgentPause => UpdateSessionStatus(OpPause);
        case AgentResume => UpdateSessionStatus(OpResume);
        case ProsumerCreated => HandleProsumerState(event);
        case ProsumerStarted => HandleProsumerState(event);
        case ProsumerPaused => HandleProsumerState(event);
        case ProsumerResumed => HandleProsumerState(event);
        case ProsumerStopped => HandleProsumerState(event);
        case ProsumerDestroyed => HandleProsumerState(event);
        case ProsumerError => HandleProsumerError(event);
        case PlayStarted => AdvanceIfOk(event);
        case PlayStopDone => AdvanceIfOk(event);
        case SurfaceAppended => AdvanceIfOk(event);
        case SurfaceRemoved => PushNextStep(event);
        case SessionEvent => CallSession();
        case _ =>
      }
    }

    /** A channel's answer: success advances, failure is an error of the current step. */
    method AdvanceIfOk(event: Event)
      requires event.eventType in {PlayStarted, PlayStopDone, SurfaceAppended}
      modifies this
      ensures Abs() == Dispatch(old(Abs()), event)
      decreases |runEvents|, 2, 1
    {
      if event.code == Ok {
        PushNextStep(event);
      } else {
        SetRunningStatus(runStep, Error);
      }
    }

    method HandleProsumerError(event: Event)
      requires event.eventType == ProsumerError
      modifies this
      ensures Abs() == Dispatch(old(Abs()), event)
      decreases |runEvents|, 2, 1
    {
      match event.code {
        case ProsumerFailed => UpdateSessionStatus(OpStop);
        case ProsumerStopFailed => UpdateSessionStatus(OpDestroy);
        case _ =>
      }
    }

    method HandleProsumerState(event: Event)
      modifies this
      ensures Abs() == ProsumerState(old(Abs()), event)
      decreases |runEvents|, 2, 1
    {
      if !hasSession {
        return;
      }
      CallSession();
      PushNextStep(event);
    }

    method PushNextStep(event: Event)
      modifies this
      ensures Abs() == AgentSpec.PushNextStep(old(Abs()), event)
      decreases |runEvents|, 2, 0
    {
      match event.eventType {
        case ProsumerStarted => PopNextStep(Start, Done);
        case ProsumerStopped => UpdateSessionStatus(OpDestroy);
        case ProsumerDestroyed => PopNextStep(Destroy, Done);
        case PlayStarted => PopNextStep(Play, Done);
        case PlayStopDone => PopNextStep(PlayStop, Done);
        case SurfaceAppended => PopNextStep(AppendSurface, Done);
        case SurfaceRemoved => PopNextStep(RemoveSurface, Done);
        case _ =>
      }
    }

    method UpdateSessionStatus(op: SessionOp)
      modifies this
      ensures Abs() == AgentSpec.CallSession(old(Abs()), op)
      decreases |runEvents|, 1, 1
    {
      if hasSession {
        sessionOp := op;
        CallSession();
      }
    }

    /** A call into the session, which may notify the agent several times before it returns. */
    method CallSession()
      modifies this
      ensures Abs() == InformSession(old(Abs()))
      decreases |runEvents|, 1, 0
    {
      if !hasSession || env == [] {
        return;
      }
      var replies := env[0];
      env := env[1..];
      OnSessionNotifications(replies);
    }

    method OnSessionNotifications(replies: seq<Reply>)
      modifies this
      ensures Abs() == Answer(old(Abs()), replies)
      decreases |runEvents|, 0, |replies|, 0
    {
      if replies != [] {
        OnSessionNotify(replies[0]);
        OnSessionNotifications(replies[1..]);
      }
    }

    method OnSessionNotify(reply: Reply)
      modifies this
      ensures Abs() == OnReply(old(Abs()), reply)
      decreases |runEvents|, 0, 0, 1
    {
      match reply {
        case ReplyError => PopNextStep(runStep, Error);
        case ReplyInterrupted =>
          if sessionOp == OpInterrupt {
            PopNextStep(runStep, Done);
          }
      }
    }

    method PopNextStep(step: RunStep, status: Status)
      requires status == Done || status == Error
      modifies this
      ensures Abs() == AgentSpec.PopNextStep(old(Abs()), step, status)
      decreases |runEvents|, 0, 0, 0
    {
      if step != runStep {
        return;
      }
      SetRunningStatus(step, status);
      if status == Done {
        trace := trace + [Acked(step)];
      }
      if |runEvents| > 0 {
        var event := runEvents[0].event;
        runEvents := runEvents[1..];
        HandleEvent(event);
      }
    }
  }

  /** Insertion passes the entries before the new one, and stops at its place. */
  lemma InsertStep(events: seq<Entry>, i: nat, e: Entry)
    requires i <= |events|
    ensures i == |events| ==> Insert(events[i..], e) == [e] + events[i..]
    ensures i < |events| && e.key == events[i].key ==> Insert(events[i..], e) == events[i..]
    ensures i < |events| && e.key != events[i].key && Less(e.key, events[i].key) ==>
              Insert(events[i..], e) == [e] + events[i..]
    ensures i < |events| && e.key != events[i].key && !Less(e.key, events[i].key) ==>
              events[..i] + Insert(events[i..], e) == events[..i + 1] + Insert(events[i + 1..], e)
  {
    hide Less;
    if i < |events| && e.key != events[i].key && !Less(e.key, events[i].key) {
      assert events[i..][1..] == events[i + 1..];
      assert events[..i + 1] == events[..i] + [events[i]];
      assert Insert(events[i..], e) == [events[i]] + Insert(events[i + 1..], e);
      hide Insert;
    }
  }
}
