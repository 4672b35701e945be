/** A context: the agents it owns, the links from source agents to their sink, and the teardown of both. */
module ContextSpec {
  datatype Kind = Sink | Source

  /** What the context reads and sets in an agent. `sinkAgentId` is the link of a source. */
  datatype Info = Info(kind: Kind, destroy: bool, sinkAgentId: nat, channel: nat)

  /**
   * `key` is the counter from which all identifiers are made. `sinksStopped` and `sourcesStopped` are the agents to
   * which the context issued a DESTROY of its own; `reports` lists the agents reported as destroyed.
   */
  datatype State = State(
    key: nat,
    agents: map<nat, Info>,
    destroying: bool,
    sinksStopped: set<nat>,
    sourcesStopped: set<nat>,
    reports: seq<(nat, Kind)>)

  datatype Event =
    | CreateAgent(kind: Kind, sinkAgentId: nat, sessionOk: bool, channel: nat)
    | DestroyAgent(id: nat)
    | AgentDestroyed(id: nat)
    | OtherEvent(id: nat)
    | Release
    | OtherIdentifier

  predicate IsLinked(agents: map<nat, Info>, id: nat, sink: nat) {
    id in agents && agents[id].kind == Source && agents[id].sinkAgentId == sink
  }

  function Linked(agents: map<nat, Info>, sink: nat): set<nat> {
    set id | id in agents && agents[id].kind == Source && agents[id].sinkAgentId == sink
  }

  function Sources(agents: map<nat, Info>): set<nat> {
    set id | id in agents && agents[id].kind == Source
  }

  function HandleCreateAgent(s: State, kind: Kind, sinkAgentId: nat, sessionOk: bool, channel: nat): State {
    if kind == Sink then
      var t := s.(key := s.key + 1);
      if !sessionOk then t else t.(agents := Emplace(s.agents, t.key, Info(Sink, false, 0, channel)))
    else if sinkAgentId !in s.agents || s.agents[sinkAgentId].destroy then s
    else
      var t := s.(key := s.key + 1);
      if !sessionOk then t
      else t.(agents := Emplace(s.agents, t.key, Info(Source, false, sinkAgentId, s.agents[sinkAgentId].channel)))
  }

  /** The map keeps an entry that is there already. */
  function Emplace(agents: map<nat, Info>, id: nat, info: Info): map<nat, Info> {
    if id in agents then agents else agents[id := info]
  }

  function HandleAgentDestroy(s: State, id: nat): State {
    if id !in s.agents then s
    else if s.agents[id].kind == Source then s.(sourcesStopped := s.sourcesStopped + {id})
    else
      var t := s.(agents := s.agents[id := s.agents[id].(destroy := true)]);
      if Linked(t.agents, id) == {} then t.(sinksStopped := t.sinksStopped + {id})
      else t.(sourcesStopped := t.sourcesStopped + Sources(t.agents))
  }

  function HandleStateDestroyAgent(s: State, id: nat): State {
    if id !in s.agents then s
    else
      var info := s.agents[id];
      var t := s.(agents := s.agents - {id});
      var u := if info.kind == Source then CheckNeedDestroySink(t, info.sinkAgentId) else t;
      u.(reports := u.reports + [(id, info.kind)])
  }

  function CheckNeedDestroySink(s: State, sink: nat): State {
    if sink in s.agents && s.agents[sink].destroy && Linked(s.agents, sink) == {} then
      s.(sinksStopped := s.sinksStopped + {sink})
    else s
  }

  function Step(s: State, e: Event): State {
    match e
    case Release => s.(destroying := true, agents := map[])
    case OtherIdentifier => s.(key := s.key + 1)
    case _ =>
      if s.destroying then s
      else
        match e
        case CreateAgent(kind, sinkAgentId, sessionOk, channel) =>
          HandleCreateAgent(s, kind, sinkAgentId, sessionOk, channel)
        case DestroyAgent(id) => HandleAgentDestroy(s, id)
        case AgentDestroyed(id) => HandleStateDestroyAgent(s, id)
        case _ => s
  }

  function Run(s: State, events: seq<Event>): State
    decreases |events|
  {
    if events == [] then s else Run(Step(s, events[0]), events[1..])
  }

  function Initial(key: nat): State {
    State(key, map[], false, {}, {}, [])
  }

  // ---------------------------------------------------------------- the invariant

  ghost predicate IdsOK(s: State) {
    && (forall id | id in s.agents ::
          id <= s.key && (s.agents[id].kind == Source ==> s.agents[id].sinkAgentId <= s.key))
    && (forall id | id in s.sinksStopped :: id <= s.key)
  }

  ghost predicate StoppedOK(s: State) {
    && (forall id | id in s.agents :: s.agents[id].destroy ==> s.agents[id].kind == Sink)
    && (forall id | id in s.sinksStopped && id in s.agents :: s.agents[id].destroy)
    && (forall id, sink | sink in s.sinksStopped :: !IsLinked(s.agents, id, sink))
    && (forall sink | sink in s.agents && s.agents[sink].destroy && sink !in s.sinksStopped ::
          exists id :: IsLinked(s.agents, id, sink))
  }

  /** A source shares the channel of its sink. */
  ghost predicate ChannelsOK(s: State) {
    forall id, sink | IsLinked(s.agents, id, sink) && sink in s.agents ::
      s.agents[id].channel == s.agents[sink].channel
  }

  ghost predicate Inv(s: State) {
    IdsOK(s) && StoppedOK(s) && ChannelsOK(s)
  }

  lemma LinkedIsLinked(agents: map<nat, Info>, sink: nat)
    ensures Linked(agents, sink) == {} <==> forall id :: !IsLinked(agents, id, sink)
  {
    if id :| IsLinked(agents, id, sink) {
      assert id in Linked(agents, sink);
    }
    if id :| id in Linked(agents, sink) {
      assert IsLinked(agents, id, sink);
    }
  }

  lemma CreateKeeps(s: State, kind: Kind, sinkAgentId: nat, sessionOk: bool, channel: nat)
    requires Inv(s)
    ensures Inv(HandleCreateAgent(s, kind, sinkAgentId, sessionOk, channel))
  {
    var t := HandleCreateAgent(s, kind, sinkAgentId, sessionOk, channel);
    assert s.key + 1 !in s.agents;
    forall id, sink | sink in t.sinksStopped
      ensures !IsLinked(t.agents, id, sink)
    {
      assert !IsLinked(s.agents, id, sink);
    }
    forall sink | sink in t.agents && t.agents[sink].destroy && sink !in t.sinksStopped
      ensures exists id :: IsLinked(t.agents, id, sink)
    {
      var id :| IsLinked(s.agents, id, sink);
      assert IsLinked(t.agents, id, sink);
    }
    forall id, sink | IsLinked(t.agents, id, sink) && sink in t.agents
      ensures t.agents[id].channel == t.agents[sink].channel
    {
      assert id in s.agents ==> IsLinked(s.agents, id, sink);
    }
  }

  /** Marking a sink, then stopping it if nothing is linked to it. */
  lemma DestroyKeeps(s: State, id: nat)
    requires Inv(s)
    ensures Inv(HandleAgentDestroy(s, id))
  {
    var t := HandleAgentDestroy(s, id);
    LinkedIsLinked(t.agents, id);
    forall k, sink: nat
      ensures IsLinked(t.agents, k, sink) <==> IsLinked(s.agents, k, sink)
    {
    }
    forall sink | sink in t.agents && t.agents[sink].destroy && sink !in t.sinksStopped
      ensures exists k :: IsLinked(t.agents, k, sink)
    {
      if sink != id {
        var k :| IsLinked(s.agents, k, sink);
        assert IsLinked(t.agents, k, sink);
      }
    }
  }

  lemma StateDestroyKeeps(s: State, id: nat)
    requires Inv(s)
    ensures Inv(HandleStateDestroyAgent(s, id))
  {
    if id in s.agents {
      var info := s.agents[id];
      var t := HandleStateDestroyAgent(s, id);
      LinkedIsLinked(t.agents, info.sinkAgentId);
      forall k, sink: nat
        ensures IsLinked(t.agents, k, sink) <==> IsLinked(s.agents, k, sink) && k != id
      {
      }
      forall sink | sink in t.agents && t.agents[sink].destroy && sink !in t.sinksStopped
        ensures exists k :: IsLinked(t.agents, k, sink)
      {
        var k :| IsLinked(s.agents, k, sink);
        assert k != id ==> IsLinked(t.agents, k, sink);
      }
    }
  }

  lemma StepKeeps(s: State, e: Event)
    requires Inv(s)
    ensures Inv(Step(s, e))
  {
    match e
    case CreateAgent(kind, sinkAgentId, sessionOk, channel) =>
      CreateKeeps(s, kind, sinkAgentId, sessionOk, channel);
    case DestroyAgent(id) => DestroyKeeps(s, id);
    case AgentDestroyed(id) => StateDestroyKeeps(s, id);
    case OtherIdentifier =>
      forall sink | sink in s.agents && s.agents[sink].destroy && sink !in s.sinksStopped
        ensures exists id :: IsLinked(Step(s, e).agents, id, sink)
      {
        var id :| IsLinked(s.agents, id, sink);
        assert IsLinked(Step(s, e).agents, id, sink);
      }
    case _ =>
  }

  lemma {:induction false} RunKeeps(s: State, events: seq<Event>)
    requires Inv(s)
    ensures Inv(Run(s, events))
    decreases |events|
  {
    hide Inv;
    if events != [] {
      StepKeeps(s, events[0]);
      RunKeeps(Step(s, events[0]), events[1..]);
    }
  }

  // ---------------------------------------------------------------- main results

  /**
   * In every reachable state the context has issued its own DESTROY to a sink exactly when the sink is marked for
   * destruction and no source is linked to it.
   */
  lemma SinkStoppedIffUnlinked(key: nat, events: seq<Event>, sink: nat)
    ensures var s := Run(Initial(key), events);
            sink in s.agents ==>
              (sink in s.sinksStopped <==> s.agents[sink].destroy && Linked(s.agents, sink) == {})
  {
    RunKeeps(Initial(key), events);
    LinkedIsLinked(Run(Initial(key), events).agents, sink);
  }

  /** Once a sink was stopped, no source is ever linked to its identifier again. */
  lemma NeverLinkedAgain(key: nat, before: seq<Event>, after: seq<Event>, sink: nat)
    requires sink in Run(Initial(key), before).sinksStopped
    ensures Linked(Run(Run(Initial(key), before), after).agents, sink) == {}
  {
    var s := Run(Initial(key), before);
    RunKeeps(Initial(key), before);
    RunKeeps(s, after);
    RunKeepsStopped(s, after);
    LinkedIsLinked(Run(s, after).agents, sink);
  }

  lemma {:induction false} RunKeepsStopped(s: State, events: seq<Event>)
    ensures s.sinksStopped <= Run(s, events).sinksStopped
    decreases |events|
  {
    if events != [] {
      RunKeepsStopped(Step(s, events[0]), events[1..]);
    }
  }

  /** A sink marked for destruction gets no new sources: links can only go away. */
  lemma {:induction false} NoNewLinks(s: State, events: seq<Event>, sink: nat)
    requires Inv(s) && sink <= s.key && (sink in s.agents ==> s.agents[sink].destroy)
    ensures Linked(Run(s, events).agents, sink) <= Linked(s.agents, sink)
    decreases |events|
  {
    if events != [] {
      var t := Step(s, events[0]);
      StepKeeps(s, events[0]);
      assert forall id :: IsLinked(t.agents, id, sink) ==> IsLinked(s.agents, id, sink);
      NoNewLinks(t, events[1..], sink);
    }
  }

  /**
   * Destroying a sink stops no other sources than its own if and only if it has none, or no other source is left to
   * stop: the context sends DESTROY to every source it has.
   */
  lemma DestroyStopsOwnSources(s: State, sink: nat)
    requires sink in s.agents && s.agents[sink].kind == Sink
    ensures HandleAgentDestroy(s, sink).sourcesStopped <= s.sourcesStopped + Linked(s.agents, sink) <==>
            Linked(s.agents, sink) == {} || Sources(s.agents) <= s.sourcesStopped + Linked(s.agents, sink)
  {
    var agents := s.agents[sink := s.agents[sink].(destroy := true)];
    assert Linked(agents, sink) == Linked(s.agents, sink);
    assert Sources(agents) == Sources(s.agents);
  }

  /** Two sinks, 1 and 2, with one source each: 3 is linked to 1, and 4 to 2. */
  const TWO_PAIRS: seq<Event> := [
    CreateAgent(Sink, 0, true, 10), CreateAgent(Sink, 0, true, 20),
    CreateAgent(Source, 1, true, 0), CreateAgent(Source, 2, true, 0)]

  lemma TwoPairs()
    ensures Run(Initial(0), TWO_PAIRS) ==
            State(4, map[1 := Info(Sink, false, 0, 10), 2 := Info(Sink, false, 0, 20),
                         3 := Info(Source, false, 1, 10), 4 := Info(Source, false, 2, 20)],
                  false, {}, {}, [])
  {
    var s1 := Step(Initial(0), TWO_PAIRS[0]);
    var s2 := Step(s1, TWO_PAIRS[1]);
    var s3 := Step(s2, TWO_PAIRS[2]);
    var s4 := Step(s3, TWO_PAIRS[3]);
    assert s2.agents == map[1 := Info(Sink, false, 0, 10), 2 := Info(Sink, false, 0, 20)];
    assert s3.agents == s2.agents[3 := Info(Source, false, 1, 10)];
    assert s4.agents == s3.agents[4 := Info(Source, false, 2, 20)];
    hide Step;
    RunFour(Initial(0), TWO_PAIRS);
  }

  lemma RunFour(s: State, e: seq<Event>)
    requires |e| == 4
    ensures Run(s, e) == Step(Step(Step(Step(s, e[0]), e[1]), e[2]), e[3])
  {
    hide Step;
    RunOne(s, e);
    RunOne(Step(s, e[0]), e[1..]);
    RunOne(Step(Step(s, e[0]), e[1]), e[2..]);
    RunOne(Step(Step(Step(s, e[0]), e[1]), e[2]), e[3..]);
    assert e[1..][1..] == e[2..] && e[2..][1..] == e[3..] && e[3..][1..] == [];
  }

  lemma RunOne(s: State, e: seq<Event>)
    requires e != []
    ensures Run(s, e) == Run(Step(s, e[0]), e[1..])
  {
  }

  /** In a reachable state, destroying sink 1 stops source 4, which belongs to sink 2. */
  lemma OtherSinksSourceIsStopped()
    ensures var s := Run(Initial(0), TWO_PAIRS);
            var t := Step(s, DestroyAgent(1));
            && IsLinked(s.agents, 4, 2) && !IsLinked(s.agents, 4, 1)
            && t.sourcesStopped == {3, 4} && t.sinksStopped == {} && 1 in t.agents && t.agents[1].destroy
  {
    TwoPairs();
    var s := Run(Initial(0), TWO_PAIRS);
    hide Run;
    var agents := s.agents[1 := s.agents[1].(destroy := true)];
    assert 3 in Linked(agents, 1);
    assert Sources(agents) == {3, 4};
  }

  /** In every reachable state a source has the media channel of the agent it is linked to. */
  lemma SourcesShareChannel(key: nat, events: seq<Event>, id: nat, sink: nat)
    ensures var s := Run(Initial(key), events);
            IsLinked(s.agents, id, sink) && sink in s.agents ==> s.agents[id].channel == s.agents[sink].channel
  {
    RunKeeps(Initial(key), events);
  }

  // ---------------------------------------------------------------- what each event changes

  /** Some source other than `except` is linked to the sink. */
  ghost predicate HasSource(s: State, sink: nat, except: nat) {
    exists k :: k != except && k in s.agents && s.agents[k].kind == Source && s.agents[k].sinkAgentId == sink
  }

  /**
   * Destroying a source stops exactly that source. Destroying a sink marks it, and stops exactly that sink if no
   * source is linked to it; otherwise exactly the sources of the context are stopped.
   */
  lemma DestroyIsExact(s: State, id: nat, k: nat)
    requires !s.destroying && id in s.agents
    ensures var t := Step(s, DestroyAgent(id));
            if s.agents[id].kind == Source then
              && (k in t.sourcesStopped <==> k in s.sourcesStopped || k == id)
              && t == s.(sourcesStopped := t.sourcesStopped)
            else
              && t == s.(agents := s.agents[id := s.agents[id].(destroy := true)],
                         sinksStopped := t.sinksStopped, sourcesStopped := t.sourcesStopped)
              && (k in t.sinksStopped <==> k in s.sinksStopped || (k == id && !HasSource(s, id, id)))
              && (k in t.sourcesStopped <==>
                    || k in s.sourcesStopped
                    || (HasSource(s, id, id) && k in s.agents && s.agents[k].kind == Source))
  {
    var agents := s.agents[id := s.agents[id].(destroy := true)];
    if s.agents[id].kind == Sink {
      LinkedIsSource(s, agents, id, id);
    }
    hide Linked;
  }

  lemma LinkedIsSource(s: State, agents: map<nat, Info>, sink: nat, except: nat)
    requires forall k | k in agents :: k in s.agents && s.agents[k].kind == agents[k].kind &&
                                       s.agents[k].sinkAgentId == agents[k].sinkAgentId
    requires forall k | k in s.agents && k !in agents :: k == except
    requires except in agents ==> agents[except].kind == Sink
    ensures Linked(agents, sink) != {} <==> HasSource(s, sink, except)
  {
    if k :| k in Linked(agents, sink) {
      assert k != except && k in s.agents;
    }
    if k :| k != except && k in s.agents && s.agents[k].kind == Source && s.agents[k].sinkAgentId == sink {
      assert k in Linked(agents, sink);
    }
  }

  /**
   * When an agent reports its destruction it is removed and reported once; and its sink is stopped if and only if
   * the agent is the last source of a sink that is marked.
   */
  lemma DestroyedIsExact(s: State, id: nat, k: nat)
    requires !s.destroying && id in s.agents
    ensures var t := Step(s, AgentDestroyed(id));
            var info := s.agents[id];
            && t == s.(agents := s.agents - {id}, sinksStopped := t.sinksStopped,
                       reports := s.reports + [(id, info.kind)])
            && (k in t.sinksStopped <==>
                  || k in s.sinksStopped
                  || (info.kind == Source && k == info.sinkAgentId && k != id && k in s.agents &&
                      s.agents[k].destroy && !HasSource(s, k, id)))
  {
    LinkedIsSource(s, s.agents - {id}, s.agents[id].sinkAgentId, id);
    hide Linked;
  }

  /**
   * A sink is always created, and a source if its sink is there and not marked, under a fresh identifier; a source
   * gets the channel of its sink. Whether it stays depends on its session. Once the context is released, or if the
   * agent is unknown, nothing changes. Identifiers are also taken by others.
   */
  lemma CreateIsExact(s: State, kind: Kind, sink: nat, sessionOk: bool, channel: nat, id: nat)
    requires Inv(s)
    ensures var t := Step(s, CreateAgent(kind, sink, sessionOk, channel));
            if s.destroying || (kind == Source && (sink !in s.agents || s.agents[sink].destroy)) then t == s
            else
              && s.key + 1 !in s.agents && t == s.(key := s.key + 1, agents := t.agents)
              && t.agents == if sessionOk
                             then s.agents[s.key + 1 := if kind == Sink then Info(Sink, false, 0, channel)
                                                        else Info(Source, false, sink, s.agents[sink].channel)]
                             else s.agents
    ensures s.destroying || id !in s.agents ==> Step(s, DestroyAgent(id)) == s && Step(s, AgentDestroyed(id)) == s
    ensures Step(s, Release) == s.(destroying := true, agents := map[])
    ensures Step(s, OtherIdentifier) == s.(key := s.key + 1) && Step(s, OtherEvent(id)) == s
  {
    hide StoppedOK, ChannelsOK;
  }
}
