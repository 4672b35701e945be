/** The context object: its handlers insert into and erase from the map of agents in place. */
module Contexts {
  import opened ContextSpec
  import opened Options

  class Context {
    var key: nat
    var agents: map<nat, Info>
    var destroying: bool
    ghost var sinksStopped: set<nat>
    ghost var sourcesStopped: set<nat>
    ghost var reports: seq<(nat, Kind)>

    ghost function Abs(): State
      reads this
    {
      State(key, agents, destroying, sinksStopped, sourcesStopped, reports)
    }

    constructor (lastKey: nat)
      ensures Abs() == Initial(lastKey)
    {
      key, agents, destroying := lastKey, map[], false;
      sinksStopped, sourcesStopped, reports := {}, {}, [];
    }

    method Release()
      modifies this
      ensures Abs() == Step(old(Abs()), Event.Release)
    {
      destroying := true;
      agents := map[];
    }

    method HandleEvent(e: Event) returns (refused: bool)
      requires !e.Release? && !e.OtherIdentifier?
      modifies this
      ensures Abs() == Step(old(Abs()), e) && refused == old(destroying)
    {
      if destroying {
        return true;
      }
      match e {
        case CreateAgent(kind, sinkAgentId, sessionOk, channel) =>
          var _ := HandleCreateAgent(kind, sinkAgentId, sessionOk, channel);
        case DestroyAgent(id) => HandleAgentDestroy(id);
        case AgentDestroyed(id) => HandleStateDestroyAgent(id);
        case _ =>
      }
      return false;
    }

    /** No source agent is linked to the sink: looks at the agents in any order. */
    method IsEmptySrcAgent(sinkAgentId: nat) returns (empty: bool)
      ensures empty <==> Linked(agents, sinkAgentId) == {}
    {
      var todo := agents.Keys;
      while todo != {}
        invariant todo <= agents.Keys
        invariant forall id | id in agents && id !in todo :: !IsLinked(agents, id, sinkAgentId)
        decreases |todo|
      {
        var id :| id in todo;
        if agents[id].kind == Source && agents[id].sinkAgentId == sinkAgentId {
          assert id in Linked(agents, sinkAgentId);
          return false;
        }
        todo := todo - {id};
      }
      LinkedIsLinked(agents, sinkAgentId);
      return true;
    }

    /** The new agent's identifier, or nothing when it could not be created. */
    method HandleCreateAgent(kind: Kind, sinkAgentId: nat, sessionOk: bool, channel: nat) returns (r: Option<nat>)
      modifies this
      ensures Abs() == ContextSpec.HandleCreateAgent(old(Abs()), kind, sinkAgentId, sessionOk, channel)
      ensures r.Some? <==> sessionOk && (kind == Source ==>
                                           sinkAgentId in old(agents) && !old(agents)[sinkAgentId].destroy)
      ensures r.Some? ==> r.value == key && key in agents
    {
      var agent;
      if kind == Sink {
        key := key + 1;
        if !sessionOk {
          return None;
        }
        agent := Info(Sink, false, 0, channel);
      } else {
        if sinkAgentId !in agents || agents[sinkAgentId].destroy {
          return None;
        }
        key := key + 1;
        if !sessionOk {
          return None;
        }
        agent := Info(Source, false, sinkAgentId, agents[sinkAgentId].channel);
      }
      if key !in agents {
        agents := agents[key := agent];
      }
      return Some(key);
    }

    method HandleAgentDestroy(id: nat)
      modifies `agents, `sinksStopped, `sourcesStopped
      ensures Abs() == ContextSpec.HandleAgentDestroy(old(Abs()), id)
    {
      if id !in agents {
        return;
      }
      if agents[id].kind == Source {
        sourcesStopped := sourcesStopped + {id};
        return;
      }
      agents := agents[id := agents[id].(destroy := true)];
      var empty := IsEmptySrcAgent(id);
      if empty {
        sinksStopped := sinksStopped + {id};
      } else {
        StopSources();
      }
    }

    method StopSources()
      modifies `sourcesStopped
      ensures sourcesStopped == old(sourcesStopped) + Sources(agents)
    {
      var todo := agents.Keys;
      while todo != {}
        invariant todo <= agents.Keys
        invariant sourcesStopped == old(sourcesStopped) + (Sources(agents) - todo)
        decreases |todo|
      {
        var id :| id in todo;
        if agents[id].kind == Source {
          sourcesStopped := sourcesStopped + {id};
        }
        todo := todo - {id};
      }
    }

    method RemoveAgent(id: nat)
      modifies `agents
      ensures agents == old(agents) - {id}
    {
      if id in agents {
        agents := agents - {id};
      }
    }

    method HandleStateDestroyAgent(id: nat)
      modifies `agents, `sinksStopped, `reports
      ensures Abs() == ContextSpec.HandleStateDestroyAgent(old(Abs()), id)
    {
      if id !in agents {
        return;
      }
      var agent := agents[id];
      RemoveAgent(id);
      if agent.kind == Source {
        CheckNeedDestroySink(agent.sinkAgentId);
      }
      reports := reports + [(id, agent.kind)];
    }

    method CheckNeedDestroySink(sinkAgentId: nat)
      modifies `sinksStopped
      ensures Abs() == ContextSpec.CheckNeedDestroySink(old(Abs()), sinkAgentId)
    {
      if sinkAgentId !in agents {
        return;
      }
      var empty := IsEmptySrcAgent(sinkAgentId);
      if agents[sinkAgentId].destroy && empty {
        sinksStopped := sinksStopped + {sinkAgentId};
      }
    }
  }
}
