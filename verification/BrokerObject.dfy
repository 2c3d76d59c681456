/** The broker object: its dictionaries are updated in place by every operation (youmi/bus/broker.py). */
module BrokerObject {
  import opened Common
  import opened Broker

  lemma ExtendOne(queues: map<string, seq<Message>>, m: Message, done: set<string>, a: string)
    requires a !in done && a in queues
    ensures Extended(queues, m, done)[a := Extended(queues, m, done)[a] + [m]] == Extended(queues, m, done + {a})
  {
  }

  lemma TrackOne(acks: map<string, Message>, m: Message, done: set<string>, a: string)
    requires m.NeedsAck()
    ensures Tracked(acks, m, done)[Key(m.id, a) := m] == Tracked(acks, m, done + {a})
  {
    assert AckKeys(m, done + {a}) == AckKeys(m, done) + {Key(m.id, a)};
    FillOne(acks, AckKeys(m, done), Key(m.id, a), m);
  }

  lemma FillOne(acks: map<string, Message>, keys: set<string>, key: string, m: Message)
    ensures (acks + map k | k in keys :: m)[key := m] == acks + map k | k in keys + {key} :: m
  {
  }

  /** Delivering to one more target. */
  lemma DeliverOneMore(b: Bus, m: Message, done: set<string>, a: string, next: set<string>)
    requires a !in done && next == done + {a}
    ensures DeliverTo(DeliverAll(b, m, done), m, a) == DeliverAll(b, m, next)
  {
    if a in b.queues {
      ExtendOne(b.queues, m, done, a);
      if m.NeedsAck() { TrackOne(b.pendingAcks, m, done * b.queues.Keys, a); }
      assert next * b.queues.Keys == done * b.queues.Keys + {a};
    } else {
      assert Extended(b.queues, m, next) == Extended(b.queues, m, done);
      assert next * b.queues.Keys == done * b.queues.Keys;
    }
  }

  lemma DeliverNone(b: Bus, m: Message)
    ensures DeliverAll(b, m, {}) == b
  {
    assert Extended(b.queues, m, {}) == b.queues;
    assert Tracked(b.pendingAcks, m, {}) == b.pendingAcks;
    assert {} * b.queues.Keys == {};
  }

  /** The member map after the agent has left the given workflows. */
  function LeaveAll(members: map<string, set<string>>, agent: string, wfs: set<string>): map<string, set<string>> {
    map w | w in members && (w in wfs ==> members[w] - {agent} != {}) ::
      if w in wfs then members[w] - {agent} else members[w]
  }

  function LeaveOne(members: map<string, set<string>>, agent: string, w: string): map<string, set<string>> {
    var rest := Lookup(members, w) - {agent};
    if rest == {} then members - {w} else members[w := rest]
  }

  lemma LeaveOneMore(members: map<string, set<string>>, agent: string, wfs: set<string>, w: string)
    requires w !in wfs
    ensures LeaveOne(LeaveAll(members, agent, wfs), agent, w) == LeaveAll(members, agent, wfs + {w})
  {
  }

  lemma UpdateTwice<K, V>(m: map<K, V>, k: K, v: V, w: V)
    ensures m[k := v][k := w] == m[k := w]
  {
  }

  class InProcessBroker {
    var queues: map<string, seq<Message>>
    var subscriptions: map<string, set<string>>
    var workflowMembers: map<string, set<string>>
    var agentTenants: map<string, string>
    var pendingAcks: map<string, Message>
    var workflowCounter: nat

    function View(): Bus
      reads this
    {
      Bus(queues, subscriptions, workflowMembers, agentTenants, pendingAcks, workflowCounter)
    }

    constructor ()
      ensures View() == Bus(map[], map[], map[], map[], map[], 0)
    {
      queues, subscriptions, workflowMembers, agentTenants, pendingAcks := map[], map[], map[], map[], map[];
      workflowCounter := 0;
    }

    method Join(agent: string, workflow: string, tenant: string)
      modifies this
      ensures View() == Subscribe(old(View()), agent, workflow, tenant)
      ensures agentTenants == old(agentTenants)[agent := if tenant == "" then "default" else tenant]
    {
      if agent !in queues {
        queues := queues[agent := []];
      }
      ghost var before := subscriptions;
      var joined := Lookup(subscriptions, agent);
      subscriptions := subscriptions[agent := joined];
      agentTenants := agentTenants[agent := OrDefault(tenant)];
      if workflow != "" {
        AddMember(agent, joined, workflow);
        UpdateTwice(before, agent, joined, joined + {workflow});
      } else {
        assert joined + {} == joined;
      }
    }

    method AddMember(agent: string, joined: set<string>, workflow: string)
      modifies this`subscriptions, this`workflowMembers
      ensures subscriptions == old(subscriptions)[agent := joined + {workflow}]
      ensures workflowMembers == old(workflowMembers)[workflow := Lookup(old(workflowMembers), workflow) + {agent}]
    {
      subscriptions := subscriptions[agent := joined + {workflow}];
      if workflow !in workflowMembers {
        workflowMembers := workflowMembers[workflow := {}];
      }
      workflowMembers := workflowMembers[workflow := workflowMembers[workflow] + {agent}];
    }

    method Leave(agent: string)
      modifies this
      ensures View() == Unsubscribe(old(View()), agent)
    {
      var wfs := Lookup(subscriptions, agent);
      ghost var before := workflowMembers;
      var todo := wfs;
      while todo != {}
        invariant todo <= wfs && workflowMembers == LeaveAll(before, agent, wfs - todo)
        invariant View() == old(View()).(members := workflowMembers)
        decreases todo
      {
        var w :| w in todo;
        LeaveOneMore(before, agent, wfs - todo, w);
        assert (wfs - todo) + {w} == wfs - (todo - {w});
        workflowMembers := LeaveOne(workflowMembers, agent, w);
        todo := todo - {w};
      }
      assert wfs - {} == wfs;
      subscriptions := subscriptions - {agent};
      queues := queues - {agent};
      agentTenants := agentTenants - {agent};
    }

    method Send(message: Message, freshAck: string)
      modifies this
      ensures View() == Publish(old(View()), message, freshAck)
    {
      var m := WithAck(message, freshAck);
      var todo := Targets(View(), message);
      ghost var all, done := todo, {};
      DeliverNone(View(), m);
      while todo != {}
        invariant todo !! done && todo + done == all
        invariant View() == DeliverAll(old(View()), m, done)
        decreases todo
      {
        var target :| target in todo;
        ghost var next := done + {target};
        DeliverOneMore(old(View()), m, done, target, next);
        Deliver(m, target);
        todo := todo - {target};
        done := next;
      }
      assert done == all;
    }

    method Deliver(m: Message, target: string)
      modifies this
      ensures View() == DeliverTo(old(View()), m, target)
    {
      if target !in queues {
        return;
      }
      queues := queues[target := queues[target] + [m]];
      if m.NeedsAck() {
        pendingAcks := pendingAcks[Key(m.id, target) := m];
      }
    }

    method WaitForMessage(agent: string) returns (message: Option<Message>)
      modifies this
      ensures View() == Wait(old(View()), agent) && message == Received(old(View()), agent)
    {
      if agent !in queues || queues[agent] == [] {
        return None;
      }
      var m := queues[agent][0];
      queues := queues[agent := queues[agent][1..]];
      if m.NeedsAck() {
        Confirm(agent, m.id);
      }
      return Some(m);
    }

    method PendingMessages(agent: string) returns (messages: seq<Message>)
      modifies this
      ensures View() == Drain(old(View()), agent)
      ensures messages == if agent in old(queues) then old(queues)[agent] else []
    {
      messages := [];
      if agent !in queues {
        return;
      }
      ghost var all := queues[agent];
      while queues[agent] != []
        invariant agent in queues && messages + queues[agent] == all
        invariant View() == old(View()).(queues := old(queues)[agent := queues[agent]])
        decreases |queues[agent]|
      {
        var head := queues[agent][0];
        messages := messages + [head];
        queues := queues[agent := queues[agent][1..]];
      }
    }

    method Confirm(agent: string, id: string)
      modifies this
      ensures View() == Ack(old(View()), agent, id)
    {
      pendingAcks := pendingAcks - {Key(id, agent)};
    }

    method NewWorkflow() returns (id: string)
      modifies this
      ensures View() == CreateWorkflow(old(View())) && id == WorkflowId(old(workflowCounter) + 1)
    {
      workflowCounter := workflowCounter + 1;
      id := WorkflowId(workflowCounter);
      workflowMembers := workflowMembers[id := {}];
    }
  }
}
