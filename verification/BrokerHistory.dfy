/**
 * What the broker holds after any actions, read off the actions alone: tenants, memberships, queues and open
 * acknowledgements (youmi/bus/broker.py).
 */
module BrokerHistory {
  import opened Common
  import opened Broker
  import opened BrokerRuns

  // ---- The history ----

  /** The tenant an agent last joined with, if it has not left since; an empty tenant means the default one. */
  function TenantSince(actions: seq<Action>, a: string): Option<string> {
    if actions == [] then None
    else
      var before := TenantSince(actions[..|actions| - 1], a);
      match actions[|actions| - 1]
      case Join(agent, _, tenant) =>
        if agent == a then Some(if tenant == "" then "default" else tenant) else before
      case Leave(agent) => if agent == a then None else before
      case Shutdown => None
      case _ => before
  }

  function Issued(actions: seq<Action>): nat {
    if actions == [] then 0
    else Issued(actions[..|actions| - 1]) + if actions[|actions| - 1].NewWorkflow? then 1 else 0
  }

  /** The agent joined the workflow and has not left since, and the id was not issued anew since. */
  predicate MemberSince(actions: seq<Action>, a: string, w: string) {
    if actions == [] then false
    else
      var init := actions[..|actions| - 1];
      var before := MemberSince(init, a, w);
      match actions[|actions| - 1]
      case Join(agent, workflow, _) => before || (agent == a && workflow == w && w != "")
      case Leave(agent) => before && agent != a
      case NewWorkflow => before && w != WorkflowId(Issued(init) + 1)
      case Shutdown => false
      case _ => before
  }

  /** The agent joined the workflow and has not left since. */
  predicate SubscribedTo(actions: seq<Action>, a: string, w: string) {
    if actions == [] then false
    else
      var before := SubscribedTo(actions[..|actions| - 1], a, w);
      match actions[|actions| - 1]
      case Join(agent, workflow, _) => before || (agent == a && workflow == w && w != "")
      case Leave(agent) => before && agent != a
      case Shutdown => false
      case _ => before
  }

  ghost predicate OtherMember(actions: seq<Action>, agent: string, w: string) {
    exists a :: a != agent && MemberSince(actions, a, w)
  }

  /** The workflow is listed: joined or issued, and not dropped when its last member left. */
  ghost predicate Listed(actions: seq<Action>, w: string) {
    if actions == [] then false
    else
      var init := actions[..|actions| - 1];
      var before := Listed(init, w);
      match actions[|actions| - 1]
      case Join(_, workflow, _) => before || (workflow == w && w != "")
      case Leave(agent) => before && (SubscribedTo(init, agent, w) ==> OtherMember(init, agent, w))
      case NewWorkflow => before || w == WorkflowId(Issued(init) + 1)
      case Shutdown => false
      case _ => before
  }

  /** The message as it is delivered: tasks and feedback get an acknowledgement id unless they bring one. */
  function Stamped(m: Message, ackId: string): Message {
    Message(m.id, m.workflow, m.from, m.to, m.kind, m.tenant,
            if (m.kind == Task || m.kind == Feedback) && m.ackId == "" then ackId else m.ackId, m.content)
  }

  /**
   * Who gets the message: only agents of its tenant; of these the addressee, or on a broadcast everybody but the
   * sender, within the workflow if the message names one.
   */
  predicate MeantFor(actions: seq<Action>, m: Message, a: string) {
    && TenantSince(actions, a) == Some(m.tenant)
    && if m.to == None || m.to == Some("*") then
         a != m.from && (m.workflow == "" || MemberSince(actions, a, m.workflow))
       else m.to == Some(a) && a != ""
  }

  /** What was sent to the agent since it subscribed. */
  function SentTo(actions: seq<Action>, a: string): seq<Message> {
    if actions == [] then []
    else
      var init := actions[..|actions| - 1];
      var before := SentTo(init, a);
      match actions[|actions| - 1]
      case Leave(agent) => if agent == a then [] else before
      case Shutdown => []
      case Send(m, ackId) => if MeantFor(init, m, a) then before + [Stamped(m, ackId)] else before
      case _ => before
  }

  /** How many of these it has taken. */
  function Taken(actions: seq<Action>, a: string): nat {
    if actions == [] then 0
    else
      var init := actions[..|actions| - 1];
      var before := Taken(init, a);
      match actions[|actions| - 1]
      case Leave(agent) => if agent == a then 0 else before
      case Shutdown => 0
      case Receive(agent) => if agent == a && before < |SentTo(init, a)| then before + 1 else before
      case ReceiveAll(agent) => if agent == a then |SentTo(init, a)| else before
      case _ => before
  }

  /** The message the agent would take next. */
  function NextFor(actions: seq<Action>, a: string): Option<Message> {
    if Taken(actions, a) < |SentTo(actions, a)| then Some(SentTo(actions, a)[Taken(actions, a)]) else None
  }

  /** The key under which the delivery of message id to agent a waits for its acknowledgement. */
  predicate Names(key: string, id: string, a: string) {
    key == id + ":" + a
  }

  /** The message goes to an agent under this key. */
  ghost predicate Reaches(actions: seq<Action>, m: Message, key: string) {
    exists a :: MeantFor(actions, m, a) && Names(key, m.id, a)
  }

  /** The delivery that still waits for an acknowledgement under the key. */
  ghost function Awaiting(actions: seq<Action>, key: string): Option<Message> {
    if actions == [] then None
    else
      var init := actions[..|actions| - 1];
      var before := Awaiting(init, key);
      match actions[|actions| - 1]
      case Send(m, ackId) =>
        if Stamped(m, ackId).ackId != "" && Reaches(init, m, key) then Some(Stamped(m, ackId)) else before
      case Receive(a) =>
        var next := NextFor(init, a);
        if next.Some? && next.value.ackId != "" && Names(key, next.value.id, a) then None else before
      case Confirm(a, id) => if Names(key, id, a) then None else before
      case Shutdown => None
      case _ => before
  }

  // ---- The bus agrees with the history ----

  ghost predicate TenantsFit(b: Bus, actions: seq<Action>) {
    && (forall a :: a in b.queues <==> TenantSince(actions, a).Some?)
    && (forall a :: a in b.tenants <==> TenantSince(actions, a).Some?)
    && (forall a :: a in b.tenants ==> TenantSince(actions, a) == Some(b.tenants[a]))
    && b.counter == Issued(actions)
  }

  ghost predicate MembersFit(b: Bus, actions: seq<Action>) {
    && (forall a, w :: MemberFits(b, actions, a, w))
    && (forall w :: w in b.members <==> Listed(actions, w))
    && (forall a :: a in b.subscriptions <==> TenantSince(actions, a).Some?)
  }

  ghost predicate MemberFits(b: Bus, actions: seq<Action>, a: string, w: string) {
    && (a in Lookup(b.members, w) <==> MemberSince(actions, a, w))
    && (w in Lookup(b.subscriptions, a) <==> SubscribedTo(actions, a, w))
    && (MemberSince(actions, a, w) ==> SubscribedTo(actions, a, w))
  }

  /** The queue of one agent against what was sent to it and how much of it was taken. */
  ghost predicate QueueFits(b: Bus, a: string, sent: seq<Message>, taken: nat) {
    && taken <= |sent|
    && if a in b.queues then b.queues[a] == sent[taken..] else sent == []
  }

  ghost predicate QueuesFit(b: Bus, actions: seq<Action>) {
    forall a :: QueueFits(b, a, SentTo(actions, a), Taken(actions, a))
  }

  ghost predicate AckFits(b: Bus, key: string, waiting: Option<Message>) {
    if key in b.pendingAcks then waiting == Some(b.pendingAcks[key]) else waiting == None
  }

  ghost predicate AcksFit(b: Bus, actions: seq<Action>) {
    forall key :: AckFits(b, key, Awaiting(actions, key))
  }

  ghost predicate Fits(b: Bus, actions: seq<Action>) {
    TenantsFit(b, actions) && MembersFit(b, actions) && QueuesFit(b, actions) && AcksFit(b, actions)
  }

  ghost predicate Extends(actions: seq<Action>, init: seq<Action>, x: Action) {
    actions != [] && actions[..|actions| - 1] == init && actions[|actions| - 1] == x
  }

  // ---- Tenants and memberships ----

  lemma TenantStep(s: System, init: seq<Action>, x: Action, actions: seq<Action>, a: string)
    requires TenantsFit(s.bus, init) && Extends(actions, init, x)
    ensures var b := Apply(s, x).bus;
      && (a in b.queues <==> TenantSince(actions, a).Some?) && (a in b.tenants <==> TenantSince(actions, a).Some?)
      && (a in b.tenants ==> TenantSince(actions, a) == Some(b.tenants[a]))
  {
    match x
    case Join(agent, w, t) => JoinTenant(s.bus, agent, w, t, a);
    case Leave(agent) => LeaveTenant(s.bus, agent, a);
    case Send(m, ackId) => SendTenant(s.bus, m, ackId, a);
    case Receive(agent) => TakeTenant(s.bus, agent, a);
    case ReceiveAll(agent) => TakeTenant(s.bus, agent, a);
    case _ =>
  }

  lemma TakeTenant(b: Bus, agent: string, a: string)
    ensures (a in Wait(b, agent).queues <==> a in b.queues) && Wait(b, agent).tenants == b.tenants
    ensures (a in Drain(b, agent).queues <==> a in b.queues) && Drain(b, agent).tenants == b.tenants
  {
  }

  lemma JoinTenant(b: Bus, agent: string, w: string, t: string, a: string)
    ensures var c := Subscribe(b, agent, w, t);
      && (a in c.queues <==> a in b.queues || a == agent) && (a in c.tenants <==> a in b.tenants || a == agent)
      && (a in c.tenants ==> c.tenants[a] == if a == agent then (if t == "" then "default" else t) else b.tenants[a])
  {
  }

  lemma LeaveTenant(b: Bus, agent: string, a: string)
    ensures var c := Unsubscribe(b, agent);
      && (a in c.queues <==> a in b.queues && a != agent) && (a in c.tenants <==> a in b.tenants && a != agent)
      && (a in c.tenants ==> c.tenants[a] == b.tenants[a])
  {
  }

  lemma SendTenant(b: Bus, m: Message, ackId: string, a: string)
    ensures (a in Publish(b, m, ackId).queues <==> a in b.queues) && Publish(b, m, ackId).tenants == b.tenants
  {
  }

  lemma StepTenants(s: System, init: seq<Action>, x: Action, actions: seq<Action>)
    requires TenantsFit(s.bus, init) && Extends(actions, init, x)
    ensures TenantsFit(Apply(s, x).bus, actions)
  {
    var b := Apply(s, x).bus;
    forall a
      ensures a in b.queues <==> TenantSince(actions, a).Some?
      ensures a in b.tenants <==> TenantSince(actions, a).Some?
      ensures a in b.tenants ==> TenantSince(actions, a) == Some(b.tenants[a])
    {
      TenantStep(s, init, x, actions, a);
    }
    assert b.counter == Issued(actions);
  }

  lemma LeaveMember(b: Bus, agent: string, a: string, w: string)
    requires agent in Lookup(b.members, w) ==> w in Lookup(b.subscriptions, agent)
    ensures a in Lookup(Unsubscribe(b, agent).members, w) <==> a in Lookup(b.members, w) && a != agent
    ensures a != agent ==> Lookup(Unsubscribe(b, agent).subscriptions, a) == Lookup(b.subscriptions, a)
  {
  }

  lemma JoinMember(b: Bus, agent: string, workflow: string, tenant: string, a: string, w: string)
    ensures var c := Subscribe(b, agent, workflow, tenant);
      && (a in Lookup(c.members, w) <==> a in Lookup(b.members, w) || (agent == a && workflow == w && w != ""))
      && (w in Lookup(c.subscriptions, a) <==>
           w in Lookup(b.subscriptions, a) || (agent == a && workflow == w && w != ""))
  {
  }

  lemma MemberStep(s: System, init: seq<Action>, x: Action, actions: seq<Action>, a: string, w: string)
    requires MembersFit(s.bus, init) && s.bus.counter == Issued(init) && Extends(actions, init, x)
    ensures MemberFits(Apply(s, x).bus, actions, a, w)
  {
    assert MemberFits(s.bus, init, a, w);
    match x
    case Join(agent, workflow, t) => JoinMember(s.bus, agent, workflow, t, a, w);
    case Leave(agent) =>
      assert MemberFits(s.bus, init, agent, w);
      LeaveMember(s.bus, agent, a, w);
    case _ =>
  }

  lemma ListedStep(s: System, init: seq<Action>, x: Action, actions: seq<Action>, w: string)
    requires MembersFit(s.bus, init) && s.bus.counter == Issued(init) && Extends(actions, init, x)
    ensures w in Apply(s, x).bus.members <==> Listed(actions, w)
  {
    match x
    case Leave(agent) => LeaveListed(s.bus, init, agent, w);
    case _ =>
  }

  lemma LeaveListed(b: Bus, init: seq<Action>, agent: string, w: string)
    requires MembersFit(b, init)
    ensures w in Unsubscribe(b, agent).members <==>
      Listed(init, w) && (SubscribedTo(init, agent, w) ==> OtherMember(init, agent, w))
  {
    assert MemberFits(b, init, agent, w);
    if w in b.members {
      forall a ensures a in b.members[w] <==> MemberSince(init, a, w) {
        assert MemberFits(b, init, a, w);
      }
      SomeOther(b.members[w], agent);
      assert b.members[w] - {agent} != {} <==> OtherMember(init, agent, w);
    }
  }

  lemma SomeOther(agents: set<string>, agent: string)
    ensures agents - {agent} != {} <==> exists a :: a in agents && a != agent
  {
    if agents - {agent} != {} {
      var a :| a in agents - {agent};
    }
    forall a | a in agents && a != agent ensures agents - {agent} != {} {
      assert a in agents - {agent};
    }
  }

  lemma SubscriberStep(s: System, init: seq<Action>, x: Action, actions: seq<Action>, a: string)
    requires MembersFit(s.bus, init) && Extends(actions, init, x)
    ensures a in Apply(s, x).bus.subscriptions <==> TenantSince(actions, a).Some?
  {
  }

  lemma StepMembers(s: System, init: seq<Action>, x: Action, actions: seq<Action>)
    requires MembersFit(s.bus, init) && s.bus.counter == Issued(init) && Extends(actions, init, x)
    ensures MembersFit(Apply(s, x).bus, actions)
  {
    var b := Apply(s, x).bus;
    forall a, w ensures MemberFits(b, actions, a, w) { MemberStep(s, init, x, actions, a, w); }
    forall w ensures w in b.members <==> Listed(actions, w) { ListedStep(s, init, x, actions, w); }
    forall a ensures a in b.subscriptions <==> TenantSince(actions, a).Some? {
      SubscriberStep(s, init, x, actions, a);
    }
  }

  // ---- Queues ----

  /** The targets with a queue are exactly the agents the message is meant for. */
  lemma Audience(b: Bus, actions: seq<Action>, m: Message, a: string)
    requires TenantsFit(b, actions) && MembersFit(b, actions)
    ensures a in Targets(b, m) && a in b.queues <==> MeantFor(actions, m, a)
  {
    assert MemberFits(b, actions, a, m.workflow);
  }

  lemma StampIsAck(m: Message, ackId: string)
    ensures WithAck(m, ackId) == Stamped(m, ackId)
  {
  }

  lemma SendQueue(b: Bus, init: seq<Action>, m: Message, ackId: string, a: string, sent: seq<Message>, taken: nat)
    requires TenantsFit(b, init) && MembersFit(b, init) && QueueFits(b, a, sent, taken)
    ensures QueueFits(Publish(b, m, ackId), a, if MeantFor(init, m, a) then sent + [Stamped(m, ackId)] else sent, taken)
  {
    Audience(b, init, m, a);
    StampIsAck(m, ackId);
  }

  lemma TakeQueue(b: Bus, agent: string, a: string, sent: seq<Message>, taken: nat)
    requires QueueFits(b, a, sent, taken)
    ensures QueueFits(Wait(b, agent), a, sent, if agent == a && taken < |sent| then taken + 1 else taken)
    ensures QueueFits(Drain(b, agent), a, sent, if agent == a then |sent| else taken)
  {
  }

  lemma QueueStep(s: System, init: seq<Action>, x: Action, actions: seq<Action>, a: string)
    requires TenantsFit(s.bus, init) && MembersFit(s.bus, init) && Extends(actions, init, x)
    requires QueueFits(s.bus, a, SentTo(init, a), Taken(init, a))
    ensures QueueFits(Apply(s, x).bus, a, SentTo(actions, a), Taken(actions, a))
  {
    match x
    case Send(m, ackId) => SendQueue(s.bus, init, m, ackId, a, SentTo(init, a), Taken(init, a));
    case Receive(agent) => TakeQueue(s.bus, agent, a, SentTo(init, a), Taken(init, a));
    case ReceiveAll(agent) => TakeQueue(s.bus, agent, a, SentTo(init, a), Taken(init, a));
    case Join(agent, w, t) => JoinQueue(s.bus, agent, w, t, a, SentTo(init, a), Taken(init, a));
    case Leave(agent) => LeaveQueue(s.bus, agent, a, SentTo(init, a), Taken(init, a));
    case _ =>
  }

  lemma JoinQueue(b: Bus, agent: string, w: string, t: string, a: string, sent: seq<Message>, taken: nat)
    requires QueueFits(b, a, sent, taken)
    ensures QueueFits(Subscribe(b, agent, w, t), a, sent, taken)
  {
  }

  lemma LeaveQueue(b: Bus, agent: string, a: string, sent: seq<Message>, taken: nat)
    requires QueueFits(b, a, sent, taken)
    ensures QueueFits(Unsubscribe(b, agent), a, if agent == a then [] else sent, if agent == a then 0 else taken)
  {
  }

  lemma StepQueues(s: System, init: seq<Action>, x: Action, actions: seq<Action>)
    requires TenantsFit(s.bus, init) && MembersFit(s.bus, init) && QueuesFit(s.bus, init) && Extends(actions, init, x)
    ensures QueuesFit(Apply(s, x).bus, actions)
  {
    forall a ensures QueueFits(Apply(s, x).bus, a, SentTo(actions, a), Taken(actions, a)) {
      QueueStep(s, init, x, actions, a);
    }
  }

  /** What a receiver gets is the next of the messages sent to it. */
  lemma ReceivedIsNext(b: Bus, actions: seq<Action>, a: string)
    requires QueuesFit(b, actions)
    ensures Received(b, a) == NextFor(actions, a)
  {
    assert QueueFits(b, a, SentTo(actions, a), Taken(actions, a));
  }

  // ---- Acknowledgements ----

  lemma ReachesKeys(b: Bus, init: seq<Action>, m: Message, n: Message, key: string)
    requires TenantsFit(b, init) && MembersFit(b, init) && n.id == m.id
    ensures key in AckKeys(n, Targets(b, m) * b.queues.Keys) <==> Reaches(init, m, key)
  {
    forall a ensures a in Targets(b, m) * b.queues.Keys <==> MeantFor(init, m, a) {
      Audience(b, init, m, a);
    }
    if key in AckKeys(n, Targets(b, m) * b.queues.Keys) {
      var a :| a in Targets(b, m) * b.queues.Keys && Key(n.id, a) == key;
      assert MeantFor(init, m, a) && Names(key, m.id, a);
    }
    if Reaches(init, m, key) {
      var a :| MeantFor(init, m, a) && Names(key, m.id, a);
      assert a in Targets(b, m) * b.queues.Keys && Key(n.id, a) == key;
    }
  }

  lemma SendAck(b: Bus, init: seq<Action>, m: Message, ackId: string, key: string, waiting: Option<Message>)
    requires TenantsFit(b, init) && MembersFit(b, init) && AckFits(b, key, waiting)
    ensures AckFits(Publish(b, m, ackId), key,
      if Stamped(m, ackId).ackId != "" && Reaches(init, m, key) then Some(Stamped(m, ackId)) else waiting)
  {
    StampIsAck(m, ackId);
    ReachesKeys(b, init, m, Stamped(m, ackId), key);
  }

  lemma ReceiveAck(b: Bus, init: seq<Action>, agent: string, key: string, waiting: Option<Message>)
    requires QueuesFit(b, init) && AckFits(b, key, waiting)
    ensures var next := NextFor(init, agent);
      AckFits(Wait(b, agent), key,
        if next.Some? && next.value.ackId != "" && Names(key, next.value.id, agent) then None else waiting)
  {
    ReceivedIsNext(b, init, agent);
  }

  lemma ConfirmAck(b: Bus, agent: string, id: string, key: string, waiting: Option<Message>)
    requires AckFits(b, key, waiting)
    ensures AckFits(Ack(b, agent, id), key, if Names(key, id, agent) then None else waiting)
  {
  }

  lemma AckStep(s: System, init: seq<Action>, x: Action, actions: seq<Action>, key: string)
    requires TenantsFit(s.bus, init) && MembersFit(s.bus, init) && QueuesFit(s.bus, init) && Extends(actions, init, x)
    requires AckFits(s.bus, key, Awaiting(init, key))
    ensures AckFits(Apply(s, x).bus, key, Awaiting(actions, key))
  {
    match x
    case Send(m, ackId) => SendAck(s.bus, init, m, ackId, key, Awaiting(init, key));
    case Receive(agent) => ReceiveAck(s.bus, init, agent, key, Awaiting(init, key));
    case Confirm(agent, id) => ConfirmAck(s.bus, agent, id, key, Awaiting(init, key));
    case _ =>
  }

  lemma StepAcks(s: System, init: seq<Action>, x: Action, actions: seq<Action>)
    requires TenantsFit(s.bus, init) && MembersFit(s.bus, init) && QueuesFit(s.bus, init) && AcksFit(s.bus, init)
    requires Extends(actions, init, x)
    ensures AcksFit(Apply(s, x).bus, actions)
  {
    forall key ensures AckFits(Apply(s, x).bus, key, Awaiting(actions, key)) {
      assert AckFits(s.bus, key, Awaiting(init, key));
      AckStep(s, init, x, actions, key);
    }
  }

  // ---- Every run ----

  /** Over every run, orderly or not, the bus holds what the actions so far call for. */
  lemma {:induction false} BusFromHistory(actions: seq<Action>)
    ensures Fits(After(actions).bus, actions)
  {
    if actions != [] {
      var init, x := actions[..|actions| - 1], actions[|actions| - 1];
      BusFromHistory(init);
      StepTenants(After(init), init, x, actions);
      StepMembers(After(init), init, x, actions);
      StepQueues(After(init), init, x, actions);
      StepAcks(After(init), init, x, actions);
    }
  }

  /**
   * Whatever reaches an agent was meant for it when it was sent: it was the addressee, or in the audience of the
   * broadcast, and of the tenant of the message at that moment.
   */
  lemma {:induction false} NothingStrays(actions: seq<Action>, a: string, i: nat) returns (n: nat)
    requires i < |SentTo(actions, a)|
    ensures n < |actions| && actions[n].Send? && MeantFor(actions[..n], actions[n].message, a)
    ensures SentTo(actions, a)[i] == Stamped(actions[n].message, actions[n].freshAck)
    ensures TenantSince(actions[..n], a) == Some(SentTo(actions, a)[i].tenant)
  {
    var last := |actions| - 1;
    var init := actions[..last];
    if i < |SentTo(init, a)| {
      n := NothingStrays(init, a, i);
      assert init[..n] == actions[..n] && init[n] == actions[n];
    } else {
      n := last;
    }
  }

  /** The next receive of an agent hands out the oldest message sent to it and not yet taken, if there is one. */
  lemma ReceivesInOrder(actions: seq<Action>, a: string)
    ensures Received(After(actions).bus, a) == NextFor(actions, a)
  {
    BusFromHistory(actions);
    ReceivedIsNext(After(actions).bus, actions, a);
  }

  // ---- Orderly runs ----

  /** With issued ids only, the audience of a message is what the agents' own subscriptions say. */
  lemma RoutedIsMeant(b: Bus, actions: seq<Action>, m: Message, a: string)
    requires TenantsFit(b, actions) && MembersFit(b, actions) && Inverse(b)
    ensures RoutedTo(b, m, a) <==> MeantFor(actions, m, a)
  {
    assert MemberFits(b, actions, a, m.workflow);
    assert Joined(b, a, m.workflow) <==> a in Lookup(b.members, m.workflow);
  }

  lemma RoutedStep(s: System, init: seq<Action>, x: Action, actions: seq<Action>, a: string)
    requires TenantsFit(s.bus, init) && MembersFit(s.bus, init) && QueuesFit(s.bus, init)
    requires Inverse(s.bus) && DeliveryInv(s) && Extends(actions, init, x)
    requires a in s.routed ==> s.routed[a] == SentTo(init, a)
    ensures a in Apply(s, x).routed ==> Apply(s, x).routed[a] == SentTo(actions, a)
  {
    match x
    case Send(m, ackId) =>
      RoutedIsMeant(s.bus, init, m, a);
      StampIsAck(m, ackId);
    case Join(agent, w, t) => assert QueueFits(s.bus, a, SentTo(init, a), Taken(init, a));
    case _ =>
  }

  lemma {:induction false} RoutedFromHistory(actions: seq<Action>)
    requires OrderlyRun(actions)
    ensures forall a :: a in After(actions).routed ==> After(actions).routed[a] == SentTo(actions, a)
  {
    if actions != [] {
      var init, x := actions[..|actions| - 1], actions[|actions| - 1];
      RunPrefix(actions, |actions| - 1);
      RoutedFromHistory(init);
      RunInvariants(init);
      BusFromHistory(init);
      forall a | a in After(actions).routed ensures After(actions).routed[a] == SentTo(actions, a) {
        RoutedStep(After(init), init, x, actions, a);
      }
    }
  }

  /**
   * Over every run in which agents join issued ids only and message ids are fresh: the membership maps are inverse, the
   * dictionaries have the same owners, queued ids are distinct, and what each agent has received is the part it took of
   * what was sent to it, as the actions alone say.
   */
  lemma OrderlyRunExact(actions: seq<Action>, a: string)
    requires OrderlyRun(actions)
    ensures MembershipInv(After(actions).bus) && IdInv(After(actions))
    ensures a in After(actions).bus.queues <==> TenantSince(actions, a).Some?
    ensures Taken(actions, a) <= |SentTo(actions, a)|
    ensures a in After(actions).bus.queues ==>
      && a in After(actions).received && After(actions).received[a] == SentTo(actions, a)[..Taken(actions, a)]
      && After(actions).bus.queues[a] == SentTo(actions, a)[Taken(actions, a)..]
  {
    RunInvariants(actions);
    BusFromHistory(actions);
    RoutedFromHistory(actions);
    var s, sent, n := After(actions), SentTo(actions, a), Taken(actions, a);
    assert QueueFits(s.bus, a, sent, n);
    if a in s.bus.queues {
      assert s.received[a] + s.bus.queues[a] == s.routed[a] == sent;
      PrefixOf(s.received[a], s.bus.queues[a], sent, n);
    }
  }

  lemma PrefixOf(received: seq<Message>, queue: seq<Message>, sent: seq<Message>, n: nat)
    requires received + queue == sent && n <= |sent| && queue == sent[n..]
    ensures received == sent[..n]
  {
    assert |received| == n;
    assert (received + queue)[..n] == received;
  }
}
