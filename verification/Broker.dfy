/**
 * The in-process message broker: membership, tenant-filtered routing, queues and acknowledgements
 * (youmi/bus/broker.py).
 */
module Broker {
  import opened Common
  import Decimal

  datatype MessageType = Task | Feedback | StatusUpdate | Query | ToolRequest | ToolResponse {
    predicate WritesToMemory() {
      this == Task || this == Feedback
    }
  }

  datatype Message = Message(
    id: string, workflow: string, from: string, to: Option<string>, kind: MessageType, tenant: string, ackId: string,
    content: string)
  {
    predicate IsBroadcast() {
      to.None? || to.value == "*"
    }

    predicate NeedsAck() {
      ackId != ""
    }
  }

  datatype Bus = Bus(
    queues: map<string, seq<Message>>,
    subscriptions: map<string, set<string>>,   // agent -> workflows
    members: map<string, set<string>>,         // workflow -> agents
    tenants: map<string, string>,
    pendingAcks: map<string, Message>,
    counter: nat)

  function Lookup(m: map<string, set<string>>, k: string): set<string> {
    if k in m then m[k] else {}
  }

  function OrDefault(tenant: string): string {
    if tenant == "" then "default" else tenant
  }

  // ---- Operations ----

  function Subscribe(b: Bus, agent: string, workflow: string, tenant: string): Bus {
    var b1 := b.(
      queues := if agent in b.queues then b.queues else b.queues[agent := []],
      subscriptions :=
        b.subscriptions[agent := Lookup(b.subscriptions, agent) + if workflow == "" then {} else {workflow}],
      tenants := b.tenants[agent := OrDefault(tenant)]);
    if workflow == "" then b1
    else b1.(members := b.members[workflow := Lookup(b.members, workflow) + {agent}])
  }

  /** Leaving every workflow removes those left without members. */
  function Unsubscribe(b: Bus, agent: string): Bus {
    var wfs := Lookup(b.subscriptions, agent);
    b.(members := map w | w in b.members && (w in wfs ==> b.members[w] - {agent} != {}) ::
         if w in wfs then b.members[w] - {agent} else b.members[w],
       subscriptions := b.subscriptions - {agent}, queues := b.queues - {agent}, tenants := b.tenants - {agent})
  }

  function Candidates(b: Bus, m: Message): set<string> {
    if m.IsBroadcast() then (if m.workflow != "" then Lookup(b.members, m.workflow) else b.queues.Keys) - {m.from}
    else if m.to.value != "" then {m.to.value} else {}
  }

  function TenantOf(b: Bus, agent: string): string {
    if agent in b.tenants then b.tenants[agent] else "default"
  }

  function Targets(b: Bus, m: Message): set<string> {
    set a | a in Candidates(b, m) && TenantOf(b, a) == m.tenant
  }

  function WithAck(m: Message, freshAck: string): Message {
    if m.kind.WritesToMemory() && m.ackId == "" then m.(ackId := freshAck) else m
  }

  function Key(id: string, agent: string): string {
    id + ":" + agent
  }

  function DeliverTo(b: Bus, m: Message, agent: string): Bus {
    if agent !in b.queues then b
    else
      b.(queues := b.queues[agent := b.queues[agent] + [m]],
         pendingAcks := if m.NeedsAck() then b.pendingAcks[Key(m.id, agent) := m] else b.pendingAcks)
  }

  function Extended(queues: map<string, seq<Message>>, m: Message, targets: set<string>): map<string, seq<Message>> {
    map a | a in queues :: if a in targets then queues[a] + [m] else queues[a]
  }

  function Tracked(acks: map<string, Message>, m: Message, targets: set<string>): map<string, Message> {
    if m.NeedsAck() then acks + map k | k in AckKeys(m, targets) :: m else acks
  }

  function AckKeys(m: Message, targets: set<string>): set<string> {
    set a | a in targets :: Key(m.id, a)
  }

  /** Every target with a queue gets the message at its end; acknowledgements are tracked per target. */
  function DeliverAll(b: Bus, m: Message, targets: set<string>): Bus {
    b.(queues := Extended(b.queues, m, targets), pendingAcks := Tracked(b.pendingAcks, m, targets * b.queues.Keys))
  }

  function Publish(b: Bus, m: Message, freshAck: string): Bus {
    DeliverAll(b, WithAck(m, freshAck), Targets(b, m))
  }

  function Ack(b: Bus, agent: string, id: string): Bus {
    b.(pendingAcks := b.pendingAcks - {Key(id, agent)})
  }

  function Received(b: Bus, agent: string): Option<Message> {
    if agent in b.queues && b.queues[agent] != [] then Some(b.queues[agent][0]) else None
  }

  /** wait_for_message: the head of the queue, acknowledged at once; an unknown agent or a timeout changes nothing. */
  function Wait(b: Bus, agent: string): Bus {
    match Received(b, agent)
    case None => b
    case Some(m) =>
      var b1 := b.(queues := b.queues[agent := b.queues[agent][1..]]);
      if m.NeedsAck() then Ack(b1, agent, m.id) else b1
  }

  /** pending_messages: everything queued, without acknowledging. */
  function Drain(b: Bus, agent: string): Bus {
    if agent in b.queues then b.(queues := b.queues[agent := []]) else b
  }

  function WorkflowId(n: nat): string {
    "wf-" + Decimal.Pad(Decimal.Print(n), 4)
  }

  function CreateWorkflow(b: Bus): Bus {
    b.(counter := b.counter + 1, members := b.members[WorkflowId(b.counter + 1) := {}])
  }

  function CloseBus(b: Bus): Bus {
    Bus(map[], map[], map[], map[], map[], b.counter)
  }

  // ---- Membership ----

  ghost predicate Joined(b: Bus, agent: string, w: string) {
    w in Lookup(b.subscriptions, agent)
  }

  /** Subscriptions and workflow members are the same relation. */
  ghost predicate Inverse(b: Bus) {
    forall a, w :: Joined(b, a, w) <==> a in Lookup(b.members, w)
  }

  ghost predicate SameDomains(b: Bus) {
    && (forall a :: a in b.queues <==> a in b.subscriptions)
    && (forall a :: a in b.queues <==> a in b.tenants)
  }

  ghost predicate NobodyJoined(b: Bus, w: string) {
    forall a :: !Joined(b, a, w)
  }

  lemma WorkflowIdsDistinct(m: nat, n: nat)
    requires WorkflowId(m) == WorkflowId(n)
    ensures m == n
  {
    Decimal.PrintValue(m);
    Decimal.PrintValue(n);
    Decimal.PadValue(Decimal.Print(m), 4);
    Decimal.PadValue(Decimal.Print(n), 4);
    assert WorkflowId(m)[3..] == Decimal.Pad(Decimal.Print(m), 4);
    assert WorkflowId(n)[3..] == Decimal.Pad(Decimal.Print(n), 4);
  }

  lemma SubscribeKeepsInverse(b: Bus, agent: string, workflow: string, tenant: string)
    requires Inverse(b)
    ensures Inverse(Subscribe(b, agent, workflow, tenant))
  {
    var b' := Subscribe(b, agent, workflow, tenant);
    forall a, w ensures Joined(b', a, w) <==> a in Lookup(b'.members, w) {
      assert Joined(b, a, w) <==> a in Lookup(b.members, w);
    }
  }

  lemma UnsubscribeKeepsInverse(b: Bus, agent: string)
    requires Inverse(b)
    ensures Inverse(Unsubscribe(b, agent))
  {
    var b' := Unsubscribe(b, agent);
    forall a, w ensures Joined(b', a, w) <==> a in Lookup(b'.members, w) {
      assert Joined(b, a, w) <==> a in Lookup(b.members, w);
      assert Joined(b, agent, w) <==> agent in Lookup(b.members, w);
      assert a in Lookup(b'.members, w) <==> a in Lookup(b.members, w) && a != agent;
    }
  }

  /**
   * Issuing an id empties its member set, so it keeps the two maps inverse exactly when nobody has joined the id
   * before it was issued.
   */
  lemma CreateKeepsInverseIff(b: Bus)
    requires Inverse(b)
    ensures Inverse(CreateWorkflow(b)) <==> NobodyJoined(b, WorkflowId(b.counter + 1))
  {
    var id, b' := WorkflowId(b.counter + 1), CreateWorkflow(b);
    if NobodyJoined(b, id) {
      forall a, w ensures Joined(b', a, w) <==> a in Lookup(b'.members, w) {
        assert Joined(b, a, w) <==> a in Lookup(b.members, w);
        assert Joined(b', a, w) <==> Joined(b, a, w);
      }
    } else {
      var a :| Joined(b, a, id);
      assert Joined(b', a, id) && a !in Lookup(b'.members, id);
    }
  }

  /** A run in which an agent joins an id before it is issued: afterwards it is subscribed but not a member. */
  lemma JoiningAheadBreaksInverse()
    ensures var b := Subscribe(Bus(map[], map[], map[], map[], map[], 0), "a", WorkflowId(1), "");
      Inverse(b) && !Inverse(CreateWorkflow(b))
  {
    var b0 := Bus(map[], map[], map[], map[], map[], 0);
    assert Inverse(b0);
    SubscribeKeepsInverse(b0, "a", WorkflowId(1), "");
    var b := Subscribe(b0, "a", WorkflowId(1), "");
    assert Joined(b, "a", WorkflowId(1)) by { assert WorkflowId(1) != "" by { assert WorkflowId(1)[0] == 'w'; } }
    CreateKeepsInverseIff(b);
  }
}
