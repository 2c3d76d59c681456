/** Runs of the broker: membership, exact per-agent delivery and acknowledgement tracking. */
module BrokerRuns {
  import opened Common
  import opened Broker

  datatype Action =
    | Join(agent: string, workflow: string, tenant: string)
    | Leave(agent: string)
    | Send(message: Message, freshAck: string)
    | Receive(agent: string)
    | ReceiveAll(agent: string)
    | Confirm(agent: string, id: string)
    | NewWorkflow
    | Shutdown

  /** The bus with, per current subscription, what was routed to the agent and what it has received. */
  datatype System = System(
    bus: Bus,
    routed: map<string, seq<Message>>, received: map<string, seq<Message>>,
    sent: set<string>)

  function Initial(): System {
    System(Bus(map[], map[], map[], map[], map[], 0), map[], map[], {})
  }

  /** Who a message is meant for, read off the agent's own subscription. */
  predicate RoutedTo(b: Bus, m: Message, a: string) {
    && a in b.queues && TenantOf(b, a) == m.tenant
    && if m.IsBroadcast() then a != m.from && (m.workflow == "" || m.workflow in Lookup(b.subscriptions, a))
       else m.to == Some(a) && a != ""
  }

  function History(h: map<string, seq<Message>>, a: string): seq<Message> {
    if a in h then h[a] else []
  }

  function Apply(s: System, x: Action): System {
    match x
    case Join(a, w, t) =>
      var first := a !in s.bus.queues;
      s.(bus := Subscribe(s.bus, a, w, t),
         routed := if first then s.routed[a := []] else s.routed,
         received := if first then s.received[a := []] else s.received)
    case Leave(a) => s.(bus := Unsubscribe(s.bus, a), routed := s.routed - {a}, received := s.received - {a})
    case Send(m, ack) =>
      s.(bus := Publish(s.bus, m, ack), sent := s.sent + {m.id},
         routed := map a | a in s.routed ::
           if RoutedTo(s.bus, m, a) then s.routed[a] + [WithAck(m, ack)] else s.routed[a])
    case Receive(a) =>
      s.(bus := Wait(s.bus, a),
         received := match Received(s.bus, a)
           case None => s.received
           case Some(m) => s.received[a := History(s.received, a) + [m]])
    case ReceiveAll(a) =>
      s.(bus := Drain(s.bus, a),
         received :=
           if a in s.bus.queues then s.received[a := History(s.received, a) + s.bus.queues[a]] else s.received)
    case Confirm(a, id) => s.(bus := Ack(s.bus, a, id))
    case NewWorkflow => s.(bus := CreateWorkflow(s.bus))
    case Shutdown => System(CloseBus(s.bus), map[], map[], s.sent)
  }

  ghost predicate Issued(b: Bus, w: string) {
    exists n: nat :: n <= b.counter && w == WorkflowId(n)
  }

  predicate NoColon(id: string) {
    ':' !in id
  }

  /** Agents join issued workflows only and message ids are fresh. */
  ghost predicate Orderly(s: System, x: Action) {
    match x
    case Join(_, w, _) => w == "" || Issued(s.bus, w)
    case Send(m, ack) => m.id !in s.sent && ack != ""
    case _ => true
  }

  // ---- Membership ----

  ghost predicate MembershipInv(b: Bus) {
    && Inverse(b) && SameDomains(b)
    && forall a, w :: Joined(b, a, w) ==> Issued(b, w)
  }

  lemma IssuedKept(b: Bus, c: Bus)
    requires b.counter <= c.counter
    ensures forall w :: Issued(b, w) ==> Issued(c, w)
  {
  }

  lemma NewIdUnissued(b: Bus)
    ensures !Issued(b, WorkflowId(b.counter + 1))
  {
    forall n: nat | n <= b.counter ensures WorkflowId(n) != WorkflowId(b.counter + 1) {
      if WorkflowId(n) == WorkflowId(b.counter + 1) { WorkflowIdsDistinct(n, b.counter + 1); }
    }
  }

  lemma JoinMembership(b: Bus, a: string, w: string, t: string)
    requires MembershipInv(b) && (w == "" || Issued(b, w))
    ensures MembershipInv(Subscribe(b, a, w, t))
  {
    SubscribeKeepsInverse(b, a, w, t);
    var c := Subscribe(b, a, w, t);
    IssuedKept(b, c);
    forall x, v | Joined(c, x, v) ensures Issued(c, v) {
      assert Joined(b, x, v) || v == w;
    }
  }

  lemma LeaveMembership(b: Bus, a: string)
    requires MembershipInv(b)
    ensures MembershipInv(Unsubscribe(b, a))
  {
    UnsubscribeKeepsInverse(b, a);
    var c := Unsubscribe(b, a);
    IssuedKept(b, c);
    forall x, v | Joined(c, x, v) ensures Issued(c, v) {
      assert Joined(b, x, v);
    }
  }

  lemma CreateMembership(b: Bus)
    requires MembershipInv(b)
    ensures MembershipInv(CreateWorkflow(b))
  {
    NewIdUnissued(b);
    CreateKeepsInverseIff(b);
    var c := CreateWorkflow(b);
    IssuedKept(b, c);
    forall x, v | Joined(c, x, v) ensures Issued(c, v) {
      assert Joined(b, x, v);
    }
  }

  /** Operations that leave subscriptions, members, tenants, counter and the queue owners alone. */
  lemma SameMembership(b: Bus, c: Bus)
    requires MembershipInv(b)
    requires c.subscriptions == b.subscriptions && c.members == b.members && c.tenants == b.tenants &&
      c.counter == b.counter
    requires forall a :: a in c.queues <==> a in b.queues
    ensures MembershipInv(c)
  {
    IssuedKept(b, c);
    forall a, w ensures Joined(c, a, w) <==> Joined(b, a, w) {
    }
    forall a, w ensures Joined(c, a, w) <==> a in Lookup(c.members, w) {
      assert Joined(b, a, w) <==> a in Lookup(b.members, w);
    }
  }

  lemma ApplyMembership(s: System, x: Action)
    requires MembershipInv(s.bus) && Orderly(s, x)
    ensures MembershipInv(Apply(s, x).bus)
  {
    match x
    case Join(a, w, t) => JoinMembership(s.bus, a, w, t);
    case Leave(a) => LeaveMembership(s.bus, a);
    case NewWorkflow => CreateMembership(s.bus);
    case Shutdown => CloseMembership(s.bus);
    case Send(m, ack) => SendMembership(s.bus, m, ack);
    case Receive(a) => SameMembership(s.bus, Wait(s.bus, a));
    case ReceiveAll(a) => SameMembership(s.bus, Drain(s.bus, a));
    case Confirm(a, id) => SameMembership(s.bus, Ack(s.bus, a, id));
  }

  lemma SendMembership(b: Bus, m: Message, ack: string)
    requires MembershipInv(b)
    ensures MembershipInv(Publish(b, m, ack))
  {
    SameMembership(b, Publish(b, m, ack));
  }

  lemma CloseMembership(b: Bus)
    ensures MembershipInv(CloseBus(b))
  {
    var c := CloseBus(b);
    assert forall a, w :: !Joined(c, a, w);
  }

  // ---- Delivery ----

  /** Received plus queued is exactly what was routed to the agent, in order. */
  ghost predicate DeliveryInv(s: System) {
    && (forall a :: a in s.bus.queues <==> a in s.routed)
    && (forall a :: a in s.bus.queues <==> a in s.received)
    && forall a :: a in s.bus.queues ==> s.received[a] + s.bus.queues[a] == s.routed[a]
  }

  /** The broker's target list, computed from the member sets, is the intended audience among subscribed agents. */
  lemma TargetsAreRouted(b: Bus, m: Message, a: string)
    requires Inverse(b) && a in b.queues
    ensures a in Targets(b, m) <==> RoutedTo(b, m, a)
  {
    assert Joined(b, a, m.workflow) <==> a in Lookup(b.members, m.workflow);
  }

  lemma SendDelivery(s: System, m: Message, ack: string)
    requires MembershipInv(s.bus) && DeliveryInv(s)
    ensures DeliveryInv(Apply(s, Send(m, ack)))
  {
    var s' := Apply(s, Send(m, ack));
    forall a | a in s'.bus.queues ensures s'.received[a] + s'.bus.queues[a] == s'.routed[a] {
      TargetsAreRouted(s.bus, m, a);
      assert s.received[a] + s.bus.queues[a] == s.routed[a];
      var x := WithAck(m, ack);
      assert s.received[a] + (s.bus.queues[a] + [x]) == (s.received[a] + s.bus.queues[a]) + [x];
    }
  }

  lemma ReceiveDelivery(s: System, a: string)
    requires DeliveryInv(s)
    ensures DeliveryInv(Apply(s, Receive(a)))
  {
    var s' := Apply(s, Receive(a));
    forall x | x in s'.bus.queues ensures s'.received[x] + s'.bus.queues[x] == s'.routed[x] {
      if x == a && Received(s.bus, a).Some? {
        var q := s.bus.queues[a];
        assert q == [q[0]] + q[1..];
        Associative(s.received[a], [q[0]], q[1..]);
      }
    }
  }

  lemma ApplyDelivery(s: System, x: Action)
    requires MembershipInv(s.bus) && DeliveryInv(s)
    ensures DeliveryInv(Apply(s, x))
  {
    match x
    case Send(m, ack) => SendDelivery(s, m, ack);
    case Receive(a) => ReceiveDelivery(s, a);
    case ReceiveAll(a) => ReceiveAllDelivery(s, a);
    case Join(a, w, t) => JoinDelivery(s, a, w, t);
    case _ =>
  }

  lemma ReceiveAllDelivery(s: System, a: string)
    requires DeliveryInv(s)
    ensures DeliveryInv(Apply(s, ReceiveAll(a)))
  {
  }

  lemma JoinDelivery(s: System, a: string, w: string, t: string)
    requires DeliveryInv(s)
    ensures DeliveryInv(Apply(s, Join(a, w, t)))
  {
  }

  // ---- Acknowledgements ----

  lemma KeyInjective(i: string, a: string, j: string, b: string)
    requires NoColon(i) && NoColon(j) && Key(i, a) == Key(j, b)
    ensures i == j && a == b
  {
    var k := Key(i, a);
    assert k[|i|] == ':' && k[|j|] == ':';
    assert (forall x :: 0 <= x < |i| ==> k[x] == i[x]) && forall x :: 0 <= x < |j| ==> k[x] == j[x];
    assert |i| == |j|;
    assert i == k[..|i|] == j;
    assert a == k[|i| + 1..] == b;
  }

  /** The messages queued for an agent have distinct known ids. */
  ghost predicate DistinctIds(queue: seq<Message>, sent: set<string>) {
    && (forall i :: 0 <= i < |queue| ==> queue[i].id in sent)
    && (forall i, j :: 0 <= i < j < |queue| ==> queue[i].id != queue[j].id)
  }

  ghost predicate IdInv(s: System) {
    forall a :: a in s.bus.queues ==> DistinctIds(s.bus.queues[a], s.sent)
  }

  lemma DistinctAppend(queue: seq<Message>, m: Message, sent: set<string>)
    requires DistinctIds(queue, sent) && m.id !in sent
    ensures DistinctIds(queue + [m], sent + {m.id})
  {
  }

  lemma SendIds(s: System, m: Message, ack: string, a: string)
    requires IdInv(s) && m.id !in s.sent && a in s.bus.queues
    ensures DistinctIds(Publish(s.bus, m, ack).queues[a], s.sent + {m.id})
  {
    assert DistinctIds(s.bus.queues[a], s.sent);
    DistinctAppend(s.bus.queues[a], WithAck(m, ack), s.sent);
  }

  lemma ApplyIds(s: System, x: Action)
    requires IdInv(s) && Orderly(s, x)
    ensures IdInv(Apply(s, x))
  {
    match x
    case Send(m, ack) =>
      forall a | a in s.bus.queues ensures DistinctIds(Publish(s.bus, m, ack).queues[a], s.sent + {m.id}) {
        SendIds(s, m, ack, a);
      }
    case _ =>
      assert Apply(s, x).sent == s.sent;
      assert forall a :: a in s.bus.queues ==> DistinctIds(s.bus.queues[a], s.sent);
  }

  /** The queued message still has its own acknowledgement entry. */
  ghost predicate EntryKept(b: Bus, a: string, m: Message) {
    m.NeedsAck() ==> Key(m.id, a) in b.pendingAcks && b.pendingAcks[Key(m.id, a)] == m
  }

  ghost predicate AckInv(b: Bus) {
    forall a, i :: a in b.queues && 0 <= i < |b.queues[a]| ==> EntryKept(b, a, b.queues[a][i])
  }

  /** No queued message that needs an acknowledgement has this key. */
  ghost predicate KeyFree(b: Bus, key: string) {
    forall a, i :: a in b.queues && 0 <= i < |b.queues[a]| && b.queues[a][i].NeedsAck() ==>
      Key(b.queues[a][i].id, a) != key
  }

  /** The guard: a delivery that is tracked and an explicit acknowledgement do not hit the key of a queued message. */
  ghost predicate Harmless(s: System, x: Action) {
    match x
    case Send(m, ack) =>
      WithAck(m, ack).NeedsAck() ==> forall t :: t in Targets(s.bus, m) && t in s.bus.queues ==>
        KeyFree(s.bus, Key(m.id, t))
    case Confirm(a, id) => KeyFree(s.bus, Key(id, a))
    case _ => true
  }

  lemma SendTracked(s: System, m: Message, ack: string, a: string, i: nat)
    requires AckInv(s.bus) && Orderly(s, Send(m, ack)) && Harmless(s, Send(m, ack))
    requires var c := Publish(s.bus, m, ack); a in c.queues && i < |c.queues[a]|
    ensures var c := Publish(s.bus, m, ack); EntryKept(c, a, c.queues[a][i])
  {
    var b, c := s.bus, Publish(s.bus, m, ack);
    if i < |b.queues[a]| {
      assert EntryKept(b, a, b.queues[a][i]) && c.queues[a][i] == b.queues[a][i];
    } else {
      assert c.queues[a][i] == WithAck(m, ack) && a in Targets(b, m);
    }
  }

  /** Removing a key harms exactly the queued messages that have it. */
  lemma AckTracked(b: Bus, key: string)
    requires AckInv(b) && KeyFree(b, key)
    ensures AckInv(b.(pendingAcks := b.pendingAcks - {key}))
  {
    var c := b.(pendingAcks := b.pendingAcks - {key});
    forall a, i | a in c.queues && 0 <= i < |c.queues[a]| ensures EntryKept(c, a, c.queues[a][i]) {
      assert EntryKept(b, a, b.queues[a][i]);
    }
  }

  lemma KeyPrefix(id: string, a: string, b: string)
    requires Key(id, a) == Key(id, b)
    ensures a == b
  {
    assert a == Key(id, a)[|id| + 1..] && b == Key(id, b)[|id| + 1..];
  }

  /** Taking a tracked message off its queue leaves no queued message with its key. */
  lemma HeadKeyFree(s: System, agent: string)
    requires AckInv(s.bus) && IdInv(s) && Received(s.bus, agent).Some? && s.bus.queues[agent][0].NeedsAck()
    ensures var m := s.bus.queues[agent][0];
      KeyFree(s.bus.(queues := s.bus.queues[agent := s.bus.queues[agent][1..]]), Key(m.id, agent))
  {
    var m, b := s.bus.queues[agent][0], s.bus;
    var c := b.(queues := b.queues[agent := b.queues[agent][1..]]);
    assert EntryKept(b, agent, m) && DistinctIds(b.queues[agent], s.sent);
    forall a, i | a in c.queues && 0 <= i < |c.queues[a]| && c.queues[a][i].NeedsAck()
      ensures Key(c.queues[a][i].id, a) != Key(m.id, agent)
    {
      var k := if a == agent then i + 1 else i;
      assert c.queues[a][i] == b.queues[a][k] && EntryKept(b, a, b.queues[a][k]);
      if Key(c.queues[a][i].id, a) == Key(m.id, agent) {
        KeyPrefix(m.id, a, agent);
      }
    }
  }

  lemma ReceiveTracked(s: System, agent: string)
    requires AckInv(s.bus) && IdInv(s)
    ensures AckInv(Wait(s.bus, agent))
  {
    if Received(s.bus, agent).Some? {
      var m, b := s.bus.queues[agent][0], s.bus;
      var c := b.(queues := b.queues[agent := b.queues[agent][1..]]);
      forall a, i | a in c.queues && 0 <= i < |c.queues[a]| ensures EntryKept(c, a, c.queues[a][i]) {
        var k := if a == agent then i + 1 else i;
        assert c.queues[a][i] == b.queues[a][k] && EntryKept(b, a, b.queues[a][k]);
      }
      if m.NeedsAck() {
        HeadKeyFree(s, agent);
        AckTracked(c, Key(m.id, agent));
      }
    }
  }

  lemma HarmlessKeeps(s: System, x: Action)
    requires AckInv(s.bus) && IdInv(s) && Orderly(s, x) && Harmless(s, x)
    ensures AckInv(Apply(s, x).bus)
  {
    match x
    case Send(m, ack) =>
      var c := Publish(s.bus, m, ack);
      forall a, i | a in c.queues && 0 <= i < |c.queues[a]| ensures EntryKept(c, a, c.queues[a][i]) {
        SendTracked(s, m, ack, a, i);
      }
    case Receive(agent) => ReceiveTracked(s, agent);
    case Confirm(agent, id) => AckTracked(s.bus, Key(id, agent));
    case Shutdown =>
    case _ => Untouched(s.bus, Apply(s, x).bus);
  }

  /** Queues only shrink to nothing, appear empty or vanish, and no entry changes. */
  lemma Untouched(b: Bus, c: Bus)
    requires AckInv(b) && c.pendingAcks == b.pendingAcks
    requires forall a :: a in c.queues && c.queues[a] != [] ==> a in b.queues && c.queues[a] == b.queues[a]
    ensures AckInv(c)
  {
    forall a, i | a in c.queues && 0 <= i < |c.queues[a]| ensures EntryKept(c, a, c.queues[a][i]) {
      assert EntryKept(b, a, b.queues[a][i]);
    }
  }

  lemma SendHarms(s: System, m: Message, ack: string)
    requires IdInv(s) && Orderly(s, Send(m, ack)) && !Harmless(s, Send(m, ack))
    ensures !AckInv(Apply(s, Send(m, ack)).bus)
  {
    var b := s.bus;
    var t :| t in Targets(b, m) && t in b.queues && !KeyFree(b, Key(m.id, t));
    var a, i :| a in b.queues && 0 <= i < |b.queues[a]| && b.queues[a][i].NeedsAck() &&
      Key(b.queues[a][i].id, a) == Key(m.id, t);
    assert DistinctIds(b.queues[a], s.sent) && b.queues[a][i].id in s.sent;
    EntryOverwritten(b, WithAck(m, ack), Targets(b, m), t, a, i);
  }

  lemma EntryOverwritten(b: Bus, m: Message, targets: set<string>, t: string, a: string, i: int)
    requires m.NeedsAck() && t in targets && t in b.queues
    requires a in b.queues && 0 <= i < |b.queues[a]| && b.queues[a][i].NeedsAck()
    requires Key(b.queues[a][i].id, a) == Key(m.id, t) && b.queues[a][i].id != m.id
    ensures !AckInv(DeliverAll(b, m, targets))
  {
    var c := DeliverAll(b, m, targets);
    assert t in targets * b.queues.Keys && Key(m.id, t) in AckKeys(m, targets * b.queues.Keys);
    assert c.queues[a][i] == b.queues[a][i] && c.pendingAcks[Key(m.id, t)] == m;
    assert !EntryKept(c, a, c.queues[a][i]);
  }

  lemma ConfirmHarms(s: System, agent: string, id: string)
    requires !Harmless(s, Confirm(agent, id))
    ensures !AckInv(Apply(s, Confirm(agent, id)).bus)
  {
    var b, c := s.bus, Ack(s.bus, agent, id);
    var a, i :| a in b.queues && 0 <= i < |b.queues[a]| && b.queues[a][i].NeedsAck() &&
      Key(b.queues[a][i].id, a) == Key(id, agent);
    assert !EntryKept(c, a, c.queues[a][i]);
  }

  /** With fresh ids a step keeps the entries of all queued messages if and only if it hits none of their keys. */
  lemma EntriesKeptIffHarmless(s: System, x: Action)
    requires AckInv(s.bus) && IdInv(s) && Orderly(s, x)
    ensures AckInv(Apply(s, x).bus) <==> Harmless(s, x)
  {
    if Harmless(s, x) {
      HarmlessKeeps(s, x);
    } else {
      match x
      case Send(m, ack) => SendHarms(s, m, ack);
      case Confirm(agent, id) => ConfirmHarms(s, agent, id);
    }
  }

  // ---- Every orderly run ----

  function After(actions: seq<Action>): System {
    if actions == [] then Initial() else Apply(After(actions[..|actions| - 1]), actions[|actions| - 1])
  }

  ghost predicate OrderlyRun(actions: seq<Action>) {
    forall i :: 0 <= i < |actions| ==> Orderly(After(actions[..i]), actions[i])
  }

  ghost predicate HarmlessRun(actions: seq<Action>) {
    forall i :: 0 <= i < |actions| ==> Harmless(After(actions[..i]), actions[i])
  }

  /** In every state on the way all queued messages have their entries. */
  ghost predicate AlwaysTracked(actions: seq<Action>) {
    forall n :: 0 <= n <= |actions| ==> AckInv(After(actions[..n]).bus)
  }

  lemma RunPrefix(actions: seq<Action>, n: nat)
    requires OrderlyRun(actions) && n <= |actions|
    ensures OrderlyRun(actions[..n])
  {
    var p := actions[..n];
    forall i | 0 <= i < n ensures Orderly(After(p[..i]), p[i]) {
      assert p[..i] == actions[..i];
    }
  }

  lemma {:induction false} RunInvariants(actions: seq<Action>)
    requires OrderlyRun(actions)
    ensures MembershipInv(After(actions).bus) && DeliveryInv(After(actions)) && IdInv(After(actions))
  {
    if actions == [] {
      assert forall a, w :: !Joined(Initial().bus, a, w);
    } else {
      var init, last := actions[..|actions| - 1], actions[|actions| - 1];
      RunPrefix(actions, |actions| - 1);
      RunInvariants(init);
      ApplyMembership(After(init), last);
      ApplyDelivery(After(init), last);
      ApplyIds(After(init), last);
    }
  }

  lemma StepExact(actions: seq<Action>, n: nat, next: nat)
    requires OrderlyRun(actions) && next == n + 1 <= |actions| && AckInv(After(actions[..n]).bus)
    ensures AckInv(After(actions[..next]).bus) <==> Harmless(After(actions[..n]), actions[n])
  {
    RunPrefix(actions, n);
    RunInvariants(actions[..n]);
    AfterStep(actions, n, next);
    EntriesKeptIffHarmless(After(actions[..n]), actions[n]);
  }

  lemma {:induction false} HarmlessTracked(actions: seq<Action>, n: nat)
    requires OrderlyRun(actions) && HarmlessRun(actions) && n <= |actions|
    ensures AckInv(After(actions[..n]).bus)
  {
    if n == 0 {
      assert actions[..0] == [];
    } else {
      var before := n - 1;
      HarmlessTracked(actions, before);
      StepExact(actions, before, n);
    }
  }

  /** Over a whole run every ack-needing queued message keeps its entry if and only if no step hits the key of one. */
  lemma TrackedIffHarmless(actions: seq<Action>)
    requires OrderlyRun(actions)
    ensures AlwaysTracked(actions) <==> HarmlessRun(actions)
  {
    if HarmlessRun(actions) {
      forall n | 0 <= n <= |actions| ensures AckInv(After(actions[..n]).bus) {
        HarmlessTracked(actions, n);
      }
    }
    if AlwaysTracked(actions) {
      forall i | 0 <= i < |actions| ensures Harmless(After(actions[..i]), actions[i]) {
        StepExact(actions, i, i + 1);
      }
    }
  }

  // ---- Ids without a colon ----

  /** Ids without a colon, and nobody acknowledges what is still in the agent's own queue. */
  ghost predicate ColonFree(s: System, x: Action) {
    match x
    case Send(m, _) => NoColon(m.id)
    case Confirm(a, id) =>
      NoColon(id) && (a in s.bus.queues ==> forall i :: 0 <= i < |s.bus.queues[a]| ==> s.bus.queues[a][i].id != id)
    case _ => true
  }

  ghost predicate ColonFreeIds(s: System) {
    forall id :: id in s.sent ==> NoColon(id)
  }

  lemma ColonFreeHarmless(s: System, x: Action)
    requires IdInv(s) && ColonFreeIds(s) && Orderly(s, x) && ColonFree(s, x)
    ensures Harmless(s, x) && ColonFreeIds(Apply(s, x))
  {
    forall a, i, id, t | a in s.bus.queues && 0 <= i < |s.bus.queues[a]| && NoColon(id) &&
      Key(s.bus.queues[a][i].id, a) == Key(id, t)
      ensures s.bus.queues[a][i].id == id && a == t
    {
      assert DistinctIds(s.bus.queues[a], s.sent);
      KeyInjective(s.bus.queues[a][i].id, a, id, t);
    }
    forall a, i | a in s.bus.queues && 0 <= i < |s.bus.queues[a]| ensures s.bus.queues[a][i].id in s.sent {
      assert DistinctIds(s.bus.queues[a], s.sent);
    }
  }

  /** Ids without a colon are safe: then no entry is ever lost. */
  lemma {:induction false} ColonFreeTracked(actions: seq<Action>, n: nat)
    requires OrderlyRun(actions) && n <= |actions|
    requires forall i :: 0 <= i < |actions| ==> ColonFree(After(actions[..i]), actions[i])
    ensures AckInv(After(actions[..n]).bus) && ColonFreeIds(After(actions[..n]))
  {
    if n == 0 {
      assert actions[..0] == [];
    } else {
      var before := n - 1;
      ColonFreeTracked(actions, before);
      RunPrefix(actions, before);
      RunInvariants(actions[..before]);
      assert actions[..n][..before] == actions[..before];
      ColonFreeHarmless(After(actions[..before]), actions[before]);
      StepExact(actions, before, n);
    }
  }

  // ---- Ids with a colon ----

  function Direct(id: string, to: string): Message {
    Message(id, "", "sender", Some(to), Task, "default", "ack", "")
  }

  /** Two direct messages with one key: receiving the second deletes the entry of the first, which is still queued. */
  lemma CollisionLosesEntry(b0: Bus, b1: Bus, b2: Bus, m: Message, n: Message, x: string, y: string)
    requires IsDirect(b0, m, x) && IsDirect(b0, n, y) && x != y && Key(m.id, x) == Key(n.id, y)
    requires b0.queues[x] == [] && b0.queues[y] == [] && b1 == Publish(b0, m, "k") && b2 == Publish(b1, n, "k")
    ensures var c := Wait(b2, y); x in c.queues && c.queues[x] == [m] && !EntryKept(c, x, m)
  {
    DirectDelivery(b0, m, x);
    DirectDelivery(b1, n, y);
    TakesEntry(b2, n, y);
  }

  lemma TakesEntry(b: Bus, n: Message, y: string)
    requires y in b.queues && b.queues[y] == [n] && n.NeedsAck()
    ensures Key(n.id, y) !in Wait(b, y).pendingAcks && Wait(b, y).queues == b.queues[y := []]
  {
  }

  predicate IsDirect(b: Bus, m: Message, to: string) {
    m.to == Some(to) && to != "" && to != "*" && m.ackId != "" && to in b.queues && TenantOf(b, to) == m.tenant
  }

  lemma JoinEffect(s: System, t: System, a: string)
    requires t == Apply(s, Join(a, "", "")) && a !in s.bus.queues
    ensures t.bus.queues == s.bus.queues[a := []] && t.bus.tenants == s.bus.tenants[a := "default"] && t.sent == s.sent
  {
  }

  lemma TwoSubscribers(s1: System, s2: System)
    requires s1 == Apply(Initial(), Join("x", "", "")) && s2 == Apply(s1, Join("b:x", "", ""))
    ensures s2.sent == {} && "x" in s2.bus.queues && s2.bus.queues["x"] == [] && TenantOf(s2.bus, "x") == "default"
    ensures "b:x" in s2.bus.queues && s2.bus.queues["b:x"] == [] && TenantOf(s2.bus, "b:x") == "default"
  {
    JoinEffect(Initial(), s1, "x");
    JoinEffect(s1, s2, "b:x");
  }

  lemma SendEffect(s: System, t: System, m: Message)
    requires t == Apply(s, Send(m, "k"))
    ensures t.bus == Publish(s.bus, m, "k") && t.sent == s.sent + {m.id}
  {
  }

  lemma ReceiveEffect(s: System, t: System, a: string)
    requires t == Apply(s, Receive(a))
    ensures t.bus == Wait(s.bus, a)
  {
  }

  lemma KeyClash()
    ensures Key("a:b", "x") == Key("a", "b:x")
  {
    assert Key("a:b", "x") == ['a', ':', 'b', ':', 'x'] == Key("a", "b:x");
  }

  /**
   * Fresh ids alone do not suffice: the message "a:b" for "x" and the message "a" for "b:x" are tracked under the same
   * key, and after these steps, all of them orderly, the first is queued without its entry.
   */
  lemma ColonLosesEntry(m: Message, n: Message, s1: System, s2: System, s3: System, s4: System, s5: System)
    requires m == Direct("a:b", "x") && n == Direct("a", "b:x")
    requires s1 == Apply(Initial(), Join("x", "", "")) && s2 == Apply(s1, Join("b:x", "", ""))
    requires s3 == Apply(s2, Send(m, "k")) && s4 == Apply(s3, Send(n, "k")) && s5 == Apply(s4, Receive("b:x"))
    ensures Orderly(s2, Send(m, "k")) && Orderly(s3, Send(n, "k"))
    ensures "x" in s5.bus.queues && s5.bus.queues["x"] == [m] && !EntryKept(s5.bus, "x", m)
  {
    TwoSubscribers(s1, s2);
    SendEffect(s2, s3, m);
    SendEffect(s3, s4, n);
    ReceiveEffect(s4, s5, "b:x");
    assert m.id != n.id;
    KeyClash();
    CollisionLosesEntry(s2.bus, s3.bus, s4.bus, m, n, "x", "b:x");
  }

  /** The same as a run. */
  lemma ColonRunLosesEntry(run: seq<Action>, m: Message, n: Message)
    requires m == Direct("a:b", "x") && n == Direct("a", "b:x") && |run| == 5
    requires run[0] == Join("x", "", "") && run[1] == Join("b:x", "", "")
    requires run[2] == Send(m, "k") && run[3] == Send(n, "k") && run[4] == Receive("b:x")
    ensures OrderlyRun(run)
    ensures var c := After(run).bus; "x" in c.queues && c.queues["x"] == [m] && !EntryKept(c, "x", m)
  {
    assert run[..0] == [] && run[..5] == run;
    AfterStep(run, 0, 1);
    AfterStep(run, 1, 2);
    AfterStep(run, 2, 3);
    AfterStep(run, 3, 4);
    AfterStep(run, 4, 5);
    ColonLosesEntry(m, n, After(run[..1]), After(run[..2]), After(run[..3]), After(run[..4]), After(run));
    JoinOrderly(After(run[..0]), "x");
    JoinOrderly(After(run[..1]), "b:x");
    FiveOrderly(run, After(run[..0]), After(run[..1]), After(run[..2]), After(run[..3]), After(run[..4]));
  }

  lemma JoinOrderly(s: System, a: string)
    ensures Orderly(s, Join(a, "", ""))
  {
  }

  lemma FiveOrderly(run: seq<Action>, s0: System, s1: System, s2: System, s3: System, s4: System)
    requires |run| == 5 && s0 == After(run[..0]) && s1 == After(run[..1]) && s2 == After(run[..2])
    requires s3 == After(run[..3]) && s4 == After(run[..4]) && run[4].Receive?
    requires Orderly(s0, run[0]) && Orderly(s1, run[1]) && Orderly(s2, run[2]) && Orderly(s3, run[3])
    ensures OrderlyRun(run)
  {
    forall i | 0 <= i < |run| ensures Orderly(After(run[..i]), run[i]) {
      assert i == 0 || i == 1 || i == 2 || i == 3 || i == 4;
    }
  }

  lemma AfterStep(actions: seq<Action>, i: nat, next: nat)
    requires next == i + 1 <= |actions|
    ensures After(actions[..next]) == Apply(After(actions[..i]), actions[i])
  {
    assert actions[..next][..i] == actions[..i];
  }

  lemma DirectDelivery(b: Bus, m: Message, to: string)
    requires IsDirect(b, m, to)
    ensures var c := Publish(b, m, "k");
      && c.queues == b.queues[to := b.queues[to] + [m]] && c.tenants == b.tenants
  {
    assert Targets(b, m) == {to};
  }
}
