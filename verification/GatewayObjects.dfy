/** The mutable objects behind the gateway: registry and event hub (youmi/gateway/registry.py, events.py). */
module GatewayObjects {
  import opened Common
  import opened GatewayModel

  class TaskRecord {
    const taskId: string
    var data: Record  // workers update this in place while the registry holds the object

    constructor (taskId: string)
      ensures this.taskId == taskId && data == Record(Queued, "", "", "")
    {
      this.taskId := taskId;
      data := Record(Queued, "", "", "");
    }
  }

  ghost function FinishedOf(records: map<string, TaskRecord>): set<string>
    reads records.Values
  {
    set id | id in records && records[id].data.status.Finished()
  }

  class TaskRegistry {
    const max: int
    var order: seq<string>
    var records: map<string, TaskRecord>

    constructor (max: int)
      ensures Valid() && this.max == max && order == []
    {
      this.max := max;
      order, records := [], map[];
    }

    ghost predicate Valid()
      reads this
    {
      && Keys(order, records)
      && (forall id :: id in records ==> records[id].taskId == id)
    }

    /** Store a record; whether others are finished is read from the shared objects at this very moment. */
    method Put(record: TaskRecord)
      requires Valid()
      modifies this
      ensures Valid()
      ensures order == PutOrder(old(order), FinishedOf(old(records)[record.taskId := record]), max, record.taskId)
      ensures Submap(records, old(records)[record.taskId := record])
    {
      var id := record.taskId;
      if id !in records {
        NoDuplicatesAppend(order, id);
        order := order + [id];
      }
      records := records[id := record];
      EvictIfNeeded();
    }

    method EvictIfNeeded()
      requires Valid()
      modifies this
      ensures Valid()
      ensures order == if max <= 0 || |old(order)| <= max then old(order)
                       else Evict(old(order), FinishedOf(old(records)), |old(order)| - max)
      ensures Submap(records, old(records))
    {
      if max <= 0 || |order| <= max {
        return;
      }
      var keys := order;
      order := [];
      EvictKeys(keys, |keys| - max);
    }

    method EvictKeys(keys: seq<string>, excess: int)
      requires Keys(keys, records)
      requires forall id :: id in records ==> records[id].taskId == id
      modifies this
      ensures Valid() && order == Evict(keys, FinishedOf(old(records)), excess)
      ensures Submap(records, old(records))
    {
      ghost var all, fin := records, FinishedOf(records);
      ghost var target := EvictStart(keys, fin, excess);
      var rest, overflow, kept: seq<string> := keys, excess, [];
      while rest != [] && overflow > 0
        invariant Evicting(kept, rest, all, records, fin, overflow, target)
      {
        var id, next, remaining := rest[0], rest[1..], overflow - 1;
        ghost var left := records;
        EvictStep(kept, rest, id, next, all, left, fin, overflow, remaining, target);
        if records[id].data.status.Finished() {
          assert id in fin;
          records := records - {id};
          overflow := remaining;
        } else {
          assert id !in fin;
          kept := kept + [id];
        }
        rest := next;
      }
      EvictEnd(kept, rest, all, records, fin, overflow, target);
      order := kept + rest;
    }
  }

  ghost predicate Submap(m: map<string, TaskRecord>, n: map<string, TaskRecord>) {
    forall id :: id in m ==> id in n && m[id] == n[id]
  }

  ghost predicate Keys(order: seq<string>, records: map<string, TaskRecord>) {
    NoDuplicates(order) && forall id :: id in order <==> id in records
  }

  /** The eviction loop: keys kept so far, keys still to visit, and the order it will end with. */
  ghost predicate Evicting(kept: seq<string>, rest: seq<string>,
                           all: map<string, TaskRecord>, left: map<string, TaskRecord>,
                           fin: set<string>, overflow: int, target: seq<string>) {
    && Keys(kept + rest, left) && Submap(left, all)
    && kept + Evict(rest, fin, overflow) == target
  }

  lemma EvictStart(keys: seq<string>, fin: set<string>, excess: int) returns (target: seq<string>)
    ensures target == Evict(keys, fin, excess) && [] + Evict(keys, fin, excess) == target && [] + keys == keys
  {
    target := Evict(keys, fin, excess);
  }

  lemma EvictEnd(kept: seq<string>, rest: seq<string>, all: map<string, TaskRecord>, left: map<string, TaskRecord>,
                 fin: set<string>, overflow: int, target: seq<string>)
    requires Evicting(kept, rest, all, left, fin, overflow, target) && (rest == [] || overflow <= 0)
    ensures kept + rest == target && Keys(kept + rest, left) && Submap(left, all)
  {
  }

  /** One key of the eviction loop: dropped when finished, otherwise kept in place. */
  lemma EvictStep(kept: seq<string>, rest: seq<string>, id: string, next: seq<string>, all: map<string, TaskRecord>,
                  left: map<string, TaskRecord>, fin: set<string>, overflow: int, remaining: int, target: seq<string>)
    requires Evicting(kept, rest, all, left, fin, overflow, target) && overflow > 0 && remaining == overflow - 1
    requires rest != [] && id == rest[0] && next == rest[1..]
    ensures id in left && id in all && left[id] == all[id]
    ensures id in fin ==> Evicting(kept, next, all, left - {id}, fin, remaining, target)
    ensures id !in fin ==> Evicting(kept + [id], next, all, left, fin, overflow, target)
  {
    assert rest == [id] + next;
    assert (kept + rest)[|kept|] == id;
    DropMiddle(kept, id, next);
    assert kept + rest == (kept + [id]) + next;
  }

  lemma DropMiddle(a: seq<string>, x: string, b: seq<string>)
    requires NoDuplicates(a + ([x] + b))
    ensures NoDuplicates(a + b) && forall y :: y in a + b <==> y in a + ([x] + b) && y != x
  {
    NoDuplicatesSplit(a, [x] + b);
    NoDuplicatesSplit([x], b);
    NoDuplicatesConcat(a, b);
  }

  class EventQueue {
    var items: seq<Option<Event>>

    constructor ()
      ensures items == []
    {
      items := [];
    }
  }

  class TaskEventHub {
    var subscribers: map<string, seq<EventQueue>>
    var closed: set<string>
    ghost var queues: set<EventQueue>  // every queue handed out so far

    constructor ()
      ensures Valid() && View() == Hub(map[], {}, map[]) && queues == {}
    {
      subscribers, closed, queues := map[], {}, {};
    }

    ghost predicate Valid()
      reads this
    {
      && (forall id :: id in subscribers ==> subscribers[id] != [] && NoDuplicates(subscribers[id]))
      && (forall id, q :: id in subscribers && q in subscribers[id] ==> q in queues)
    }

    ghost function View(): Hub<EventQueue>
      reads this, queues
    {
      Hub(subscribers, closed, map q | q in queues :: q.items)
    }

    /** Push one item to each of the given queues. */
    method PushAll(targets: seq<EventQueue>, item: Option<Event>)
      requires NoDuplicates(targets) && forall q :: q in targets ==> q in queues
      modifies queues
      ensures forall q :: q in queues ==> q.items == if q in targets then old(q.items) + [item] else old(q.items)
    {
      for i := 0 to |targets|
        invariant forall q :: q in queues ==>
          q.items == if q in targets[..i] then old(q.items) + [item] else old(q.items)
      {
        assert targets[i] !in targets[..i];
        targets[i].items := targets[i].items + [item];
        assert targets[..i + 1] == targets[..i] + [targets[i]];
      }
      assert targets[..|targets|] == targets;
    }

    method Publish(id: string, e: Event)
      requires Valid()
      modifies queues
      ensures Valid() && View() == HubPublish(old(View()), id, e)
    {
      var targets := if id in subscribers then subscribers[id] else [];
      PushAll(targets, Some(e));
      assert View().queues == Deliver(old(View()), id, Some(e));
    }

    method Close(id: string)
      requires Valid()
      modifies this, queues
      ensures Valid() && View() == HubClose(old(View()), id) && queues == old(queues)
    {
      closed := closed + {id};
      var targets := if id in subscribers then subscribers[id] else [];
      subscribers := subscribers - {id};
      PushAll(targets, None);
      assert View().queues == Deliver(old(View()), id, None);
    }

    /** A closed task gives an empty stream, which needs no queue. */
    method Subscribe(id: string) returns (queue: Option<EventQueue>)
      requires Valid()
      modifies this
      ensures Valid()
      ensures queue.None? <==> id in old(closed)
      ensures queue.None? ==> View() == old(View()) && queues == old(queues)
      ensures queue.Some? ==> fresh(queue.value) && queues == old(queues) + {queue.value}
      ensures queue.Some? ==> View() == HubSubscribe(old(View()), id, queue.value)
    {
      if id in closed {
        return None;
      }
      var q := new EventQueue();
      var subs := if id in subscribers then subscribers[id] else [];
      assert q !in subs;
      NoDuplicatesAppend(subs, q);
      subscribers := subscribers[id := subs + [q]];
      queues := queues + {q};
      return Some(q);
    }

    method Remove(id: string, queue: EventQueue)
      requires Valid()
      modifies this`subscribers
      ensures Valid() && View() == HubRemove(old(View()), id, queue)
    {
      if id !in subscribers {
        return;
      }
      WithoutMembers(subscribers[id], queue);
      var rest := Without(subscribers[id], queue);
      subscribers := if rest == [] then subscribers - {id} else subscribers[id := rest];
    }

    /** One turn of the stream generator: take an item; the end marker also removes the subscription. */
    method Receive(id: string, queue: EventQueue) returns (item: Option<Event>)
      requires Valid() && queue in queues && queue.items != []
      modifies this`subscribers, queue
      ensures Valid() && item == old(queue.items)[0] && queues == old(queues)
      ensures View() == HubReceive(old(View()), id, queue)
    {
      item := queue.items[0];
      queue.items := queue.items[1..];
      if item.None? {
        Remove(id, queue);
      }
    }
  }
}
