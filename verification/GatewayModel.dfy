/** Task records, snapshots and the pure meaning of the registry and the event hub (youmi/gateway). */
module GatewayModel {
  import opened Common

  datatype TaskStatus = Queued | Running | Completed | Failed | Cancelled {
    predicate Finished() {
      this in {Completed, Failed, Cancelled}
    }
  }

  /** The fields of a task record that change while it is processed. */
  datatype Record = Record(status: TaskStatus, result: string, error: string, worker: string)

  datatype TaskOutcome = TaskOutcome(output: string, error: string) {
    predicate Success() {
      error == ""
    }
  }

  /** A task_update event: a full snapshot of the record. */
  datatype Event = Event(taskId: string, snapshot: Record)

  // ---- Registry: an insertion-ordered dictionary with bounded retention ----

  /** Walk from the oldest key, dropping finished records until the overflow is gone. */
  function Evict(order: seq<string>, finished: set<string>, overflow: int): seq<string> {
    if order == [] || overflow <= 0 then order
    else if order[0] in finished then Evict(order[1..], finished, overflow - 1)
    else [order[0]] + Evict(order[1..], finished, overflow)
  }

  function Inserted(order: seq<string>, id: string): seq<string> {
    if id in order then order else order + [id]
  }

  function PutOrder(order: seq<string>, finished: set<string>, max: int, id: string): seq<string> {
    var o := Inserted(order, id);
    if max <= 0 || |o| <= max then o else Evict(o, finished, |o| - max)
  }

  function CountFinished(order: seq<string>, finished: set<string>): nat {
    if order == [] then 0
    else CountFinished(order[1..], finished) + if order[0] in finished then 1 else 0
  }

  function Unfinished(order: seq<string>, finished: set<string>): seq<string> {
    if order == [] then []
    else (if order[0] in finished then [] else [order[0]]) + Unfinished(order[1..], finished)
  }

  /**
   * What eviction does: there is a cut before which exactly the finished records are gone and after which nothing is
   * touched, and it removes as many finished records as the overflow asks for, if there are so many.
   */
  lemma {:induction false} EvictOldestFinished(order: seq<string>, finished: set<string>, overflow: int)
    returns (cut: nat)
    ensures cut <= |order|
    ensures Evict(order, finished, overflow) == Unfinished(order[..cut], finished) + order[cut..]
    ensures CountFinished(order[..cut], finished) ==
      if overflow <= 0 then 0
      else if overflow < CountFinished(order, finished) then overflow
      else CountFinished(order, finished)
    ensures |Evict(order, finished, overflow)| == |order| - CountFinished(order[..cut], finished)
  {
    if order == [] || overflow <= 0 {
      cut := 0;
      assert order[..0] == [] && order[0..] == order;
    } else {
      var head, rest := order[0], order[1..];
      var remaining := if head in finished then overflow - 1 else overflow;
      var sub := EvictOldestFinished(rest, finished, remaining);
      cut := sub + 1;
      CutBehindHead(order, finished, sub, cut);
    }
  }

  lemma CutBehindHead(order: seq<string>, finished: set<string>, sub: nat, cut: nat)
    requires order != [] && cut == sub + 1 <= |order|
    ensures CountFinished(order[..cut], finished) ==
      CountFinished(order[1..][..sub], finished) + if order[0] in finished then 1 else 0
    ensures Unfinished(order[..cut], finished) ==
      (if order[0] in finished then [] else [order[0]]) + Unfinished(order[1..][..sub], finished)
    ensures order[cut..] == order[1..][sub..]
  {
    assert order[..cut][1..] == order[1..][..sub];
  }

  /** Retention bound: after a put the registry is within its maximum or holds unfinished records only. */
  lemma PutBounded(order: seq<string>, finished: set<string>, max: int, id: string)
    requires max > 0
    ensures var o := PutOrder(order, finished, max, id);
      |o| <= max || (forall x :: x in o ==> x !in finished)
  {
    var o := Inserted(order, id);
    if |o| > max {
      var cut := EvictOldestFinished(o, finished, |o| - max);
      if |o| - max > CountFinished(o, finished) {
        EvictAll(o, finished, |o| - max);
      }
    }
  }

  /**
   * A put exactly: a new key goes last, an old one keeps its place, and of the oldest finished records as many are
   * dropped as the registry is too long, or all there are.
   */
  lemma PutExact(order: seq<string>, finished: set<string>, max: int, id: string) returns (cut: nat)
    ensures var all := if id in order then order else order + [id];
      var overflow := if max <= 0 || |all| <= max then 0 else |all| - max;
      && cut <= |all|
      && PutOrder(order, finished, max, id) == Unfinished(all[..cut], finished) + all[cut..]
      && CountFinished(all[..cut], finished) ==
           (if overflow < CountFinished(all, finished) then overflow else CountFinished(all, finished))
  {
    var all := if id in order then order else order + [id];
    cut := EvictOldestFinished(all, finished, if max <= 0 || |all| <= max then 0 else |all| - max);
  }

  lemma {:induction false} EvictAll(order: seq<string>, finished: set<string>, overflow: int)
    requires overflow > CountFinished(order, finished)
    ensures forall x :: x in Evict(order, finished, overflow) ==> x !in finished
  {
    if order != [] {
      EvictAll(order[1..], finished, if order[0] in finished then overflow - 1 else overflow);
    }
  }

  /** Nothing unfinished is evicted and nothing appears. */
  lemma {:induction false} EvictMembers(order: seq<string>, finished: set<string>, overflow: int)
    ensures forall x :: x in Evict(order, finished, overflow) ==> x in order
    ensures forall x :: x in order && x !in finished ==> x in Evict(order, finished, overflow)
  {
    if order != [] && overflow > 0 {
      EvictMembers(order[1..], finished, if order[0] in finished then overflow - 1 else overflow);
    }
  }

  /** The elements of a occur in b in the same order. */
  predicate Subsequence(a: seq<string>, b: seq<string>) {
    if a == [] then true
    else if b == [] then false
    else if a[0] == b[0] && Subsequence(a[1..], b[1..]) then true
    else Subsequence(a, b[1..])
  }

  lemma {:induction false} SubsequenceReflexive(a: seq<string>)
    ensures Subsequence(a, a)
  {
    if a != [] { SubsequenceReflexive(a[1..]); }
  }

  lemma {:induction false} SubsequenceTransitive(a: seq<string>, b: seq<string>, c: seq<string>)
    requires Subsequence(a, b) && Subsequence(b, c)
    ensures Subsequence(a, c)
    decreases |a| + |b| + |c|
  {
    if a != [] {
      if b[0] == c[0] && Subsequence(b[1..], c[1..]) {
        if a[0] == b[0] && Subsequence(a[1..], b[1..]) {
          SubsequenceTransitive(a[1..], b[1..], c[1..]);
        } else {
          SubsequenceTransitive(a, b[1..], c[1..]);
        }
      } else {
        SubsequenceTransitive(a, b, c[1..]);
      }
    }
  }

  lemma {:induction false} SubsequenceAppend(a: seq<string>, b: seq<string>, x: string)
    requires Subsequence(a, b)
    ensures Subsequence(a, b + [x]) && Subsequence(a + [x], b + [x])
  {
    if b == [] {
      assert a + [x] == [x];
    } else {
      assert (b + [x])[1..] == b[1..] + [x];
      if a == [] {
        SubsequenceAppend(a, b[1..], x);
      } else {
        assert (a + [x])[1..] == a[1..] + [x];
        if a[0] == b[0] && Subsequence(a[1..], b[1..]) {
          SubsequenceAppend(a[1..], b[1..], x);
        } else {
          SubsequenceAppend(a, b[1..], x);
        }
      }
    }
  }

  lemma {:induction false} EvictSubsequence(order: seq<string>, finished: set<string>, overflow: int)
    ensures Subsequence(Evict(order, finished, overflow), order)
  {
    if order == [] || overflow <= 0 {
      SubsequenceReflexive(order);
    } else {
      EvictSubsequence(order[1..], finished, if order[0] in finished then overflow - 1 else overflow);
    }
  }

  lemma {:induction false} SubsequenceDistinct(a: seq<string>, b: seq<string>)
    requires Subsequence(a, b) && NoDuplicates(b)
    ensures NoDuplicates(a) && forall x :: x in a ==> x in b
  {
    if a != [] {
      NoDuplicatesSplit([b[0]], b[1..]);
      assert [b[0]] + b[1..] == b;
      if a[0] == b[0] && Subsequence(a[1..], b[1..]) {
        SubsequenceDistinct(a[1..], b[1..]);
        NoDuplicatesConcat([a[0]], a[1..]);
        assert [a[0]] + a[1..] == a;
      } else {
        SubsequenceDistinct(a, b[1..]);
      }
    }
  }

  // ---- Event hub ----

  /** Subscriber queues per task, the closed tasks, and what each queue holds; None is the end marker. */
  datatype Hub<Q(==)> = Hub(subs: map<string, seq<Q>>, closed: set<string>, queues: map<Q, seq<Option<Event>>>)

  function Subscribers<Q>(h: Hub<Q>, id: string): seq<Q> {
    if id in h.subs then h.subs[id] else []
  }

  function Deliver<Q>(h: Hub<Q>, id: string, item: Option<Event>): map<Q, seq<Option<Event>>> {
    map q | q in h.queues :: if q in Subscribers(h, id) then h.queues[q] + [item] else h.queues[q]
  }

  function HubPublish<Q>(h: Hub<Q>, id: string, e: Event): Hub<Q> {
    h.(queues := Deliver(h, id, Some(e)))
  }

  function HubClose<Q>(h: Hub<Q>, id: string): Hub<Q> {
    Hub(h.subs - {id}, h.closed + {id}, Deliver(h, id, None))
  }

  /** A subscription to an open task; a closed task yields an empty stream and no queue. */
  function HubSubscribe<Q>(h: Hub<Q>, id: string, q: Q): Hub<Q> {
    Hub(h.subs[id := Subscribers(h, id) + [q]], h.closed, h.queues[q := []])
  }

  function Without<Q(==)>(s: seq<Q>, q: Q): seq<Q> {
    if s == [] then [] else if s[0] == q then s[1..] else [s[0]] + Without(s[1..], q)
  }

  function HubRemove<Q>(h: Hub<Q>, id: string, q: Q): Hub<Q> {
    if id !in h.subs then h
    else
      var rest := Without(h.subs[id], q);
      h.(subs := if rest == [] then h.subs - {id} else h.subs[id := rest])
  }

  /** One queue.get: the consumer takes the head, and the end marker also drops the subscription. */
  function HubReceive<Q>(h: Hub<Q>, id: string, q: Q): Hub<Q>
    requires q in h.queues && h.queues[q] != []
  {
    var h' := h.(queues := h.queues[q := h.queues[q][1..]]);
    if h.queues[q][0].None? then HubRemove(h', id, q) else h'
  }

  lemma {:induction false} WithoutMembers<Q>(s: seq<Q>, q: Q)
    requires NoDuplicates(s)
    ensures NoDuplicates(Without(s, q))
    ensures forall x :: x in Without(s, q) <==> x in s && x != q
  {
    if s != [] {
      assert s == [s[0]] + s[1..];
      NoDuplicatesSplit([s[0]], s[1..]);
      if s[0] != q {
        WithoutMembers(s[1..], q);
        NoDuplicatesConcat([s[0]], Without(s[1..], q));
      }
    }
  }
}
