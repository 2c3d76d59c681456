/**
 * Plan memory: the two vector searches, which must agree, and the upsert by task fingerprint
 * (youmi/coordinator/plan_memory.py).
 */
module PlanSearch {
  import opened Common
  import opened Sorting

  /** A stored plan with its embedding; plan is None when the stored text no longer parses. */
  datatype Row = Row(plan: Option<string>, success: bool, vector: seq<real>, norm: real)

  datatype Hit = Hit(plan: string, score: real)

  // ---- Scoring, stable sorting and cutting ----

  function HitOf(row: Row, threshold: real, score: Row -> real): seq<Hit> {
    if row.success && score(row) >= threshold && row.plan.Some? then [Hit(row.plan.value, score(row))] else []
  }

  function Hits(rows: seq<Row>, threshold: real, score: Row -> real): seq<Hit> {
    if rows == [] then [] else Hits(rows[..|rows| - 1], threshold, score) + HitOf(rows[|rows| - 1], threshold, score)
  }

  function Loss(h: Hit): real {
    -h.score
  }

  function Ranked(rows: seq<Row>, threshold: real, score: Row -> real, topK: nat): seq<Hit> {
    Prefix(Sort(Hits(rows, threshold, score), Loss), topK)
  }

  ghost predicate Descending(s: seq<Hit>) {
    forall i, j :: 0 <= i < j < |s| ==> s[i].score >= s[j].score
  }

  /** Both searches: collect the hits row by row, sort in place, cut. */
  method RankRows(rows: seq<Row>, threshold: real, score: Row -> real, topK: nat) returns (result: seq<Hit>)
    ensures result == Ranked(rows, threshold, score, topK)
  {
    var scored: seq<Hit> := [];
    var i := 0;
    while i < |rows|
      invariant i <= |rows| && scored == Hits(rows[..i], threshold, score)
    {
      var row, j := rows[i], i + 1;
      assert rows[..j][..i] == rows[..i];
      var sim := score(row);
      if row.success && sim >= threshold && row.plan.Some? {
        scored := scored + [Hit(row.plan.value, sim)];
      }
      i := j;
    }
    assert rows[..|rows|] == rows;
    var sorted := SortBy(scored, Loss);
    result := Prefix(sorted, topK);
  }

  // ---- The two paths agree ----

  /** Row order does not matter for which hits there are. */
  lemma {:induction false} HitsPermute(a: seq<Row>, b: seq<Row>, threshold: real, score: Row -> real)
    requires multiset(a) == multiset(b)
    ensures multiset(Hits(a, threshold, score)) == multiset(Hits(b, threshold, score))
    decreases |a|
  {
    if a == [] {
      assert |b| == |multiset(b)| == 0;
    } else {
      var init, last := a[..|a| - 1], a[|a| - 1];
      var front, back := TakeOut(a, b);
      HitsPermute(init, front + back, threshold, score);
      HitsAround(front, last, back, b, threshold, score);
      HitsConcat(front, back, threshold, score);
      assert Hits(a, threshold, score) == Hits(init, threshold, score) + HitOf(last, threshold, score);
      MoveMiddle(Hits(init, threshold, score), HitOf(last, threshold, score),
                 Hits(front, threshold, score), Hits(back, threshold, score));
    }
  }

  lemma HitsAround(front: seq<Row>, r: Row, back: seq<Row>, all: seq<Row>, threshold: real, score: Row -> real)
    requires all == front + [r] + back
    ensures Hits(all, threshold, score) ==
      Hits(front, threshold, score) + HitOf(r, threshold, score) + Hits(back, threshold, score)
  {
    HitsConcat(front + [r], back, threshold, score);
    HitsOneMore(front, r, threshold, score);
  }

  lemma HitsOneMore(rows: seq<Row>, r: Row, threshold: real, score: Row -> real)
    ensures Hits(rows + [r], threshold, score) == Hits(rows, threshold, score) + HitOf(r, threshold, score)
  {
    assert (rows + [r])[..|rows|] == rows;
  }

  lemma {:induction false} HitsConcat(a: seq<Row>, b: seq<Row>, threshold: real, score: Row -> real)
    ensures Hits(a + b, threshold, score) == Hits(a, threshold, score) + Hits(b, threshold, score)
  {
    if b == [] {
      assert a + b == a;
    } else {
      var init, last := b[..|b| - 1], b[|b| - 1];
      var whole, part := a + b, a + init;
      HitsConcat(a, init, threshold, score);
      assert whole[..|whole| - 1] == part && whole[|whole| - 1] == last;
      var tail := HitOf(last, threshold, score);
      assert Hits(whole, threshold, score) == Hits(part, threshold, score) + tail;
      assert Hits(b, threshold, score) == Hits(init, threshold, score) + tail;
      Associative(Hits(a, threshold, score), Hits(init, threshold, score), tail);
    }
  }

  lemma {:induction false} HitsSameScore(rows: seq<Row>, threshold: real, f: Row -> real, g: Row -> real)
    requires forall r :: r in rows ==> f(r) == g(r)
    ensures Hits(rows, threshold, f) == Hits(rows, threshold, g)
  {
    if rows != [] { HitsSameScore(rows[..|rows| - 1], threshold, f, g); }
  }

  function Scores(s: seq<Hit>): seq<real> {
    seq(|s|, i requires 0 <= i < |s| => s[i].score)
  }

  lemma {:induction false} ScoresPermute(a: seq<Hit>, b: seq<Hit>)
    requires multiset(a) == multiset(b)
    ensures multiset(Scores(a)) == multiset(Scores(b))
    decreases |a|
  {
    if a == [] {
      assert |b| == |multiset(b)| == 0;
    } else {
      var init, last := a[..|a| - 1], a[|a| - 1];
      var front, back := TakeOut(a, b);
      ScoresPermute(init, front + back);
      assert Scores(a) == Scores(init) + [last.score];
      assert Scores(b) == Scores(front) + [last.score] + Scores(back);
      assert Scores(front + back) == Scores(front) + Scores(back);
    }
  }

  ghost predicate Falling(s: seq<real>) {
    forall i, j :: 0 <= i < j < |s| ==> s[i] >= s[j]
  }

  lemma {:induction false} FallingUnique(a: seq<real>, b: seq<real>)
    requires Falling(a) && Falling(b) && multiset(a) == multiset(b)
    ensures a == b
    decreases |a|
  {
    if a == [] {
      assert |b| == |multiset(b)| == 0;
    } else {
      var x, init, rest := SameLast(a, b);
      FallingUnique(init, rest);
    }
  }

  lemma SameLast(a: seq<real>, b: seq<real>) returns (x: real, init: seq<real>, rest: seq<real>)
    requires a != [] && Falling(a) && Falling(b) && multiset(a) == multiset(b)
    ensures a == init + [x] && b == rest + [x] && |init| < |a|
    ensures Falling(init) && Falling(rest) && multiset(init) == multiset(rest)
  {
    assert |a| == |multiset(a)| == |multiset(b)| == |b|;
    LeastLast(a, b);
    LeastLast(b, a);
    x, init, rest := a[|a| - 1], a[..|a| - 1], b[..|b| - 1];
    assert a == init + [x] && b == rest + [x];
    DropLast(init, rest, x);
    FallingInit(init, x);
    FallingInit(rest, x);
  }

  lemma FallingInit(init: seq<real>, last: real)
    requires Falling(init + [last])
    ensures Falling(init)
  {
    var s := init + [last];
    forall i, j | 0 <= i < j < |init| ensures init[i] >= init[j] {
      assert s[i] >= s[j];
    }
  }

  /** The last entry of a falling sequence is a lower bound of every permutation. */
  lemma LeastLast(a: seq<real>, b: seq<real>)
    requires a != [] && |b| == |a| && Falling(a) && multiset(a) == multiset(b)
    ensures a[|a| - 1] <= b[|b| - 1]
  {
    assert b[|b| - 1] in multiset(b);
    assert b[|b| - 1] in a;
  }

  /**
   * Two result lists that differ in the order of equal scores and in which of the lowest-scoring ties survive the cut.
   */
  ghost predicate SameUpToTies(a: seq<Hit>, b: seq<Hit>) {
    && Scores(a) == Scores(b)
    && (a != [] ==> forall h: Hit :: h.score > a[|a| - 1].score ==> multiset(a)[h] == multiset(b)[h])
  }

  lemma OrderedDescends(s: seq<Hit>)
    requires Ordered(s, Loss)
    ensures Descending(s)
  {
    forall i, j | 0 <= i < j < |s| ensures s[i].score >= s[j].score {
      assert Loss(s[i]) <= Loss(s[j]);
    }
  }

  lemma TopCut(s: seq<Hit>, k: nat, h: Hit)
    requires Descending(s) && Prefix(s, k) != [] && h.score > Prefix(s, k)[|Prefix(s, k)| - 1].score
    ensures multiset(Prefix(s, k))[h] == multiset(s)[h]
  {
    if |s| > k {
      var rest := s[k..];
      assert s == s[..k] + rest;
      assert forall i :: 0 <= i < |rest| ==> rest[i] == s[k + i] && rest[i].score <= s[k - 1].score;
      assert h !in rest;
    }
  }

  lemma TopSame(a: seq<Hit>, b: seq<Hit>, k: nat)
    requires Ordered(a, Loss) && Ordered(b, Loss) && multiset(a) == multiset(b)
    ensures SameUpToTies(Prefix(a, k), Prefix(b, k))
    ensures |a| <= k ==> multiset(Prefix(a, k)) == multiset(Prefix(b, k))
  {
    OrderedDescends(a);
    OrderedDescends(b);
    ScoresPermute(a, b);
    FallingUnique(Scores(a), Scores(b));
    assert |a| == |Scores(a)| == |Scores(b)| == |b|;
    var x, y := Prefix(a, k), Prefix(b, k);
    assert Scores(x) == Scores(y) by {
      forall i | 0 <= i < |x| ensures x[i].score == y[i].score {
        assert Scores(a)[i] == Scores(b)[i];
      }
    }
    if x != [] {
      assert x[|x| - 1].score == Scores(x)[|x| - 1] == Scores(y)[|x| - 1] == y[|y| - 1].score;
      forall h: Hit | h.score > x[|x| - 1].score ensures multiset(x)[h] == multiset(y)[h] {
        TopCut(a, k, h);
        TopCut(b, k, h);
      }
    }
  }

  // ---- Saving plans ----

  datatype Entry = Entry(fingerprint: string, planId: nat, plan: string, success: bool, execCount: nat)

  datatype Save = Save(fingerprint: string, plan: string, success: bool)

  function FindEntry(table: seq<Entry>, fingerprint: string): Option<nat> {
    if table == [] then None
    else
      match FindEntry(table[..|table| - 1], fingerprint)
      case Some(i) => Some(i)
      case None => if table[|table| - 1].fingerprint == fingerprint then Some(|table| - 1) else None
  }

  /** Update the row with this fingerprint or append a new one. */
  function Upsert(table: seq<Entry>, s: Save, freshId: nat): seq<Entry> {
    match FindEntry(table, s.fingerprint)
    case Some(i) =>
      if i < |table| then
        table[i := table[i].(execCount := table[i].execCount + 1, success := s.success, plan := s.plan)]
      else table
    case None => table + [Entry(s.fingerprint, freshId, s.plan, s.success, 1)]
  }

  lemma {:induction false} FindMeaning(table: seq<Entry>, fingerprint: string)
    ensures match FindEntry(table, fingerprint)
      case Some(i) => i < |table| && table[i].fingerprint == fingerprint
      case None => forall i :: 0 <= i < |table| ==> table[i].fingerprint != fingerprint
  {
    if table != [] { FindMeaning(table[..|table| - 1], fingerprint); }
  }

  function TableAfter(saves: seq<Save>): seq<Entry> {
    if saves == [] then [] else Upsert(TableAfter(saves[..|saves| - 1]), saves[|saves| - 1], |saves|)
  }

  function CountSaves(saves: seq<Save>, fingerprint: string): nat {
    if saves == [] then 0
    else CountSaves(saves[..|saves| - 1], fingerprint) + if saves[|saves| - 1].fingerprint == fingerprint then 1 else 0
  }

  function LastSave(saves: seq<Save>, fingerprint: string): Option<Save> {
    if saves == [] then None
    else if saves[|saves| - 1].fingerprint == fingerprint then Some(saves[|saves| - 1])
    else LastSave(saves[..|saves| - 1], fingerprint)
  }

  ghost predicate Summarises(e: Entry, saves: seq<Save>) {
    var last := LastSave(saves, e.fingerprint);
    last.Some? && e.plan == last.value.plan && e.success == last.value.success &&
      e.execCount == CountSaves(saves, e.fingerprint)
  }

  /** After any history of saves there is one row per fingerprint, counting its saves and holding the last one. */
  lemma {:induction false} TableExact(saves: seq<Save>)
    ensures var t := TableAfter(saves);
      && DistinctEntries(t)
      && (forall i :: 0 <= i < |t| ==> Summarises(t[i], saves) && t[i].planId <= |saves|)
      && (forall i :: 0 <= i < |saves| ==> FindEntry(t, saves[i].fingerprint).Some?)
  {
    if saves != [] {
      var init, s := saves[..|saves| - 1], saves[|saves| - 1];
      var u, t := TableAfter(init), TableAfter(saves);
      TableExact(init);
      assert saves == init + [s];
      UpsertSummary(init, u, s, t);
      UpsertFinds(init, u, s, t);
    }
  }

  ghost predicate DistinctEntries(t: seq<Entry>) {
    forall i, j :: 0 <= i < j < |t| ==> t[i].fingerprint != t[j].fingerprint && t[i].planId != t[j].planId
  }

  lemma {:induction false} UpsertSummary(init: seq<Save>, u: seq<Entry>, s: Save, t: seq<Entry>)
    requires t == Upsert(u, s, |init| + 1) && DistinctEntries(u)
    requires forall i :: 0 <= i < |u| ==> Summarises(u[i], init) && u[i].planId <= |init|
    requires forall i :: 0 <= i < |init| ==> FindEntry(u, init[i].fingerprint).Some?
    ensures DistinctEntries(t)
    ensures forall i :: 0 <= i < |t| ==> Summarises(t[i], init + [s]) && t[i].planId <= |init| + 1
  {
    FindMeaning(u, s.fingerprint);
    assert (init + [s])[..|init|] == init;
    if FindEntry(u, s.fingerprint).None? { NoSaves(init, u, s.fingerprint); }
    forall i | 0 <= i < |t| ensures Summarises(t[i], init + [s]) {
      if i < |u| { assert Summarises(u[i], init); }
    }
  }

  lemma UpsertFinds(init: seq<Save>, u: seq<Entry>, s: Save, t: seq<Entry>)
    requires t == Upsert(u, s, |init| + 1)
    requires forall i :: 0 <= i < |init| ==> FindEntry(u, init[i].fingerprint).Some?
    ensures forall i :: 0 <= i < |init| + 1 ==> FindEntry(t, (init + [s])[i].fingerprint).Some?
  {
    FindMeaning(u, s.fingerprint);
    forall i | 0 <= i < |init| + 1 ensures FindEntry(t, (init + [s])[i].fingerprint).Some? {
      var f := (init + [s])[i].fingerprint;
      FindMeaning(t, f);
      FindMeaning(u, f);
      var at := FindEntry(u, f);
      var k := if at.Some? then at.value else |u|;
      assert t[k].fingerprint == f;
    }
  }

  lemma NoSaves(saves: seq<Save>, t: seq<Entry>, fingerprint: string)
    requires forall i :: 0 <= i < |saves| ==> FindEntry(t, saves[i].fingerprint).Some?
    requires FindEntry(t, fingerprint).None?
    ensures CountSaves(saves, fingerprint) == 0
  {
    NoSavesUpTo(saves, fingerprint);
  }

  lemma {:induction false} NoSavesUpTo(saves: seq<Save>, fingerprint: string)
    requires forall i :: 0 <= i < |saves| ==> saves[i].fingerprint != fingerprint
    ensures CountSaves(saves, fingerprint) == 0
  {
    if saves != [] { NoSavesUpTo(saves[..|saves| - 1], fingerprint); }
  }

  /** The plan table; the n-th save would create the row with id n, which stands for the random id of the source. */
  class PlanTable {
    var rows: seq<Entry>
    ghost var saves: seq<Save>
    var nextId: nat

    ghost predicate Valid()
      reads this
    {
      rows == TableAfter(saves) && nextId == |saves| + 1
    }

    constructor ()
      ensures Valid() && saves == []
    {
      rows, saves, nextId := [], [], 1;
    }

    /** Saving a plan for a known task updates its row and returns its old id; otherwise a row is added. */
    method SavePlan(s: Save) returns (planId: nat)
      requires Valid()
      modifies this
      ensures Valid() && saves == old(saves) + [s]
      ensures rows == Upsert(old(rows), s, |saves|)
      ensures IdOf(rows, s.fingerprint) == Some(planId)
      ensures IdOf(old(rows), s.fingerprint).Some? ==> IdOf(old(rows), s.fingerprint) == Some(planId)
    {
      TableDistinct(saves);
      var at := 0;
      while at < |rows| && rows[at].fingerprint != s.fingerprint
        invariant at <= |rows| && forall k :: 0 <= k < at ==> rows[k].fingerprint != s.fingerprint
      {
        at := at + 1;
      }
      ghost var before := rows;
      if at < |rows| {
        var e := rows[at];
        planId := e.planId;
        rows := rows[at := e.(execCount := e.execCount + 1, success := s.success, plan := s.plan)];
      } else {
        planId := nextId;
        rows := rows + [Entry(s.fingerprint, nextId, s.plan, s.success, 1)];
      }
      UpsertAt(before, s, nextId, at, rows);
      TableAppend(saves, s);
      saves, nextId := saves + [s], nextId + 1;
    }
  }

  lemma TableDistinct(saves: seq<Save>)
    ensures DistinctEntries(TableAfter(saves))
  {
    TableExact(saves);
  }

  lemma TableAppend(saves: seq<Save>, s: Save)
    ensures TableAfter(saves + [s]) == Upsert(TableAfter(saves), s, |saves| + 1)
  {
    assert (saves + [s])[..|saves|] == saves;
  }

  function IdOf(table: seq<Entry>, fingerprint: string): Option<nat> {
    var at := FindEntry(table, fingerprint);
    if at.Some? && at.value < |table| then Some(table[at.value].planId) else None
  }

  lemma UpsertAt(before: seq<Entry>, s: Save, freshId: nat, at: nat, after: seq<Entry>)
    requires DistinctEntries(before) && at <= |before|
    requires forall k :: 0 <= k < at ==> before[k].fingerprint != s.fingerprint
    requires at < |before| ==> before[at].fingerprint == s.fingerprint
    requires at < |before| ==>
      after == before[at := before[at].(execCount := before[at].execCount + 1, success := s.success, plan := s.plan)]
    requires at == |before| ==> after == before + [Entry(s.fingerprint, freshId, s.plan, s.success, 1)]
    ensures after == Upsert(before, s, freshId)
    ensures IdOf(before, s.fingerprint) == if at < |before| then Some(before[at].planId) else None
    ensures IdOf(after, s.fingerprint) == Some(if at < |before| then before[at].planId else freshId)
  {
    FindMeaning(before, s.fingerprint);
    FindMeaning(after, s.fingerprint);
    assert FindEntry(before, s.fingerprint) == if at < |before| then Some(at) else None;
    assert after[at].fingerprint == s.fingerprint;
  }
}
