/**
 * The exact conditions, on table and query, under which the two plan searches return what ranking the whole table would
 * (youmi/coordinator/plan_memory.py).
 */
module SearchExactness {
  import opened Common
  import opened Counting
  import opened Sorting
  import opened Vectors
  import opened PlanSearch
  import opened SearchAgreement

  // ---- The index: which tables leave every answer with enough hits ----

  /** The row is a hit. */
  function Qualifies(threshold: real, score: Row -> real): Row -> bool {
    r => Usable(r) && score(r) >= threshold
  }

  function NearerHit(hit: Row -> bool, distance: Row -> real, d: real): Row -> bool {
    r => hit(r) && distance(r) < d
  }

  function MissWithin(hit: Row -> bool, distance: Row -> real, d: real): Row -> bool {
    r => !hit(r) && distance(r) <= d
  }

  /**
   * The needed nearest hits are within reach of k rows: each of them, together with the rows at least as near that are
   * no hits, fits. A hit is one of them when fewer than needed hits are nearer.
   */
  ghost predicate WithinReach(rows: seq<Row>, hit: Row -> bool, distance: Row -> real, needed: nat, k: nat) {
    || |rows| <= k
    || forall h :: h in rows && hit(h) && CountIf(rows, NearerHit(hit, distance, distance(h))) < needed ==>
         needed + CountIf(rows, MissWithin(hit, distance, distance(h))) <= k
  }

  /** How many results a ranking of all rows has. */
  function Needed(rows: seq<Row>, threshold: real, score: Row -> real, topK: nat): nat {
    var all := |Hits(rows, threshold, score)|;
    if topK <= all then topK else all
  }

  lemma {:induction false} HitsCounted(rows: seq<Row>, threshold: real, score: Row -> real)
    ensures |Hits(rows, threshold, score)| == CountIf(rows, Qualifies(threshold, score))
  {
    if rows != [] { HitsCounted(rows[..|rows| - 1], threshold, score); }
  }

  // ---- What a ranking is ----

  /** The result row r gives, if it qualifies. */
  ghost predicate Gives(r: Row, threshold: real, score: Row -> real, h: Hit) {
    r.success && r.plan.Some? && score(r) >= threshold && h == Hit(r.plan.value, score(r))
  }

  lemma {:induction false} QualifiedIsHit(rows: seq<Row>, threshold: real, score: Row -> real, r: Row, h: Hit)
    requires r in rows && Gives(r, threshold, score, h)
    ensures h in Hits(rows, threshold, score)
  {
    var init, last := rows[..|rows| - 1], rows[|rows| - 1];
    if r in init { QualifiedIsHit(init, threshold, score, r, h); }
  }

  /**
   * A ranking lists results of qualifying rows by falling score, as many as asked for or as there are, and what it
   * leaves out scores no higher than what it lists.
   */
  lemma RankedMeaning(rows: seq<Row>, threshold: real, score: Row -> real, topK: nat, ranked: seq<Hit>)
    requires ranked == Ranked(rows, threshold, score, topK)
    ensures Descending(ranked) && |ranked| == Needed(rows, threshold, score, topK)
    ensures Needed(rows, threshold, score, topK) ==
      if CountIf(rows, Qualifies(threshold, score)) <= topK then CountIf(rows, Qualifies(threshold, score)) else topK
    ensures forall h :: h in ranked ==> exists r :: r in rows && Gives(r, threshold, score, h)
    ensures forall r, h, k :: r in rows && Gives(r, threshold, score, h) && h !in ranked && k in ranked ==>
      |ranked| == topK && h.score <= k.score
    ensures forall r, h :: r in rows && Gives(r, threshold, score, h) && |ranked| < topK ==> h in ranked
  {
    var all := Hits(rows, threshold, score);
    var sorted := Sort(all, Loss);
    HitsCounted(rows, threshold, score);
    SortSorts(all, Loss);
    OrderedDescends(sorted);
    SameMembers(sorted, all);
    forall h | h in ranked ensures exists r :: r in rows && Gives(r, threshold, score, h) {
      assert h in sorted;
      var r := HitSource(rows, threshold, score, h);
      assert Gives(r, threshold, score, h);
    }
    forall r, h | r in rows && Gives(r, threshold, score, h)
      ensures h in sorted
    {
      QualifiedIsHit(rows, threshold, score, r, h);
    }
    forall h, k | h in sorted && h !in ranked && k in ranked ensures |ranked| == topK && h.score <= k.score {
      BehindTheCut(sorted, topK, h, k);
    }
  }

  lemma BehindTheCut(s: seq<Hit>, topK: nat, h: Hit, k: Hit)
    requires Descending(s) && h in s && h !in Prefix(s, topK) && k in Prefix(s, topK)
    ensures |Prefix(s, topK)| == topK && h.score <= k.score
  {
    var i :| 0 <= i < |s| && s[i] == h;
    var j :| 0 <= j < |Prefix(s, topK)| && Prefix(s, topK)[j] == k;
    if i < |Prefix(s, topK)| { InPrefix(s, topK, i); }
    assert s[j] == k;
  }

  lemma InPrefix(s: seq<Hit>, n: nat, i: nat)
    requires i < |Prefix(s, n)|
    ensures i < |s| && s[i] in Prefix(s, n)
  {
    assert Prefix(s, n)[i] == s[i];
  }

  lemma {:induction false} NearestHit(rows: seq<Row>, hit: Row -> bool, distance: Row -> real) returns (h: Row)
    requires CountIf(rows, hit) > 0
    ensures h in rows && hit(h) && forall r :: r in rows && hit(r) ==> distance(h) <= distance(r)
  {
    var init, last := rows[..|rows| - 1], rows[|rows| - 1];
    CountBounds(init, hit);
    assert forall r :: r in rows <==> r in init || r == last;
    if CountIf(init, hit) == 0 {
      h := last;
    } else {
      h := NearestHit(init, hit, distance);
      if hit(last) && distance(last) < distance(h) { h := last; }
    }
  }

  /** Within reach, every answer of the index holds enough hits. */
  lemma EnoughFound(rows: seq<Row>, fetched: seq<Row>, rest: seq<Row>, hit: Row -> bool, distance: Row -> real,
                    needed: nat, k: nat)
    requires multiset(rows) == multiset(fetched + rest) && |fetched| == k < |rows|
    requires forall f, r :: f in fetched && r in rest ==> distance(f) <= distance(r)
    requires needed <= CountIf(rows, hit) && WithinReach(rows, hit, distance, needed, k)
    ensures CountIf(fetched, hit) >= needed
  {
    CountParts(rows, fetched, rest, hit);
    if CountIf(fetched, hit) < needed {
      var h := NearestHit(rest, hit, distance);
      SameMembers(rows, fetched + rest);
      assert h in rows;
      FewNearer(rows, fetched, rest, hit, distance, h);
      MissesFetched(rows, fetched, rest, hit, distance, h);
    }
  }

  lemma FewNearer(rows: seq<Row>, fetched: seq<Row>, rest: seq<Row>, hit: Row -> bool, distance: Row -> real, h: Row)
    requires multiset(rows) == multiset(fetched + rest)
    requires forall r :: r in rest && hit(r) ==> distance(h) <= distance(r)
    ensures CountIf(rows, NearerHit(hit, distance, distance(h))) <= CountIf(fetched, hit)
  {
    var nearer := NearerHit(hit, distance, distance(h));
    CountParts(rows, fetched, rest, nearer);
    CountBounds(rest, nearer);
    CountMonotone(fetched, nearer, hit);
  }

  lemma MissesFetched(rows: seq<Row>, fetched: seq<Row>, rest: seq<Row>, hit: Row -> bool, distance: Row -> real,
                      h: Row)
    requires multiset(rows) == multiset(fetched + rest)
    requires forall f :: f in fetched ==> distance(f) <= distance(h)
    ensures |fetched| <= CountIf(fetched, hit) + CountIf(rows, MissWithin(hit, distance, distance(h)))
  {
    var misses := MissWithin(hit, distance, distance(h));
    CountBounds(fetched, hit);
    CountMonotone(fetched, Not(hit), misses);
    CountParts(rows, fetched, rest, misses);
  }

  // ---- The worst answer: among equally near rows those that are no hits come first ----

  predicate Sooner(f: Row, r: Row, hit: Row -> bool, distance: Row -> real) {
    distance(f) < distance(r) || (distance(f) == distance(r) && (hit(f) ==> hit(r)))
  }

  lemma {:induction false} Soonest(rows: seq<Row>, hit: Row -> bool, distance: Row -> real)
    returns (front: seq<Row>, x: Row, back: seq<Row>)
    requires rows != []
    ensures rows == front + [x] + back && forall r :: r in rows ==> Sooner(x, r, hit, distance)
  {
    var init, last := rows[..|rows| - 1], rows[|rows| - 1];
    front, x, back := init, last, [];
    if init != [] {
      var f, y, b := Soonest(init, hit, distance);
      assert forall r :: r in rows <==> r in init || r == last;
      if Sooner(y, last, hit, distance) {
        front, x, back := f, y, b + [last];
        assert rows == f + [y] + (b + [last]);
      }
    }
  }

  lemma {:induction false} WorstAnswer(rows: seq<Row>, hit: Row -> bool, distance: Row -> real, k: nat)
    returns (fetched: seq<Row>, rest: seq<Row>)
    requires k <= |rows|
    ensures multiset(rows) == multiset(fetched + rest) && |fetched| == k
    ensures forall f, r :: f in fetched && r in rest ==> Sooner(f, r, hit, distance)
  {
    if k == 0 {
      fetched, rest := [], rows;
      assert [] + rows == rows;
    } else {
      var got, left := WorstAnswer(rows, hit, distance, k - 1);
      assert |rows| == |multiset(got + left)| == |got| + |left|;
      var front, x, back := Soonest(left, hit, distance);
      fetched, rest := got + [x], front + back;
      MoveOne(got, front, x, back);
      assert forall r :: r in rest ==> r in left;
      assert x in left;
    }
  }

  lemma MoveOne(got: seq<Row>, front: seq<Row>, x: Row, back: seq<Row>)
    ensures multiset(got + (front + [x] + back)) == multiset((got + [x]) + (front + back))
  {
  }

  lemma IsAnswer(rows: seq<Row>, fetched: seq<Row>, rest: seq<Row>, distance: Row -> real, k: nat)
    requires multiset(rows) == multiset(fetched + rest) && |fetched| == k <= |rows|
    requires forall f, r :: f in fetched && r in rest ==> distance(f) <= distance(r)
    ensures NearestRows(fetched, rows, distance, k)
  {
    assert multiset(rows) == multiset(fetched) + multiset(rest);
    forall r, f | f in fetched && multiset(fetched)[r] < multiset(rows)[r] ensures distance(f) <= distance(r) {
      assert r in multiset(rest);
    }
  }

  /** If the worst answer holds enough hits, they were within reach. */
  lemma WorstIsTight(rows: seq<Row>, fetched: seq<Row>, rest: seq<Row>, hit: Row -> bool, distance: Row -> real,
                     needed: nat, k: nat)
    requires multiset(rows) == multiset(fetched + rest) && |fetched| == k
    requires forall f, r :: f in fetched && r in rest ==> Sooner(f, r, hit, distance)
    requires CountIf(fetched, hit) >= needed
    ensures WithinReach(rows, hit, distance, needed, k)
  {
    forall h | h in rows && hit(h) && CountIf(rows, NearerHit(hit, distance, distance(h))) < needed
      ensures needed + CountIf(rows, MissWithin(hit, distance, distance(h))) <= k
    {
      var f := FarHit(rows, fetched, rest, hit, distance, h);
      var misses := MissWithin(hit, distance, distance(h));
      CountParts(rows, fetched, rest, misses);
      CountBounds(rest, misses);
      assert forall r :: r in rest ==> Sooner(f, r, hit, distance);
      CountMonotone(fetched, misses, Not(hit));
      CountBounds(fetched, hit);
    }
  }

  /** Some fetched hit is at least as far as h, for otherwise too many were nearer. */
  lemma FarHit(rows: seq<Row>, fetched: seq<Row>, rest: seq<Row>, hit: Row -> bool, distance: Row -> real, h: Row)
    returns (f: Row)
    requires multiset(rows) == multiset(fetched + rest)
    requires CountIf(rows, NearerHit(hit, distance, distance(h))) < CountIf(fetched, hit)
    ensures f in fetched && hit(f) && distance(f) >= distance(h)
  {
    var nearer := NearerHit(hit, distance, distance(h));
    CountParts(rows, fetched, rest, nearer);
    if forall x :: x in fetched && hit(x) ==> nearer(x) {
      CountMonotone(fetched, hit, nearer);
    }
    f :| f in fetched && hit(f) && !nearer(f);
  }

  ghost predicate EveryAnswerAgrees(rows: seq<Row>, distance: Row -> real, threshold: real, topK: nat, k: nat) {
    var g := (r: Row) => L2ToCosine(distance(r));
    forall fetched :: NearestRows(fetched, rows, distance, k) ==>
      SameUpToTies(Ranked(fetched, threshold, g, topK), Ranked(rows, threshold, g, topK))
  }

  lemma AnswerAgreesIff(rows: seq<Row>, fetched: seq<Row>, distance: Row -> real, threshold: real, topK: nat, k: nat,
                        g: Row -> real)
    requires NearestRows(fetched, rows, distance, k) && forall r :: r in rows ==> distance(r) >= 0.0
    requires g == ((r: Row) => L2ToCosine(distance(r)))
    ensures SameUpToTies(Ranked(fetched, threshold, g, topK), Ranked(rows, threshold, g, topK)) <==>
      CountIf(fetched, Qualifies(threshold, g)) >= Needed(rows, threshold, g, topK)
  {
    IndexAgreesIff(rows, fetched, distance, threshold, topK, k);
    HitsCounted(fetched, threshold, g);
  }

  /** Every answer the index may give ranks like the whole table if and only if the hits needed are within its reach. */
  lemma EveryAnswerAgreesIff(rows: seq<Row>, distance: Row -> real, threshold: real, topK: nat, k: nat, g: Row -> real)
    requires (forall r :: r in rows ==> distance(r) >= 0.0) && g == ((r: Row) => L2ToCosine(distance(r)))
    ensures EveryAnswerAgrees(rows, distance, threshold, topK, k) <==>
      WithinReach(rows, Qualifies(threshold, g), distance, Needed(rows, threshold, g, topK), k)
  {
    var hit, needed := Qualifies(threshold, g), Needed(rows, threshold, g, topK);
    HitsCounted(rows, threshold, g);
    if WithinReach(rows, hit, distance, needed, k) {
      forall fetched | NearestRows(fetched, rows, distance, k)
        ensures SameUpToTies(Ranked(fetched, threshold, g, topK), Ranked(rows, threshold, g, topK))
      {
        ReachSuffices(rows, fetched, hit, distance, needed, k);
        AnswerAgreesIff(rows, fetched, distance, threshold, topK, k, g);
      }
    }
    if EveryAnswerAgrees(rows, distance, threshold, topK, k) && |rows| > k {
      var fetched, rest := WorstAnswer(rows, hit, distance, k);
      IsAnswer(rows, fetched, rest, distance, k);
      AnswerAgreesIff(rows, fetched, distance, threshold, topK, k, g);
      WorstIsTight(rows, fetched, rest, hit, distance, needed, k);
    }
  }

  lemma ReachSuffices(rows: seq<Row>, fetched: seq<Row>, hit: Row -> bool, distance: Row -> real, needed: nat, k: nat)
    requires NearestRows(fetched, rows, distance, k) && needed <= CountIf(rows, hit)
    requires WithinReach(rows, hit, distance, needed, k)
    ensures CountIf(fetched, hit) >= needed
  {
    var rest := LeftRows(rows, fetched, distance, k);
    if |rows| <= k {
      assert fetched + rest == fetched;
      CountPermute(rows, fetched, hit);
    } else {
      EnoughFound(rows, fetched, rest, hit, distance, needed, k);
    }
  }

  // ---- The scan: which tables it may cut ----

  function ScoresAtLeast(v: real): Hit -> bool {
    (h: Hit) => h.score >= v
  }

  /** Every hit left out is matched by k kept hits that score at least as high. */
  ghost predicate Dominated(part: seq<Hit>, lost: seq<Hit>, k: nat) {
    forall y :: y in lost ==> CountIf(part, ScoresAtLeast(y.score)) >= k
  }

  lemma {:induction false} HighFirst(s: seq<Hit>, v: real, k: nat)
    requires Descending(s)
    ensures CountIf(Prefix(s, k), ScoresAtLeast(v)) ==
      if CountIf(s, ScoresAtLeast(v)) <= k then CountIf(s, ScoresAtLeast(v)) else k
  {
    if |s| > k {
      var init, last := s[..|s| - 1], s[|s| - 1];
      HighFirst(init, v, k);
      assert Prefix(s, k) == Prefix(init, k);
      if last.score >= v {
        assert forall x :: x in init ==> x.score >= last.score;
        CountBounds(init, ScoresAtLeast(v));
      }
    } else {
      CountBounds(s, ScoresAtLeast(v));
    }
  }

  lemma {:induction false} SameScoresSameCount(a: seq<Hit>, b: seq<Hit>, v: real)
    requires Scores(a) == Scores(b)
    ensures CountIf(a, ScoresAtLeast(v)) == CountIf(b, ScoresAtLeast(v))
  {
    assert |a| == |Scores(a)| == |Scores(b)| == |b|;
    if a != [] {
      var n := |a| - 1;
      assert Scores(a)[n] == Scores(b)[n];
      assert Scores(a[..n]) == Scores(a)[..n] == Scores(b)[..n] == Scores(b[..n]);
      SameScoresSameCount(a[..n], b[..n], v);
    }
  }

  lemma SortedCount(s: seq<Hit>, v: real)
    ensures Descending(Sort(s, Loss)) && CountIf(Sort(s, Loss), ScoresAtLeast(v)) == CountIf(s, ScoresAtLeast(v))
  {
    SortSorts(s, Loss);
    OrderedDescends(Sort(s, Loss));
    CountPermute(Sort(s, Loss), s, ScoresAtLeast(v));
  }

  /** A hit left out that fewer than k kept ones match changes the scores of the first k. */
  lemma LostHitMissed(all: seq<Hit>, part: seq<Hit>, lost: seq<Hit>, k: nat, y: Hit)
    requires multiset(all) == multiset(part + lost) && y in lost && CountIf(part, ScoresAtLeast(y.score)) < k
    ensures Scores(Prefix(Sort(part, Loss), k)) != Scores(Prefix(Sort(all, Loss), k))
  {
    var high := ScoresAtLeast(y.score);
    CountParts(all, part, lost, high);
    CountBounds(lost, high);
    SortedCount(all, y.score);
    SortedCount(part, y.score);
    HighFirst(Sort(all, Loss), y.score, k);
    HighFirst(Sort(part, Loss), y.score, k);
    if Scores(Prefix(Sort(part, Loss), k)) == Scores(Prefix(Sort(all, Loss), k)) {
      SameScoresSameCount(Prefix(Sort(part, Loss), k), Prefix(Sort(all, Loss), k), y.score);
    }
  }

  lemma {:induction false} BestHit(s: seq<Hit>) returns (y: Hit)
    requires s != []
    ensures y in s && forall x :: x in s ==> x.score <= y.score
  {
    var init, last := s[..|s| - 1], s[|s| - 1];
    y := last;
    if init != [] {
      var x := BestHit(init);
      if x.score > last.score { y := x; }
      assert forall z :: z in s <==> z in init || z == last;
    }
  }

  /** If the first k kept hits match everything left out, they are the first k of all hits. */
  lemma KeptHitsSuffice(all: seq<Hit>, part: seq<Hit>, lost: seq<Hit>, k: nat)
    requires multiset(all) == multiset(part + lost) && Dominated(part, lost, k)
    ensures SameUpToTies(Prefix(Sort(part, Loss), k), Prefix(Sort(all, Loss), k))
  {
    if lost == [] {
      assert part + lost == part;
      NothingLost(all, part, k);
    } else {
      var y := BestHit(lost);
      var p := Sort(part, Loss);
      SortSorts(part, Loss);
      TopScores(part, p, y.score, k);
      var top, tail := Prefix(p, k), p[k..];
      SamePieces(all, part, lost, p);
      TopKept(all, p, top, tail, lost, k);
    }
  }

  lemma SamePieces(all: seq<Hit>, part: seq<Hit>, lost: seq<Hit>, p: seq<Hit>)
    requires multiset(all) == multiset(part + lost) && multiset(p) == multiset(part)
    ensures multiset(all) == multiset(p) + multiset(lost)
  {
  }

  lemma TopScores(part: seq<Hit>, p: seq<Hit>, v: real, k: nat)
    requires p == Sort(part, Loss) && CountIf(part, ScoresAtLeast(v)) >= k
    ensures k <= |p| && p == Prefix(p, k) + p[k..] && |Prefix(p, k)| == k
    ensures forall x :: x in Prefix(p, k) ==> x.score >= v
  {
    var high, top := ScoresAtLeast(v), Prefix(p, k);
    SortedCount(part, v);
    HighFirst(p, v, k);
    assert CountIf(top, high) == k;
    CountAtMost(p, high);
    PrefixRest(p, k);
    AllCounted(top, high);
  }

  lemma PrefixRest(p: seq<Hit>, k: nat)
    requires k <= |p|
    ensures p == Prefix(p, k) + p[k..] && |Prefix(p, k)| == k
  {
  }

  lemma CountAtMost(s: seq<Hit>, high: Hit -> bool)
    ensures CountIf(s, high) <= |s|
  {
    CountBounds(s, high);
  }

  lemma AllCounted(s: seq<Hit>, high: Hit -> bool)
    requires CountIf(s, high) == |s|
    ensures forall x :: x in s ==> high(x)
  {
    CountBounds(s, high);
  }

  lemma TopKept(all: seq<Hit>, p: seq<Hit>, top: seq<Hit>, tail: seq<Hit>, lost: seq<Hit>, k: nat)
    requires p == top + tail && |top| == k && Ordered(p, Loss) && multiset(all) == multiset(p) + multiset(lost)
    requires forall x, y :: x in top && y in lost ==> y.score <= x.score
    ensures SameUpToTies(top, Prefix(Sort(all, Loss), k))
  {
    var rest := Sort(tail + lost, Loss);
    SortSorts(tail + lost, Loss);
    SortSorts(all, Loss);
    SameMembers(tail + lost, rest);
    forall x, y | x in top && y in rest ensures y.score <= x.score {
      if y in tail { TailLower(p, top, tail, x, y); }
    }
    TopOrdered(p, top, tail);
    JoinOrdered(top, rest);
    assert multiset(top + rest) == multiset(all);
    TopSame(top + rest, Sort(all, Loss), k);
    assert Prefix(top + rest, k) == top;
  }

  lemma TailLower(p: seq<Hit>, top: seq<Hit>, tail: seq<Hit>, x: Hit, y: Hit)
    requires p == top + tail && Ordered(p, Loss) && x in top && y in tail
    ensures y.score <= x.score
  {
    var i :| 0 <= i < |top| && top[i] == x;
    var j :| 0 <= j < |tail| && tail[j] == y;
    assert p[i] == x && p[|top| + j] == y;
  }

  lemma TopOrdered(p: seq<Hit>, top: seq<Hit>, tail: seq<Hit>)
    requires p == top + tail && Ordered(p, Loss)
    ensures Ordered(top, Loss)
  {
    forall i, j | 0 <= i < j < |top| ensures Loss(top[i]) <= Loss(top[j]) {
      assert p[i] == top[i] && p[j] == top[j];
    }
  }

  /** If nothing is cut off, matching every hit left out means leaving none out. */
  lemma NoneLost(all: seq<Hit>, part: seq<Hit>, lost: seq<Hit>, k: nat)
    requires multiset(all) == multiset(part + lost) && Dominated(part, lost, k) && |all| <= k
    ensures multiset(Prefix(Sort(part, Loss), k)) == multiset(Prefix(Sort(all, Loss), k))
  {
    assert |all| == |multiset(part + lost)| == |part| + |lost|;
    if lost != [] {
      var y := lost[0];
      CountAtMost(part, ScoresAtLeast(y.score));
      assert false;
    }
    assert part + lost == part;
    NothingLost(all, part, k);
  }

  /** The successful rows beyond the limit of one scan. */
  function Unloaded(rows: seq<Row>): seq<Row> {
    Successful(rows)[|Loaded(rows)|..]
  }

  /**
   * Tables of any size: the scan gives the scores, and up to ties the plans, that ranking the whole table gives if and
   * only if every hit it does not load is matched by topK loaded hits that score at least as high.
   */
  lemma ScanAgreesIff(rows: seq<Row>, threshold: real, score: Row -> real, topK: nat)
    ensures var scan, full := Ranked(Loaded(rows), threshold, score, topK), Ranked(rows, threshold, score, topK);
      var loaded, lost := Hits(Loaded(rows), threshold, score), Hits(Unloaded(rows), threshold, score);
      && (SameUpToTies(scan, full) <==> Dominated(loaded, lost, topK))
      && (Scores(scan) == Scores(full) <==> Dominated(loaded, lost, topK))
      && (Dominated(loaded, lost, topK) && |Hits(rows, threshold, score)| <= topK ==> multiset(scan) == multiset(full))
  {
    var loaded, lost := Hits(Loaded(rows), threshold, score), Hits(Unloaded(rows), threshold, score);
    var all := Hits(rows, threshold, score);
    assert Successful(rows) == Loaded(rows) + Unloaded(rows);
    HitsConcat(Loaded(rows), Unloaded(rows), threshold, score);
    LoadedHits(rows, threshold, score);
    if Dominated(loaded, lost, topK) {
      KeptHitsSuffice(all, loaded, lost, topK);
      if |all| <= topK { NoneLost(all, loaded, lost, topK); }
    } else {
      var y :| y in lost && CountIf(loaded, ScoresAtLeast(y.score)) < topK;
      LostHitMissed(all, loaded, lost, topK, y);
    }
  }

  /** The scan loads the first 200 successes, or all there are. */
  lemma LoadsTwoHundred(rows: seq<Row>)
    ensures |Loaded(rows)| == if |Successful(rows)| <= 200 then |Successful(rows)| else 200
    ensures Successful(rows) == Loaded(rows) + Unloaded(rows)
  {
  }

  lemma {:induction false} AllSuccessful(rows: seq<Row>)
    requires forall r :: r in rows ==> r.success
    ensures Successful(rows) == rows
  {
    if rows != [] {
      AllSuccessful(rows[..|rows| - 1]);
      assert rows == rows[..|rows| - 1] + [rows[|rows| - 1]];
    }
  }

  /** One success too many: the scan loads the same plan SCAN_LIMIT times and misses the better one behind them. */
  lemma ScanMissesBest(rows: seq<Row>, others: seq<Row>, other: Row, best: Row, threshold: real, score: Row -> real)
    requires rows == others + [best] && |others| == SCAN_LIMIT && forall r :: r in others ==> r == other
    requires Usable(other) && Usable(best) && threshold <= score(other) < score(best)
    ensures !SameUpToTies(Ranked(Loaded(rows), threshold, score, 1), Ranked(rows, threshold, score, 1))
  {
    AllSuccessful(rows);
    assert Loaded(rows) == others && Unloaded(rows) == [best];
    var loaded, lost := Hits(others, threshold, score), Hits([best], threshold, score);
    HitsOneMore([], best, threshold, score);
    assert [] + [best] == [best];
    var y := Hit(best.plan.value, score(best));
    assert y in lost;
    forall x | x in loaded ensures x.score < y.score {
      var r := HitSource(others, threshold, score, x);
    }
    CountBounds(loaded, ScoresAtLeast(y.score));
    ScanAgreesIff(rows, threshold, score, 1);
  }

  // ---- The two searches against each other ----

  lemma SameTransfers(a: seq<Hit>, b: seq<Hit>, c: seq<Hit>)
    requires SameUpToTies(b, c)
    ensures SameUpToTies(a, b) <==> SameUpToTies(a, c)
  {
    LastScore(b, c);
    if Scores(a) == Scores(b) { LastScore(a, b); }
  }

  lemma LastScore(a: seq<Hit>, b: seq<Hit>)
    requires Scores(a) == Scores(b)
    ensures |a| == |b| && (a != [] ==> a[|a| - 1].score == b[|b| - 1].score)
  {
    assert |a| == |Scores(a)| == |Scores(b)| == |b|;
    if a != [] { assert Scores(a)[|a| - 1] == Scores(b)[|a| - 1]; }
  }

  lemma FittingScanKeepsAll(rows: seq<Row>, threshold: real, score: Row -> real, topK: nat)
    requires |Successful(rows)| <= SCAN_LIMIT
    ensures Dominated(Hits(Loaded(rows), threshold, score), Hits(Unloaded(rows), threshold, score), topK)
  {
  }

  /** The successes fit into one scan, or it may leave out what it does not load. */
  ghost predicate ScanExact(rows: seq<Row>, threshold: real, score: Row -> real, topK: nat) {
    || |Successful(rows)| <= SCAN_LIMIT
    || Dominated(Hits(Loaded(rows), threshold, score), Hits(Unloaded(rows), threshold, score), topK)
  }

  lemma ExactScan(rows: seq<Row>, threshold: real, score: Row -> real, topK: nat)
    requires ScanExact(rows, threshold, score, topK)
    ensures var scan, full := Ranked(Loaded(rows), threshold, score, topK), Ranked(rows, threshold, score, topK);
      && SameUpToTies(scan, full)
      && (|Hits(rows, threshold, score)| <= topK ==> multiset(scan) == multiset(full))
  {
    if |Successful(rows)| <= SCAN_LIMIT { FittingScanKeepsAll(rows, threshold, score, topK); }
    ScanAgreesIff(rows, threshold, score, topK);
  }

  /**
   * When the scan is exact, the index path and the scan return the same scores, and the same plans up to ties, if and
   * only if the answer of the index contains topK hits or all hits there are.
   */
  lemma SearchPathsAgreeIff(rows: seq<Row>, fetched: seq<Row>, query: seq<real>, queryNorm: real, distance: Row -> real,
                            threshold: real, topK: nat, cosine: Row -> real)
    requires IsNorm(query, queryNorm) && queryNorm != 0.0 && WellEmbedded(rows, query)
    requires IndexDistances(rows, query, queryNorm, distance) && NearestRows(fetched, rows, distance, 3 * topK)
    requires cosine == ((r: Row) => Cosine(query, r.vector, queryNorm, r.norm))
    requires ScanExact(rows, threshold, cosine, topK)
    ensures var g := (r: Row) => L2ToCosine(distance(r));
      var scan, index := Ranked(Loaded(rows), threshold, cosine, topK), Ranked(fetched, threshold, g, topK);
      var found, all := |Hits(fetched, threshold, g)|, |Hits(rows, threshold, cosine)|;
      && (SameUpToTies(index, scan) <==> found >= topK || found == all)
      && (Scores(index) == Scores(scan) <==> found >= topK || found == all)
      && (all <= topK && found == all ==> multiset(index) == multiset(scan))
  {
    var g := (r: Row) => L2ToCosine(distance(r));
    var scan, full := Ranked(Loaded(rows), threshold, cosine, topK), Ranked(rows, threshold, cosine, topK);
    SameHits(rows, query, queryNorm, distance, threshold);
    ExactScan(rows, threshold, cosine, topK);
    IndexAgreesIff(rows, fetched, distance, threshold, topK, 3 * topK);
    SameTransfers(Ranked(fetched, threshold, g, topK), scan, full);
  }

  /**
   * A condition on the table alone: the two searches agree for every query and threshold with an exact scan when all
   * vectors fit into one index query or at most 2 * topK rows are unsuccessful or unreadable.
   */
  lemma SearchPathsAgree(rows: seq<Row>, fetched: seq<Row>, query: seq<real>, queryNorm: real, distance: Row -> real,
                         threshold: real, topK: nat, cosine: Row -> real)
    requires IsNorm(query, queryNorm) && queryNorm != 0.0 && WellEmbedded(rows, query)
    requires IndexDistances(rows, query, queryNorm, distance) && NearestRows(fetched, rows, distance, 3 * topK)
    requires cosine == ((r: Row) => Cosine(query, r.vector, queryNorm, r.norm))
    requires ScanExact(rows, threshold, cosine, topK)
    requires |rows| <= 3 * topK || |rows| - CountUsable(rows) <= 2 * topK
    ensures var scan := Ranked(Loaded(rows), threshold, cosine, topK);
      var index := Ranked(fetched, threshold, (r: Row) => L2ToCosine(distance(r)), topK);
      && SameUpToTies(index, scan)
      && (|Hits(rows, threshold, cosine)| <= topK ==> multiset(index) == multiset(scan))
  {
    SameHits(rows, query, queryNorm, distance, threshold);
    IndexAgreesIff(rows, fetched, distance, threshold, topK, 3 * topK);
    EnoughFetched(rows, fetched, distance, threshold, topK, 3 * topK);
    SearchPathsAgreeIff(rows, fetched, query, queryNorm, distance, threshold, topK, cosine);
  }

  /**
   * When the scan is exact, as it is for every table whose successes fit into it, then whatever the index answers, the
   * two searches agree up to ties if and only if the hits needed are within reach of 3 * topK rows: a condition on
   * table and query.
   */
  lemma SearchesAlwaysAgreeIff(rows: seq<Row>, query: seq<real>, queryNorm: real, distance: Row -> real,
                               threshold: real, topK: nat, cosine: Row -> real)
    requires IsNorm(query, queryNorm) && queryNorm != 0.0 && WellEmbedded(rows, query)
    requires IndexDistances(rows, query, queryNorm, distance)
    requires cosine == ((r: Row) => Cosine(query, r.vector, queryNorm, r.norm))
    requires ScanExact(rows, threshold, cosine, topK)
    ensures var g := (r: Row) => L2ToCosine(distance(r));
      var scan := Ranked(Loaded(rows), threshold, cosine, topK);
      (forall fetched :: NearestRows(fetched, rows, distance, 3 * topK) ==>
        SameUpToTies(Ranked(fetched, threshold, g, topK), scan))
      <==>
      WithinReach(rows, Qualifies(threshold, g), distance, Needed(rows, threshold, cosine, topK), 3 * topK)
  {
    var g := (r: Row) => L2ToCosine(distance(r));
    var scan, full := Ranked(Loaded(rows), threshold, cosine, topK), Ranked(rows, threshold, cosine, topK);
    SameHits(rows, query, queryNorm, distance, threshold);
    ExactScan(rows, threshold, cosine, topK);
    EveryAnswerAgreesIff(rows, distance, threshold, topK, 3 * topK, g);
    forall fetched
      ensures SameUpToTies(Ranked(fetched, threshold, g, topK), scan) <==>
        SameUpToTies(Ranked(fetched, threshold, g, topK), full)
    {
      SameTransfers(Ranked(fetched, threshold, g, topK), scan, full);
    }
  }
}
