/** When the index and the scan of the plan memory return the same plans (youmi/coordinator/plan_memory.py). */
module SearchAgreement {
  import opened Common
  import opened Sorting
  import opened Vectors
  import opened PlanSearch

  function Successful(rows: seq<Row>): seq<Row> {
    if rows == [] then []
    else Successful(rows[..|rows| - 1]) + if rows[|rows| - 1].success then [rows[|rows| - 1]] else []
  }

  const SCAN_LIMIT: nat := 200

  /** What the scan loads: at most SCAN_LIMIT successful rows, taken in table order (most recently updated first). */
  function Loaded(rows: seq<Row>): seq<Row> {
    Prefix(Successful(rows), SCAN_LIMIT)
  }

  lemma {:induction false} LoadedHits(rows: seq<Row>, threshold: real, score: Row -> real)
    ensures |Successful(rows)| <= |rows|
    ensures Hits(Successful(rows), threshold, score) == Hits(rows, threshold, score)
  {
    if rows != [] {
      var init, last := rows[..|rows| - 1], rows[|rows| - 1];
      LoadedHits(init, threshold, score);
      if last.success {
        HitsOneMore(Successful(init), last, threshold, score);
      } else {
        assert Successful(rows) == Successful(init);
      }
    }
  }

  /** The answer of the index: k rows, or all if there are fewer, and no row left out is nearer than one returned. */
  ghost predicate NearestRows(fetched: seq<Row>, rows: seq<Row>, distance: Row -> real, k: nat) {
    && multiset(fetched) <= multiset(rows)
    && |fetched| == (if |rows| <= k then |rows| else k)
    && forall r, f :: f in fetched && multiset(fetched)[r] < multiset(rows)[r] ==> distance(f) <= distance(r)
  }

  ghost predicate WellEmbedded(rows: seq<Row>, query: seq<real>) {
    forall r :: r in rows ==> |r.vector| == |query| && IsNorm(r.vector, r.norm) && r.norm != 0.0
  }

  /** distance gives, for each row, the L2 distance between the normalised query and the normalised embedding. */
  ghost predicate IndexDistances(rows: seq<Row>, query: seq<real>, queryNorm: real, distance: Row -> real)
    requires WellEmbedded(rows, query)
  {
    forall r :: r in rows ==> IsDistance(Normalize(query, queryNorm), Normalize(r.vector, r.norm), distance(r))
  }

  // ---- Splitting the rows into fetched and left out ----

  lemma {:induction false} AsSequence<T>(m: multiset<T>) returns (s: seq<T>)
    ensures multiset(s) == m
    decreases |m|
  {
    if m == multiset{} {
      s := [];
    } else {
      var x :| x in m;
      var t := AsSequence(m - multiset{x});
      s := t + [x];
    }
  }

  /** A row whose plan can be returned at all. */
  predicate Usable(r: Row) {
    r.success && r.plan.Some?
  }

  function CountUsable(rows: seq<Row>): nat {
    if rows == [] then 0 else CountUsable(rows[..|rows| - 1]) + if Usable(rows[|rows| - 1]) then 1 else 0
  }

  lemma {:induction false} HitSource(rows: seq<Row>, threshold: real, score: Row -> real, h: Hit) returns (r: Row)
    requires h in Hits(rows, threshold, score)
    ensures r in rows && Usable(r) && h == Hit(r.plan.value, score(r)) && score(r) >= threshold
  {
    var init, last := rows[..|rows| - 1], rows[|rows| - 1];
    if h in Hits(init, threshold, score) {
      r := HitSource(init, threshold, score, h);
    } else {
      assert h in HitOf(last, threshold, score);
      r := last;
    }
  }

  /** If every usable row meets the threshold, every usable row is a hit. */
  lemma {:induction false} AllUsableHit(rows: seq<Row>, threshold: real, score: Row -> real)
    requires forall r :: r in rows && Usable(r) ==> score(r) >= threshold
    ensures |Hits(rows, threshold, score)| == CountUsable(rows)
  {
    if rows != [] { AllUsableHit(rows[..|rows| - 1], threshold, score); }
  }

  lemma {:induction false} NoHits(rows: seq<Row>, threshold: real, score: Row -> real)
    requires forall r :: r in rows ==> !r.success || score(r) < threshold
    ensures Hits(rows, threshold, score) == []
  {
    if rows != [] { NoHits(rows[..|rows| - 1], threshold, score); }
  }

  /** Nearer rows score at least as high. */
  lemma NearerScoresHigher(near: real, far: real)
    requires 0.0 <= near <= far
    ensures L2ToCosine(far) <= L2ToCosine(near)
  {
    SquareOrdered(near, far);
  }

  /** The rows the index leaves out; none of them scores above a row it returns. */
  lemma Remainder(rows: seq<Row>, fetched: seq<Row>, distance: Row -> real, k: nat) returns (rest: seq<Row>)
    requires NearestRows(fetched, rows, distance, k) && forall r :: r in rows ==> distance(r) >= 0.0
    ensures multiset(rows) == multiset(fetched + rest) && |rows| == |fetched| + |rest|
    ensures forall f, r :: f in fetched && r in rest ==> L2ToCosine(distance(r)) <= L2ToCosine(distance(f))
  {
    rest := LeftRows(rows, fetched, distance, k);
    SameMembers(rows, fetched + rest);
    forall f, r | f in fetched && r in rest ensures L2ToCosine(distance(r)) <= L2ToCosine(distance(f)) {
      NearerScoresHigher(distance(f), distance(r));
    }
  }

  lemma LeftRows(rows: seq<Row>, fetched: seq<Row>, distance: Row -> real, k: nat) returns (rest: seq<Row>)
    requires NearestRows(fetched, rows, distance, k)
    ensures multiset(rows) == multiset(fetched + rest) && |rows| == |fetched| + |rest|
    ensures forall f, r :: f in fetched && r in rest ==> distance(f) <= distance(r)
  {
    var all, got := multiset(rows), multiset(fetched);
    rest := AsSequence(all - got);
    assert all == got + (all - got);
    assert |rows| == |all| == |multiset(fetched + rest)| == |fetched| + |rest|;
    forall f, r | f in fetched && r in rest ensures distance(f) <= distance(r) {
      assert r in multiset(rest) && f in got;
    }
  }

  // ---- Ranking a part against ranking everything ----

  lemma JoinOrdered(a: seq<Hit>, b: seq<Hit>)
    requires Ordered(a, Loss) && Ordered(b, Loss)
    requires forall x, y :: x in a && y in b ==> y.score <= x.score
    ensures Ordered(a + b, Loss)
  {
    var c := a + b;
    forall i, j | 0 <= i < j < |c| ensures Loss(c[i]) <= Loss(c[j]) {
      if i < |a| <= j { assert c[i] in a && c[j] in b; }
    }
  }

  lemma SortedJoin(part: seq<Hit>, lost: seq<Hit>)
    requires forall x, y :: x in part && y in lost ==> y.score <= x.score
    ensures Ordered(Sort(part, Loss) + Sort(lost, Loss), Loss)
  {
    SortSorts(part, Loss);
    SortSorts(lost, Loss);
    SameMembers(part, Sort(part, Loss));
    SameMembers(lost, Sort(lost, Loss));
    JoinOrdered(Sort(part, Loss), Sort(lost, Loss));
  }

  lemma SortedJoinPermutes(part: seq<Hit>, lost: seq<Hit>)
    ensures multiset(Sort(part, Loss) + Sort(lost, Loss)) == multiset(part + lost)
  {
    SortSorts(part, Loss);
    SortSorts(lost, Loss);
  }

  /** Both lists of hits, sorted, one after the other are what sorting all hits gives, up to ties. */
  lemma JoinedRanking(all: seq<Hit>, part: seq<Hit>, lost: seq<Hit>, joined: seq<Hit>, k: nat)
    requires multiset(all) == multiset(part + lost) && joined == Sort(part, Loss) + Sort(lost, Loss)
    requires forall x, y :: x in part && y in lost ==> y.score <= x.score
    ensures SameUpToTies(Prefix(joined, k), Prefix(Sort(all, Loss), k))
    ensures |joined| <= k ==> multiset(Prefix(joined, k)) == multiset(Prefix(Sort(all, Loss), k))
  {
    SortedJoin(part, lost);
    SortedJoinPermutes(part, lost);
    SortSorts(all, Loss);
    TopSame(joined, Sort(all, Loss), k);
  }

  lemma ShorterDiffers(a: seq<Hit>, b: seq<Hit>)
    requires |a| < |b|
    ensures Scores(a) != Scores(b)
  {
    assert |Scores(a)| == |a| && |Scores(b)| == |b|;
  }

  lemma EnoughKept(all: seq<Hit>, part: seq<Hit>, lost: seq<Hit>, k: nat)
    requires multiset(all) == multiset(part + lost) && |part| >= k
    requires forall x, y :: x in part && y in lost ==> y.score <= x.score
    ensures SameUpToTies(Prefix(Sort(part, Loss), k), Prefix(Sort(all, Loss), k))
  {
    var p, joined := Sort(part, Loss), Sort(part, Loss) + Sort(lost, Loss);
    SortLength(part);
    assert Prefix(joined, k) == Prefix(p, k);
    JoinedRanking(all, part, lost, joined, k);
  }

  lemma NothingLost(all: seq<Hit>, part: seq<Hit>, k: nat)
    requires multiset(all) == multiset(part)
    ensures SameUpToTies(Prefix(Sort(part, Loss), k), Prefix(Sort(all, Loss), k))
    ensures |all| <= k ==> multiset(Prefix(Sort(part, Loss), k)) == multiset(Prefix(Sort(all, Loss), k))
  {
    SortSorts(part, Loss);
    SortSorts(all, Loss);
    assert |all| == |multiset(all)| == |part|;
    TopSame(Sort(part, Loss), Sort(all, Loss), k);
  }

  lemma TooFewKept(all: seq<Hit>, part: seq<Hit>, k: nat)
    requires |part| < k && |part| < |all|
    ensures Scores(Prefix(Sort(part, Loss), k)) != Scores(Prefix(Sort(all, Loss), k))
  {
    SortLength(part);
    SortLength(all);
    ShorterDiffers(Prefix(Sort(part, Loss), k), Prefix(Sort(all, Loss), k));
  }

  lemma SortLength(s: seq<Hit>)
    ensures |Sort(s, Loss)| == |s|
  {
    SortSorts(s, Loss);
  }

  /**
   * For any answer of the index to a query for k rows: ranking it gives the scores, and up to ties the plans, that
   * ranking all rows gives if and only if it contains topK hits or all hits there are.
   */
  lemma IndexAgreesIff(rows: seq<Row>, fetched: seq<Row>, distance: Row -> real, threshold: real, topK: nat, k: nat)
    requires NearestRows(fetched, rows, distance, k) && forall r :: r in rows ==> distance(r) >= 0.0
    ensures var g := (r: Row) => L2ToCosine(distance(r));
      var index, full := Ranked(fetched, threshold, g, topK), Ranked(rows, threshold, g, topK);
      var found, all := |Hits(fetched, threshold, g)|, |Hits(rows, threshold, g)|;
      && found <= all
      && (SameUpToTies(index, full) <==> found >= topK || found == all)
      && (Scores(index) == Scores(full) <==> found >= topK || found == all)
      && (all <= topK && found == all ==> multiset(index) == multiset(full))
  {
    var g := (r: Row) => L2ToCosine(distance(r));
    var rest := Remainder(rows, fetched, distance, k);
    var part, lost, all := Hits(fetched, threshold, g), Hits(rest, threshold, g), Hits(rows, threshold, g);
    HitsPermute(rows, fetched + rest, threshold, g);
    HitsConcat(fetched, rest, threshold, g);
    assert |all| == |multiset(all)| == |part| + |lost|;
    forall x, y | x in part && y in lost ensures y.score <= x.score {
      var f := HitSource(fetched, threshold, g, x);
      var r := HitSource(rest, threshold, g, y);
    }
    if lost == [] {
      assert part + lost == part;
      NothingLost(all, part, topK);
    } else if |part| >= topK {
      EnoughKept(all, part, lost, topK);
    } else {
      TooFewKept(all, part, topK);
    }
  }

  /** Enough usable rows in the answer, or all rows: then no better hit can be missing. */
  lemma EnoughFetched(rows: seq<Row>, fetched: seq<Row>, distance: Row -> real, threshold: real, topK: nat, k: nat)
    requires NearestRows(fetched, rows, distance, k) && forall r :: r in rows ==> distance(r) >= 0.0
    requires |rows| <= k || |rows| - CountUsable(rows) + topK <= k
    ensures var g := (r: Row) => L2ToCosine(distance(r));
      var found, all := |Hits(fetched, threshold, g)|, |Hits(rows, threshold, g)|;
      found >= topK || found == all
  {
    var g := (r: Row) => L2ToCosine(distance(r));
    var rest := Remainder(rows, fetched, distance, k);
    HitsPermute(rows, fetched + rest, threshold, g);
    HitsConcat(fetched, rest, threshold, g);
    assert |Hits(rows, threshold, g)| == |multiset(Hits(rows, threshold, g))| ==
      |Hits(fetched, threshold, g)| + |Hits(rest, threshold, g)|;
    if |rows| > k {
      if f :| f in fetched && Usable(f) && g(f) < threshold {
        NoHits(rest, threshold, g);
      } else {
        AllUsableHit(fetched, threshold, g);
        UsableSplit(rows, fetched, rest);
      }
    }
  }

  function Zero(r: Row): real {
    0.0
  }

  lemma UsableSplit(rows: seq<Row>, fetched: seq<Row>, rest: seq<Row>)
    requires multiset(rows) == multiset(fetched + rest)
    ensures CountUsable(rows) == CountUsable(fetched) + CountUsable(rest) && CountUsable(rest) <= |rest|
  {
    AllUsableHit(rows, 0.0, Zero);
    AllUsableHit(fetched, 0.0, Zero);
    AllUsableHit(rest, 0.0, Zero);
    HitsPermute(rows, fetched + rest, 0.0, Zero);
    HitsConcat(fetched, rest, 0.0, Zero);
    assert |Hits(rows, 0.0, Zero)| == |multiset(Hits(rows, 0.0, Zero))| ==
      |Hits(fetched, 0.0, Zero)| + |Hits(rest, 0.0, Zero)|;
    UsableBound(rest);
  }

  lemma {:induction false} UsableBound(rows: seq<Row>)
    ensures CountUsable(rows) <= |rows|
  {
    if rows != [] { UsableBound(rows[..|rows| - 1]); }
  }

  // ---- The two searches of the plan memory ----

  /** Over well-embedded rows the cosine and the score computed from the index distance find the same hits. */
  lemma SameHits(rows: seq<Row>, query: seq<real>, queryNorm: real, distance: Row -> real, threshold: real)
    requires IsNorm(query, queryNorm) && queryNorm != 0.0 && WellEmbedded(rows, query)
    requires IndexDistances(rows, query, queryNorm, distance)
    ensures Hits(rows, threshold, (r: Row) => Cosine(query, r.vector, queryNorm, r.norm)) ==
      Hits(rows, threshold, (r: Row) => L2ToCosine(distance(r)))
  {
    var cosine := (r: Row) => Cosine(query, r.vector, queryNorm, r.norm);
    var g := (r: Row) => L2ToCosine(distance(r));
    forall r | r in rows ensures cosine(r) == g(r) {
      KnnScoreExactIff(query, r.vector, queryNorm, r.norm, distance(r));
    }
    HitsSameScore(rows, threshold, cosine, g);
  }

  /** While the successes fit into one scan, scanning with the cosine is ranking all rows by index score. */
  lemma ScanRanksAll(rows: seq<Row>, query: seq<real>, queryNorm: real, distance: Row -> real, threshold: real,
                     topK: nat)
    requires IsNorm(query, queryNorm) && queryNorm != 0.0 && WellEmbedded(rows, query)
    requires IndexDistances(rows, query, queryNorm, distance) && |Successful(rows)| <= SCAN_LIMIT
    ensures var cosine := (r: Row) => Cosine(query, r.vector, queryNorm, r.norm);
      var g := (r: Row) => L2ToCosine(distance(r));
      && Hits(rows, threshold, cosine) == Hits(rows, threshold, g)
      && Ranked(Loaded(rows), threshold, cosine, topK) == Ranked(rows, threshold, g, topK)
  {
    var cosine := (r: Row) => Cosine(query, r.vector, queryNorm, r.norm);
    SameHits(rows, query, queryNorm, distance, threshold);
    LoadedHits(rows, threshold, cosine);
  }

  /**
   * The index applies its limit before the success filter: once the nearest rows are all failures it finds nothing, and
   * then it agrees with ranking all rows only if there is nothing to find.
   */
  lemma FailuresCrowdOutIndex(rows: seq<Row>, fetched: seq<Row>, failures: multiset<Row>, distance: Row -> real,
                              threshold: real, topK: nat)
    requires NearestRows(fetched, rows, distance, 3 * topK) && forall r :: r in rows ==> distance(r) >= 0.0
    requires failures <= multiset(rows) && |failures| >= 3 * topK
    requires forall r :: r in failures ==> !r.success
    requires forall r, s :: r in failures && s in rows && s.success ==> distance(r) < distance(s)
    ensures var g := (r: Row) => L2ToCosine(distance(r));
      var index, full := Ranked(fetched, threshold, g, topK), Ranked(rows, threshold, g, topK);
      && index == []
      && (SameUpToTies(index, full) <==> topK == 0 || Hits(rows, threshold, g) == [])
  {
    var g := (r: Row) => L2ToCosine(distance(r));
    var got := multiset(fetched);
    forall r | r in fetched ensures !r.success {
      if r.success {
        var x := LeftOut(got, failures, r);
      }
    }
    NoHits(fetched, threshold, g);
    IndexAgreesIff(rows, fetched, distance, threshold, topK, 3 * topK);
  }

  // ---- A table on which the two searches differ ----

  const FAILURE: Row := Row(Some("failed"), false, [1.0, 0.0], 1.0)
  const SUCCESS: Row := Row(Some("done"), true, [0.28, 0.96], 1.0)
  const TABLE: seq<Row> := [SUCCESS, FAILURE, FAILURE, FAILURE]

  function TableDistance(r: Row): real {
    if r.success then 1.2 else 0.0
  }

  lemma TwoDimensions(a: seq<real>, b: seq<real>)
    requires |a| == |b| == 2
    ensures Dot(a, b) == a[0] * b[0] + a[1] * b[1]
    ensures DistanceSquared(a, b) == (a[0] - b[0]) * (a[0] - b[0]) + (a[1] - b[1]) * (a[1] - b[1])
  {
    var a1, b1 := a[..1], b[..1];
    assert a1[..0] == [] && b1[..0] == [];
    assert Dot(a1, b1) == a[0] * b[0];
    assert DistanceSquared(a1, b1) == (a[0] - b[0]) * (a[0] - b[0]);
  }

  /** The table meets every assumption on embeddings and distances for the query [1, 0]. */
  lemma TableIsGenuine()
    ensures IsNorm([1.0, 0.0], 1.0) && WellEmbedded(TABLE, [1.0, 0.0])
    ensures IndexDistances(TABLE, [1.0, 0.0], 1.0, TableDistance)
  {
    var q, v := [1.0, 0.0], [0.28, 0.96];
    TwoDimensions(q, q);
    TwoDimensions(v, v);
    TwoDimensions(q, v);
    assert Scale(q, 1.0) == q && Scale(v, 1.0) == v;
    TableMembers();
  }

  /**
   * Whatever the index answers there for one wanted plan, it returns none, while the scan returns the successful one.
   */
  lemma SearchPathsDiffer(fetched: seq<Row>, query: seq<real>, distance: Row -> real)
    requires query == [1.0, 0.0] && distance == TableDistance && NearestRows(fetched, TABLE, distance, 3)
    ensures IsNorm(query, 1.0) && WellEmbedded(TABLE, query) && IndexDistances(TABLE, query, 1.0, distance)
    ensures Ranked(fetched, 0.25, (r: Row) => L2ToCosine(distance(r)), 1) == []
    ensures Ranked(Loaded(TABLE), 0.25, (r: Row) => Cosine(query, r.vector, 1.0, r.norm), 1) == [Hit("done", 0.28)]
  {
    TableIsGenuine();
    TableIndex(fetched, distance);
    TableScan(query, distance);
  }

  lemma TableIndex(fetched: seq<Row>, distance: Row -> real)
    requires distance == TableDistance && NearestRows(fetched, TABLE, distance, 3)
    ensures Ranked(fetched, 0.25, (r: Row) => L2ToCosine(distance(r)), 1) == []
  {
    TableMembers();
    var failures := TableFailures();
    FailuresCrowdOutIndex(TABLE, fetched, failures, distance, 0.25, 1);
  }

  lemma TableFailures() returns (failures: multiset<Row>)
    ensures failures <= multiset(TABLE) && |failures| == 3 && forall r :: r in failures ==> r == FAILURE
  {
    var f := [FAILURE, FAILURE, FAILURE];
    assert TABLE == [SUCCESS] + f;
    failures := multiset(f);
  }

  lemma TableMembers()
    ensures forall r :: r in TABLE ==> r == SUCCESS || r == FAILURE
  {
  }

  lemma TableScan(query: seq<real>, distance: Row -> real)
    requires query == [1.0, 0.0] && distance == TableDistance
    ensures Ranked(Loaded(TABLE), 0.25, (r: Row) => Cosine(query, r.vector, 1.0, r.norm), 1) == [Hit("done", 0.28)]
  {
    TableIsGenuine();
    LoadedHits(TABLE, 0.25, Zero);
    ScanRanksAll(TABLE, query, 1.0, distance, 0.25, 1);
    TableHits(distance);
  }

  lemma TableHits(distance: Row -> real)
    requires distance == TableDistance
    ensures Ranked(TABLE, 0.25, (r: Row) => L2ToCosine(distance(r)), 1) == [Hit("done", 0.28)]
  {
    var g := (r: Row) => L2ToCosine(distance(r));
    var f := [FAILURE, FAILURE, FAILURE];
    assert TABLE == [SUCCESS] + f;
    NoHits(f, 0.25, g);
    HitsConcat([SUCCESS], f, 0.25, g);
    assert g(SUCCESS) == 0.28;
    assert [SUCCESS][..0] == [];
    assert Hits([SUCCESS], 0.25, g) == [Hit("done", 0.28)];
    var h := [Hit("done", 0.28)];
    assert h[..0] == [];
    assert Sort(h, Loss) == h;
  }
}
