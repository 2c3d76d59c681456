/** The execution order is fixed, layer by layer and position by position, by what its layers mean. */
module LayerOrder {
  import opened Common
  import opened WorkflowPlans
  import opened ExecutionOrder

  /**
   * Inside a layer x stands before y if and only if its last dependency in the layer before, by position there, comes
   * earlier, or it is the same one and x stands before y in the plan; in the first layer the plan alone decides.
   */
  lemma StandsBeforeIff(plan: Plan, layers: seq<seq<string>>, k: nat, i: nat, j: nat)
    requires InOrder(plan, layers) && k < |layers| && i < |layers[k]| && j < |layers[k]|
    ensures i < j <==> StandsBefore(plan, Previous(layers, k), layers[k][i], layers[k][j])
    ensures k == 0 ==> (i < j <==> Place(plan.steps, layers[k][i]) < Place(plan.steps, layers[k][j]))
  {
    assert Arranged(plan, Previous(layers, k), layers[k]);
    if j < i { assert StandsBefore(plan, Previous(layers, k), layers[k][j], layers[k][i]); }
  }

  /** Two arrangements of the same steps are the same list. */
  lemma {:induction false} ArrangedUnique(plan: Plan, previous: seq<string>, a: seq<string>, b: seq<string>)
    requires Arranged(plan, previous, a) && Arranged(plan, previous, b)
    requires forall x :: x in a <==> x in b
    ensures a == b
  {
    if a != [] && b != [] {
      var n, m := |a| - 1, |b| - 1;
      LastSame(plan, previous, a, b);
      forall x ensures x in a[..n] <==> x in b[..m] {
        InitMembers(plan, previous, a, n, x);
        InitMembers(plan, previous, b, m, x);
      }
      ArrangedUnique(plan, previous, a[..n], b[..m]);
      assert a == a[..n] + [a[n]] && b == b[..m] + [b[m]];
    } else {
      if b != [] { SomeMember(a, b); }
      if a != [] { SomeMember(b, a); }
    }
  }

  lemma SomeMember(a: seq<string>, b: seq<string>)
    requires b != [] && forall x :: x in b ==> x in a
    ensures a != []
  {
    assert b[0] in b;
  }

  lemma LastSame(plan: Plan, previous: seq<string>, a: seq<string>, b: seq<string>)
    requires Arranged(plan, previous, a) && Arranged(plan, previous, b) && a != [] && b != []
    requires forall x :: x in a <==> x in b
    ensures a[|a| - 1] == b[|b| - 1]
  {
    var x, y := a[|a| - 1], b[|b| - 1];
    assert x in b && y in a;
    var i :| 0 <= i < |b| && b[i] == x;
    var j :| 0 <= j < |a| && a[j] == y;
    if i < |b| - 1 && j < |a| - 1 {
      assert StandsBefore(plan, previous, x, y) && StandsBefore(plan, previous, y, x);
    }
  }

  lemma InitMembers(plan: Plan, previous: seq<string>, a: seq<string>, n: nat, x: string)
    requires Arranged(plan, previous, a) && |a| == n + 1
    ensures x in a[..n] <==> x in a && x != a[n]
  {
    if x in a[..n] {
      var i :| 0 <= i < n && a[..n][i] == x;
      assert StandsBefore(plan, previous, a[i], a[n]);
    }
  }

  /** Both layerings of a plan have the same steps in each layer. */
  lemma SameLayer(plan: Plan, a: seq<seq<string>>, b: seq<seq<string>>, k: nat, x: string)
    requires Layering(plan, a) && Layering(plan, b) && k < |a| && x in a[k]
    ensures k < |b| && x in b[k]
  {
    FlattenMember(a, x);
    LaidOutIffNotBlocked(plan, a, x);
    LaidOutIffNotBlocked(plan, b, x);
    LayerIsLongestChain(plan, a, k, x);
    LayerIsLongestChain(plan, b, k, x);
  }

  lemma SameDepth(plan: Plan, a: seq<seq<string>>, b: seq<seq<string>>)
    requires Layering(plan, a) && Layering(plan, b)
    ensures |a| <= |b|
  {
    if a != [] {
      var k := |a| - 1;
      SameLayer(plan, a, b, k, a[k][0]);
    }
  }

  lemma {:induction false} SamePrefix(plan: Plan, a: seq<seq<string>>, b: seq<seq<string>>, k: nat)
    requires Layering(plan, a) && Layering(plan, b) && InOrder(plan, a) && InOrder(plan, b) && k <= |a| == |b|
    ensures a[..k] == b[..k]
  {
    if k > 0 {
      var h := k - 1;
      SamePrefix(plan, a, b, h);
      PreviousSame(a, b, h);
      NextLayerSame(plan, a, b, h, Previous(a, h));
      GrowSame(a, b, h, k);
    }
  }

  lemma GrowSame(a: seq<seq<string>>, b: seq<seq<string>>, h: nat, k: nat)
    requires k == h + 1 && k <= |a| && k <= |b| && a[..h] == b[..h] && a[h] == b[h]
    ensures a[..k] == b[..k]
  {
    assert a[..k] == a[..h] + [a[h]] && b[..k] == b[..h] + [b[h]];
  }

  lemma PreviousSame(a: seq<seq<string>>, b: seq<seq<string>>, h: nat)
    requires h <= |a| && h <= |b| && a[..h] == b[..h]
    ensures Previous(a, h) == Previous(b, h)
  {
    if h > 0 { assert a[h - 1] == a[..h][h - 1] && b[h - 1] == b[..h][h - 1]; }
  }

  lemma NextLayerSame(plan: Plan, a: seq<seq<string>>, b: seq<seq<string>>, h: nat, previous: seq<string>)
    requires Layering(plan, a) && Layering(plan, b) && InOrder(plan, a) && InOrder(plan, b) && h < |a| == |b|
    requires previous == Previous(a, h) == Previous(b, h)
    ensures a[h] == b[h]
  {
    forall x ensures x in a[h] <==> x in b[h] {
      if x in a[h] { SameLayer(plan, a, b, h, x); }
      if x in b[h] { SameLayer(plan, b, a, h, x); }
    }
    ArrangedUnique(plan, previous, a[h], b[h]);
  }

  /** A plan has one layering whose layers stand in order, so the list the code returns is that one. */
  lemma OrderUnique(plan: Plan, a: seq<seq<string>>, b: seq<seq<string>>)
    requires Layering(plan, a) && Layering(plan, b) && InOrder(plan, a) && InOrder(plan, b)
    ensures a == b
  {
    SameDepth(plan, a, b);
    SameDepth(plan, b, a);
    SamePrefix(plan, a, b, |a|);
    assert a[..|a|] == a && b[..|b|] == b;
  }
}
