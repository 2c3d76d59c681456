/** Layered system prompts under a token budget (PromptAssembler, youmi/core/prompt.py). */
module PromptAssembly {
  import opened Common
  import opened Counting
  import opened Sorting
  import opened Text

  /** priority 0 is the most important; budget 0 means unlimited. */
  datatype Layer = Layer(name: string, content: string, priority: nat, budget: nat)

  predicate IsCjk(c: char) {
    '\U{4E00}' <= c <= '\U{9FFF}'
  }

  function CjkCount(text: string): (n: nat)
    ensures n <= |text|
  {
    if text == "" then 0 else CjkCount(text[..|text| - 1]) + if IsCjk(text[|text| - 1]) then 1 else 0
  }

  /** Characters per token: 2 when more than half the text is Chinese, 3 when more than a tenth is, else 4. */
  function EstimateTokens(text: string): nat {
    if text == "" then 0
    else
      var cjk := CjkCount(text);
      var divisor := if 2 * cjk > |text| then 2 else if 10 * cjk > |text| then 3 else 4;
      var tokens := |text| / divisor;
      if tokens < 1 then 1 else tokens
  }

  /** The Chinese characters are counted exactly. */
  lemma {:induction false} CjkCounted(text: string)
    ensures CjkCount(text) == |set i | 0 <= i < |text| && '\U{4E00}' <= text[i] <= '\U{9FFF}'|
  {
    if text != "" {
      var n := |text| - 1;
      CjkCounted(text[..n]);
      var before := set i | 0 <= i < n && '\U{4E00}' <= text[..n][i] <= '\U{9FFF}';
      var now := set i | 0 <= i < |text| && '\U{4E00}' <= text[i] <= '\U{9FFF}';
      assert now == before + if '\U{4E00}' <= text[n] <= '\U{9FFF}' then {n} else {};
    }
  }

  /**
   * Two, three or four characters make a token, as the share of Chinese ones demands; a nonempty text is at least one.
   */
  lemma EstimateMeaning(text: string, width: nat)
    requires text != "" && width in {2, 3, 4}
    requires width == 2 <==> |text| < 2 * CjkCount(text)
    requires width <= 3 <==> |text| < 10 * CjkCount(text)
    ensures var tokens := EstimateTokens(text);
      tokens >= 1 && |text| < (tokens + 1) * width && (tokens * width <= |text| || tokens == 1)
  {
    Shared(|text|, width, |text| / width, EstimateTokens(text));
  }

  lemma Shared(length: nat, width: nat, share: nat, tokens: nat)
    requires width in {2, 3, 4} && share == length / width && tokens == if share < 1 then 1 else share
    ensures length < (tokens + 1) * width && (tokens * width <= length || tokens == 1)
  {
    if width == 2 {
      assert share * 2 <= length < (share + 1) * 2;
    } else if width == 3 {
      assert share * 3 <= length < (share + 1) * 3;
    } else {
      assert share * 4 <= length < (share + 1) * 4;
    }
  }

  /** What a layer is charged. */
  function Charge(layer: Layer): nat {
    var tokens := EstimateTokens(layer.content);
    if layer.budget > 0 && tokens > layer.budget then layer.budget else tokens
  }

  /** A layer is charged its tokens, but never more than a budget it has. */
  lemma ChargeMeaning(layer: Layer)
    ensures Charge(layer) <= EstimateTokens(layer.content)
    ensures layer.budget == 0 ==> Charge(layer) == EstimateTokens(layer.content)
    ensures layer.budget > 0 ==>
      Charge(layer) <= layer.budget && (Charge(layer) == layer.budget || Charge(layer) == EstimateTokens(layer.content))
  {
  }

  function Total(layers: seq<Layer>): nat {
    if layers == [] then 0 else Total(layers[..|layers| - 1]) + Charge(layers[|layers| - 1])
  }

  /** The charges of the layers of priority 0. */
  function Reserved(layers: seq<Layer>): nat {
    if layers == [] then 0
    else
      var last := layers[|layers| - 1];
      Reserved(layers[..|layers| - 1]) + (if last.priority == 0 then Charge(last) else 0)
  }

  const CUT_MARK: string := "\n[... 内容已截断 ...]"

  /** A layer that goes into the prompt: whole, or cut down to the tokens that were left. */
  datatype Kept = Whole(layer: Layer) | Cut(layer: Layer, room: nat)

  lemma ShareFits(length: nat, room: nat, tokens: nat)
    requires room < tokens
    ensures 0 <= length * room / tokens <= length
  {
    var product := length * room;
    Monotone(length, room, tokens);
    var q := product / tokens;
    assert q * tokens <= product;
    if q > length { Monotone(tokens, length + 1, q); }
  }

  lemma Monotone(factor: nat, a: nat, b: nat)
    requires a <= b
    ensures factor * a <= factor * b
  {
  }

  /** How many characters of a cut layer stay: the share of its tokens that fits. */
  function KeepLength(length: nat, room: nat, tokens: nat): (keep: nat)
    requires room < tokens
    ensures keep <= length
  {
    ShareFits(length, room, tokens);
    length * room / tokens
  }

  /** The share of its text that a layer keeps is the share of its tokens that fits, rounded down. */
  lemma KeepsShare(length: nat, room: nat, tokens: nat)
    requires room < tokens
    ensures var keep := KeepLength(length, room, tokens); keep * tokens <= length * room < (keep + 1) * tokens
  {
    var product, keep := length * room, KeepLength(length, room, tokens);
    assert product == keep * tokens + product % tokens;
  }

  predicate Renderable(k: Kept) {
    k.Cut? ==> k.room < Charge(k.layer)
  }

  function Rendered(k: Kept): Layer
    requires Renderable(k)
  {
    match k
    case Whole(layer) => layer
    case Cut(layer, room) =>
      layer.(content := layer.content[..KeepLength(|layer.content|, room, Charge(layer))] + CUT_MARK)
  }

  /** A cut layer keeps the beginning of its text and ends with the mark. */
  lemma CutKeepsBeginning(layer: Layer, room: nat)
    requires room < Charge(layer)
    ensures var cut := Rendered(Cut(layer, room));
      && cut.name == layer.name && cut.priority == layer.priority
      && exists keep: nat :: keep <= |layer.content| && KeptShare(layer, room, keep, cut.content)
  {
    KeepsShare(|layer.content|, room, Charge(layer));
    assert KeptShare(layer, room, KeepLength(|layer.content|, room, Charge(layer)), Rendered(Cut(layer, room)).content);
  }

  predicate KeptShare(layer: Layer, room: nat, keep: nat, text: string)
    requires keep <= |layer.content|
  {
    && keep * Charge(layer) <= |layer.content| * room < (keep + 1) * Charge(layer)
    && text == layer.content[..keep] + "\n[... 内容已截断 ...]"
  }

  // ---- Which layers survive ----

  /** Sorted layers start with the zeros layers of priority 0. */
  ghost predicate ZerosFirst(sorted: seq<Layer>, zeros: int) {
    && 0 <= zeros <= |sorted|
    && (forall i :: 0 <= i < zeros ==> sorted[i].priority == 0)
    && (forall i :: zeros <= i < |sorted| ==> sorted[i].priority != 0)
  }

  /** The layers up to m, priority 0 aside, fit one after the other. */
  ghost predicate Fits(sorted: seq<Layer>, zeros: int, limit: int, m: int) {
    && 0 <= zeros <= m <= |sorted|
    && forall k :: zeros <= k < m ==> FitsNext(sorted, limit, k)
  }

  ghost predicate FitsNext(sorted: seq<Layer>, limit: int, k: int)
    requires 0 <= k < |sorted|
  {
    Total(sorted[..k]) < limit && Total(sorted[..k]) + Charge(sorted[k]) <= limit
  }

  ghost predicate WholeUpTo(sorted: seq<Layer>, kept: seq<Kept>, m: int) {
    0 <= m <= |sorted| && m <= |kept| && forall i :: 0 <= i < m ==> kept[i] == Whole(sorted[i])
  }

  /** The survivors: the longest prefix that fits, then, if some room is left, one cut layer, then none. */
  ghost predicate Survives(sorted: seq<Layer>, zeros: int, limit: int, m: int, kept: seq<Kept>) {
    && Fits(sorted, zeros, limit, m) && WholeUpTo(sorted, kept, m)
    && var rest := limit - Total(sorted[..m]);
       if m == |sorted| || rest <= 0 then |kept| == m
       else Charge(sorted[m]) > rest && |kept| == m + 1 && kept[m] == Cut(sorted[m], rest)
  }

  /** Nothing in this is left open: two selections that survive the same limit are the same. */
  lemma SurvivorsUnique(sorted: seq<Layer>, zeros: int, limit: int, m: int, n: int, a: seq<Kept>, b: seq<Kept>)
    requires Survives(sorted, zeros, limit, m, a) && Survives(sorted, zeros, limit, n, b)
    ensures m == n && a == b
  {
    assert m < n ==> FitsNext(sorted, limit, m);
    assert n < m ==> FitsNext(sorted, limit, n);
    assert m == n && |a| == |b|;
    forall i | 0 <= i < |a| ensures a[i] == b[i] {
      if i < m { assert a[i] == Whole(sorted[i]) == b[i]; }
    }
  }

  lemma TotalStep(layers: seq<Layer>, k: nat, next: nat)
    requires next == k + 1 <= |layers|
    ensures Total(layers[..next]) == Total(layers[..k]) + Charge(layers[k])
  {
    assert layers[..next][..k] == layers[..k];
  }

  lemma {:induction false} ReservedIsPrefix(sorted: seq<Layer>, zeros: nat)
    requires ZerosFirst(sorted, zeros)
    ensures Reserved(sorted) == Total(sorted[..zeros])
  {
    if sorted == [] {
      assert sorted[..zeros] == [];
    } else {
      var init := sorted[..|sorted| - 1];
      if zeros == |sorted| {
        ReservedIsPrefix(init, |init|);
        assert sorted[..zeros] == sorted && init[..|init|] == init;
      } else {
        ReservedIsPrefix(init, zeros);
        assert init[..zeros] == sorted[..zeros];
      }
    }
  }

  /**
   * Never more than the larger of the limit and what priority 0 needs is charged, a cut layer counting as the room it
   * is given.
   */
  lemma ChargeBounded(sorted: seq<Layer>, zeros: nat, limit: nat, m: nat, kept: seq<Kept>)
    requires ZerosFirst(sorted, zeros) && Survives(sorted, zeros, limit, m, kept)
    ensures var charged := Total(sorted[..m]) + if |kept| > m then kept[m].room else 0;
      && (charged <= limit || charged == Reserved(sorted))
      && (|kept| > m ==> charged == limit)
  {
    ReservedIsPrefix(sorted, zeros);
    if m > zeros {
      var k := m - 1;
      assert FitsNext(sorted, limit, k);
      TotalStep(sorted, k, m);
    }
  }

  // ---- Sorting puts priority 0 first ----

  function Priority(layer: Layer): real {
    layer.priority as real
  }

  /** The layers stand by rising priority number, equal ones as they were added. */
  lemma LayersSorted(layers: seq<Layer>, p: nat)
    ensures var sorted := Sort(layers, Priority);
      && multiset(sorted) == multiset(layers)
      && (forall i, j :: 0 <= i < j < |sorted| ==> sorted[i].priority <= sorted[j].priority)
      && OfPriority(sorted, p) == OfPriority(layers, p)
  {
    var sorted := Sort(layers, Priority);
    SortSorts(layers, Priority);
    SortStable(layers, Priority, p as real);
    KeyIsPriority(sorted, p);
    KeyIsPriority(layers, p);
    forall i, j | 0 <= i < j < |sorted| ensures sorted[i].priority <= sorted[j].priority {
      assert Priority(sorted[i]) <= Priority(sorted[j]);
    }
  }

  function OfPriority(layers: seq<Layer>, p: nat): seq<Layer> {
    if layers == [] then []
    else
      var last := layers[|layers| - 1];
      OfPriority(layers[..|layers| - 1], p) + if last.priority == p then [last] else []
  }

  lemma {:induction false} KeyIsPriority(layers: seq<Layer>, p: nat)
    ensures WithKey(layers, Priority, p as real) == OfPriority(layers, p)
  {
    if layers != [] { KeyIsPriority(layers[..|layers| - 1], p); }
  }

  lemma {:induction false} SortedZeros(sorted: seq<Layer>) returns (zeros: nat)
    requires Ordered(sorted, Priority)
    ensures ZerosFirst(sorted, zeros)
  {
    if sorted == [] {
      zeros := 0;
    } else {
      var init, last := sorted[..|sorted| - 1], sorted[|sorted| - 1];
      zeros := SortedZeros(init);
      if last.priority == 0 {
        assert zeros < |init| ==> Priority(sorted[zeros]) <= Priority(last);
        zeros := |sorted|;
      }
    }
  }

  // ---- Handing out the budget ----

  /** The state of the second pass after i layers, m of which were kept whole. */
  ghost predicate Handed(sorted: seq<Layer>, zeros: int, limit: int, i: int, m: int, kept: seq<Kept>, remaining: int) {
    && 0 <= m <= i <= |sorted| && 0 <= zeros <= |sorted| && WholeUpTo(sorted, kept, m)
    && if i <= zeros then m == i == |kept| && remaining == limit - Total(sorted[..zeros])
       else
         && Fits(sorted, zeros, limit, m)
         && var rest := limit - Total(sorted[..m]);
            if m == i || rest <= 0 then |kept| == m && remaining == rest
            else Charge(sorted[m]) > rest && |kept| == m + 1 && kept[m] == Cut(sorted[m], rest) && remaining == 0
  }

  /** One turn of the loop. */
  function Hand(kept: seq<Kept>, remaining: int, layer: Layer): seq<Kept> {
    if layer.priority == 0 then kept + [Whole(layer)]
    else if remaining <= 0 then kept
    else if Charge(layer) <= remaining then kept + [Whole(layer)]
    else kept + [Cut(layer, remaining)]
  }

  function RemainingAfter(remaining: int, layer: Layer): int {
    if layer.priority == 0 || remaining <= 0 then remaining
    else if Charge(layer) <= remaining then remaining - Charge(layer)
    else 0
  }

  lemma FitsMore(sorted: seq<Layer>, zeros: int, limit: int, i: nat, next: nat)
    requires next == i + 1 <= |sorted| && Fits(sorted, zeros, limit, i) && FitsNext(sorted, limit, i)
    ensures Fits(sorted, zeros, limit, next)
  {
  }

  lemma WholeMore(sorted: seq<Layer>, kept: seq<Kept>, i: nat, next: nat)
    requires next == i + 1 <= |sorted| && WholeUpTo(sorted, kept, i) && |kept| == i
    ensures WholeUpTo(sorted, kept + [Whole(sorted[i])], next)
  {
  }

  lemma HandStep(sorted: seq<Layer>, zeros: int, limit: int, i: nat, next: nat, m: nat, kept: seq<Kept>, remaining: int)
    returns (n: nat)
    requires next == i + 1 <= |sorted| && ZerosFirst(sorted, zeros) &&
      Handed(sorted, zeros, limit, i, m, kept, remaining)
    ensures Handed(sorted, zeros, limit, next, n, Hand(kept, remaining, sorted[i]),
                   RemainingAfter(remaining, sorted[i]))
  {
    var layer := sorted[i];
    n := m;
    if i < zeros {
      n := next;
      WholeMore(sorted, kept, i, next);
    } else if m == i && remaining > 0 && Charge(layer) <= remaining {
      n := next;
      TotalStep(sorted, i, next);
      WholeMore(sorted, kept, i, next);
      FitsMore(sorted, zeros, limit, i, next);
    } else if m == i && remaining > 0 {
      assert WholeUpTo(sorted, kept + [Cut(layer, remaining)], m);
    }
  }

  // ---- The assembler ----

  function Visible(layers: seq<Layer>): seq<string> {
    if layers == [] then []
    else
      var text := Strip(layers[|layers| - 1].content);
      Visible(layers[..|layers| - 1]) + (if text == "" then [] else [text])
  }

  lemma {:induction false} VisibleMember(layers: seq<Layer>, k: nat) returns (i: nat)
    requires k < |layers| && Strip(layers[k].content) != ""
    ensures i < |Visible(layers)| && Visible(layers)[i] == Strip(layers[k].content)
  {
    if k == |layers| - 1 {
      i := |Visible(layers)| - 1;
    } else {
      i := VisibleMember(layers[..|layers| - 1], k);
    }
  }

  predicate Nonblank(layer: Layer) {
    Strip(layer.content) != ""
  }

  /** The visible texts are the stripped texts of the nonblank layers, each at the place it has among these. */
  lemma {:induction false} VisibleInOrder(layers: seq<Layer>, k: nat)
    requires k < |layers| && Nonblank(layers[k])
    ensures |Visible(layers)| == CountIf(layers, Nonblank) > CountIf(layers[..k], Nonblank)
    ensures Visible(layers)[CountIf(layers[..k], Nonblank)] == Strip(layers[k].content)
  {
    var init := layers[..|layers| - 1];
    VisibleCount(layers);
    VisibleCount(init);
    if k < |layers| - 1 {
      VisibleInOrder(init, k);
      assert init[..k] == layers[..k];
    }
  }

  lemma {:induction false} VisibleCount(layers: seq<Layer>)
    ensures |Visible(layers)| == CountIf(layers, Nonblank)
  {
    if layers != [] { VisibleCount(layers[..|layers| - 1]); }
  }

  method JoinLayers(layers: seq<Layer>) returns (text: string)
    ensures text == Join("\n\n", Visible(layers))
    ensures forall k :: 0 <= k < |layers| ==> Contains(text, Strip(layers[k].content))
  {
    var parts: seq<string> := [];
    var i := 0;
    while i < |layers|
      invariant i <= |layers| && parts == Visible(layers[..i])
    {
      var j := i + 1;
      assert layers[..j][..i] == layers[..i];
      var stripped := Strip(layers[i].content);
      if stripped != "" { parts := parts + [stripped]; }
      i := j;
    }
    assert layers[..|layers|] == layers;
    text := Join("\n\n", parts);
    forall k | 0 <= k < |layers| ensures Contains(text, Strip(layers[k].content)) {
      if Strip(layers[k].content) == "" {
        assert OccursAt(text, "", 0);
      } else {
        var at := VisibleMember(layers, k);
        JoinContains("\n\n", parts, at);
      }
    }
  }

  function Without(layers: seq<Layer>, name: string): seq<Layer> {
    if layers == [] then []
    else
      var last := layers[|layers| - 1];
      Without(layers[..|layers| - 1], name) + (if last.name == name then [] else [last])
  }

  ghost predicate DistinctNames(layers: seq<Layer>) {
    forall i, j :: 0 <= i < j < |layers| ==> layers[i].name != layers[j].name
  }

  lemma {:induction false} WithoutMembers(layers: seq<Layer>, name: string)
    ensures forall l :: l in Without(layers, name) <==> l in layers && l.name != name
  {
    if layers != [] {
      var init, last := layers[..|layers| - 1], layers[|layers| - 1];
      WithoutMembers(init, name);
      assert layers == init + [last];
    }
  }

  lemma {:induction false} WithoutLength(layers: seq<Layer>, name: string)
    ensures |Without(layers, name)| <= |layers|
    ensures |Without(layers, name)| == |layers| <==> forall l :: l in layers ==> l.name != name
  {
    if layers != [] {
      var init, last := layers[..|layers| - 1], layers[|layers| - 1];
      WithoutLength(init, name);
      assert layers == init + [last];
    }
  }

  lemma {:induction false} WithoutDistinct(layers: seq<Layer>, name: string)
    requires DistinctNames(layers)
    ensures DistinctNames(Without(layers, name))
  {
    if layers != [] {
      var init, last := layers[..|layers| - 1], layers[|layers| - 1];
      WithoutDistinct(init, name);
      WithoutMembers(init, name);
      var r := Without(init, name);
      forall i | 0 <= i < |r| ensures r[i].name != last.name {
        assert r[i] in init;
      }
    }
  }

  class PromptAssembler {
    var layers: seq<Layer>

    ghost predicate Valid()
      reads this
    {
      DistinctNames(layers)
    }

    constructor ()
      ensures Valid() && layers == []
    {
      layers := [];
    }

    /** A layer replaces the one of the same name and goes to the end. */
    method AddLayer(layer: Layer)
      requires Valid()
      modifies this
      ensures Valid() && layers == Without(old(layers), layer.name) + [layer]
    {
      RemoveNamed(layer.name);
      WithoutMembers(old(layers), layer.name);
      layers := layers + [layer];
    }

    method RemoveNamed(name: string)
      requires Valid()
      modifies this
      ensures Valid() && layers == Without(old(layers), name)
    {
      var kept: seq<Layer> := [];
      var i := 0;
      while i < |layers|
        invariant i <= |layers| && layers == old(layers) && kept == Without(layers[..i], name)
      {
        var j := i + 1;
        assert layers[..j][..i] == layers[..i];
        if layers[i].name != name { kept := kept + [layers[i]]; }
        i := j;
      }
      assert layers[..|layers|] == layers;
      WithoutDistinct(layers, name);
      layers := kept;
    }

    method RemoveLayer(name: string) returns (removed: bool)
      requires Valid()
      modifies this
      ensures Valid() && layers == Without(old(layers), name)
      ensures removed <==> exists l :: l in old(layers) && l.name == name
    {
      var before := |layers|;
      WithoutLength(layers, name);
      RemoveNamed(name);
      removed := |layers| < before;
    }

    /** The layers that go into the prompt when the limit is exceeded. */
    method Cutback(sorted: seq<Layer>, limit: nat) returns (result: seq<Layer>)
      requires Ordered(sorted, Priority) && limit > 0 && Total(sorted) > limit
      ensures Chosen(sorted, limit, result)
    {
      ghost var zeros := SortedZeros(sorted);
      ghost var m: nat := 0;
      ghost var kept: seq<Kept> := [];
      ReservedIsPrefix(sorted, zeros);
      var remaining: int := limit - Reserved(sorted);
      result := [];
      var i := 0;
      while i < |sorted|
        invariant i <= |sorted| && Handed(sorted, zeros, limit, i, m, kept, remaining) && RenderedAs(result, kept)
      {
        var layer, next := sorted[i], i + 1;
        m := HandStep(sorted, zeros, limit, i, next, m, kept, remaining);
        kept := Hand(kept, remaining, layer);
        if layer.priority == 0 {
          result := result + [layer];
        } else if remaining > 0 {
          if Charge(layer) <= remaining {
            result := result + [layer];
            remaining := remaining - Charge(layer);
          } else {
            result := result + [Rendered(Cut(layer, remaining))];
            remaining := 0;
          }
        }
        i := next;
      }
      assert Reduced(sorted, zeros, limit, m, kept, result);
    }

    /** The prompt shows every layer of priority 0 whole, whatever the limit, and every layer whole if they fit. */
    method Assemble(limit: nat) returns (prompt: string, ghost shown: seq<Layer>)
      ensures prompt == Join("\n\n", Visible(shown)) && Chosen(Sort(layers, Priority), limit, shown)
      ensures forall l :: l in layers && l.priority == 0 ==> Contains(prompt, Strip(l.content))
      ensures limit == 0 || Total(Sort(layers, Priority)) <= limit ==> forall l :: l in layers ==>
        Contains(prompt, Strip(l.content))
    {
      if layers == [] { return "", []; }
      var sorted := SortBy(layers, Priority);
      SortSorts(layers, Priority);
      SameMembers(layers, sorted);
      if limit == 0 || Total(sorted) <= limit {
        shown := sorted;
        prompt := JoinLayers(sorted);
      } else {
        var result := Cutback(sorted, limit);
        shown := result;
        prompt := JoinLayers(result);
        forall l | l in layers && l.priority == 0 ensures Contains(prompt, Strip(l.content)) {
          ZeroLayersShown(sorted, limit, result, l);
        }
      }
    }
  }

  ghost predicate Reduced(sorted: seq<Layer>, zeros: int, limit: int, m: int, kept: seq<Kept>, shown: seq<Layer>) {
    ZerosFirst(sorted, zeros) && Survives(sorted, zeros, limit, m, kept) && RenderedAs(shown, kept)
  }

  /** The layers a prompt is made of: all of them, or the survivors of the limit. */
  ghost predicate Chosen(sorted: seq<Layer>, limit: nat, shown: seq<Layer>) {
    if limit == 0 || Total(sorted) <= limit then shown == sorted
    else exists zeros, m, kept :: Reduced(sorted, zeros, limit, m, kept, shown)
  }

  lemma ZeroLayersShown(sorted: seq<Layer>, limit: nat, shown: seq<Layer>, l: Layer)
    requires Chosen(sorted, limit, shown) && limit > 0 && Total(sorted) > limit && l in sorted && l.priority == 0
    ensures l in shown
  {
    var zeros, m, kept :| Reduced(sorted, zeros, limit, m, kept, shown);
    var k :| 0 <= k < |sorted| && sorted[k] == l;
    assert k < zeros && kept[k] == Whole(l) && shown[k] == l;
  }

  ghost predicate RenderedAs(result: seq<Layer>, kept: seq<Kept>) {
    |result| == |kept| && forall i :: 0 <= i < |kept| ==> Renderable(kept[i]) && result[i] == Rendered(kept[i])
  }
}
