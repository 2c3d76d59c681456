/** How many entries of a list meet a condition. */
module Counting {
  import opened Common

  function CountIf<T>(s: seq<T>, p: T -> bool): nat {
    if s == [] then 0 else CountIf(s[..|s| - 1], p) + if p(s[|s| - 1]) then 1 else 0
  }

  function Not<T>(p: T -> bool): T -> bool {
    x => !p(x)
  }

  lemma CountOneMore<T>(s: seq<T>, x: T, p: T -> bool)
    ensures CountIf(s + [x], p) == CountIf(s, p) + if p(x) then 1 else 0
  {
    assert (s + [x])[..|s|] == s;
  }

  lemma {:induction false} CountConcat<T>(a: seq<T>, b: seq<T>, p: T -> bool)
    ensures CountIf(a + b, p) == CountIf(a, p) + CountIf(b, p)
  {
    if b == [] {
      assert a + b == a;
    } else {
      var init, last := b[..|b| - 1], b[|b| - 1];
      CountConcat(a, init, p);
      CountOneMore(a + init, last, p);
      assert a + b == (a + init) + [last];
    }
  }

  /** The order of the entries does not matter. */
  lemma {:induction false} CountPermute<T>(a: seq<T>, b: seq<T>, p: T -> bool)
    requires multiset(a) == multiset(b)
    ensures CountIf(a, p) == CountIf(b, p)
    decreases |a|
  {
    if a == [] {
      assert |b| == |multiset(b)| == 0;
    } else {
      var init, last := a[..|a| - 1], a[|a| - 1];
      var front, back := TakeOut(a, b);
      CountPermute(init, front + back, p);
      CountConcat(front, back, p);
      CountConcat(front + [last], back, p);
      CountOneMore(front, last, p);
    }
  }

  lemma {:induction false} CountMonotone<T>(s: seq<T>, p: T -> bool, q: T -> bool)
    requires forall x :: x in s && p(x) ==> q(x)
    ensures CountIf(s, p) <= CountIf(s, q)
  {
    if s != [] { CountMonotone(s[..|s| - 1], p, q); }
  }

  lemma {:induction false} CountBounds<T>(s: seq<T>, p: T -> bool)
    ensures CountIf(s, p) + CountIf(s, Not(p)) == |s|
    ensures CountIf(s, p) == 0 <==> forall x :: x in s ==> !p(x)
    ensures CountIf(s, p) == |s| <==> forall x :: x in s ==> p(x)
  {
    if s != [] {
      var init, last := s[..|s| - 1], s[|s| - 1];
      CountBounds(init, p);
      assert forall x :: x in s <==> x in init || x == last;
    }
  }

  /** Splitting a list up, in any order, splits the count. */
  lemma CountParts<T>(s: seq<T>, a: seq<T>, b: seq<T>, p: T -> bool)
    requires multiset(s) == multiset(a + b)
    ensures CountIf(s, p) == CountIf(a, p) + CountIf(b, p)
  {
    CountPermute(s, a + b, p);
    CountConcat(a, b, p);
  }
}
