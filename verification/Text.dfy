/** Substrings, whitespace stripping, joining and splitting, as the Python string methods do them. */
module Text {

  predicate OccursAt(text: string, part: string, i: nat) {
    i + |part| <= |text| && text[i..i + |part|] == part
  }

  predicate Contains(text: string, part: string) {
    exists i: nat :: i <= |text| && OccursAt(text, part, i)
  }

  lemma ContainsAround(before: string, text: string, after: string, part: string)
    requires Contains(text, part)
    ensures Contains(before + text + after, part)
  {
    var i: nat :| i <= |text| && OccursAt(text, part, i);
    var whole, j := before + text + after, |before| + i;
    assert whole[j..j + |part|] == text[i..i + |part|];
    assert OccursAt(whole, part, j);
  }

  lemma ContainsTransitive(a: string, b: string, c: string)
    requires Contains(a, b) && Contains(b, c)
    ensures Contains(a, c)
  {
    var i: nat :| i <= |a| && OccursAt(a, b, i);
    assert a == a[..i] + b + a[i + |b|..];
    ContainsAround(a[..i], b, a[i + |b|..], c);
  }

  lemma ContainsItself(s: string)
    ensures Contains(s, s)
  {
    assert OccursAt(s, s, 0);
  }

  /** The characters str.isspace accepts. */
  predicate IsSpace(c: char) {
    var n := c as int;
    || 9 <= n <= 13 || 28 <= n <= 32 || n == 0x85 || n == 0xA0 || n == 0x1680 || 0x2000 <= n <= 0x200A
    || n == 0x2028 || n == 0x2029 || n == 0x202F || n == 0x205F || n == 0x3000
  }

  function Strip(s: string): string {
    if s != "" && IsSpace(s[0]) then Strip(s[1..])
    else if s != "" && IsSpace(s[|s| - 1]) then Strip(s[..|s| - 1])
    else s
  }

  lemma {:induction false} StripInside(s: string)
    ensures Contains(s, Strip(s))
  {
    if s != "" && IsSpace(s[0]) {
      StripInside(s[1..]);
      assert s == [s[0]] + s[1..] + [];
      ContainsAround([s[0]], s[1..], [], Strip(s));
    } else if s != "" && IsSpace(s[|s| - 1]) {
      var init := s[..|s| - 1];
      StripInside(init);
      assert s == [] + init + [s[|s| - 1]];
      ContainsAround([], init, [s[|s| - 1]], Strip(s));
    } else {
      ContainsItself(s);
    }
  }

  /** Stripping takes off whitespace at both ends, all of it and nothing else. */
  lemma {:induction false} StripExact(s: string) returns (before: string, after: string)
    ensures s == before + Strip(s) + after
    ensures forall c :: c in before + after ==> IsSpace(c)
    ensures Strip(s) != "" ==> !IsSpace(Strip(s)[0]) && !IsSpace(Strip(s)[|Strip(s)| - 1])
  {
    before, after := "", "";
    if s != "" && IsSpace(s[0]) {
      var b, a := StripExact(s[1..]);
      before, after := [s[0]] + b, a;
      Rewrap(s[..1], b, Strip(s), a, []);
      assert s == s[..1] + s[1..];
    } else if s != "" && IsSpace(s[|s| - 1]) {
      var n := |s| - 1;
      var b, a := StripExact(s[..n]);
      before, after := b, a + [s[n]];
      Rewrap([], b, Strip(s), a, s[n..]);
      assert s == s[..n] + s[n..];
    }
  }

  lemma Rewrap(left: string, before: string, text: string, after: string, right: string)
    ensures left + (before + text + after) + right == (left + before) + text + (after + right)
  {
  }

  function Join(separator: string, parts: seq<string>): string {
    if parts == [] then ""
    else if |parts| == 1 then parts[0]
    else Join(separator, parts[..|parts| - 1]) + separator + parts[|parts| - 1]
  }

  lemma {:induction false} JoinContains(separator: string, parts: seq<string>, k: nat)
    requires k < |parts|
    ensures Contains(Join(separator, parts), parts[k])
  {
    if |parts| == 1 {
      ContainsItself(parts[0]);
    } else {
      var init, last := parts[..|parts| - 1], parts[|parts| - 1];
      var head := Join(separator, init);
      if k < |init| {
        JoinContains(separator, init, k);
        ContainsAround("", head, separator + last, parts[k]);
        assert "" + head + (separator + last) == Join(separator, parts);
      } else {
        ContainsItself(last);
        ContainsAround(head + separator, last, "", last);
        assert (head + separator) + last + "" == Join(separator, parts);
      }
    }
  }

  lemma StripFirst(c: char, s: string)
    requires IsSpace(c)
    ensures Strip([c] + s) == Strip(s)
  {
    assert ([c] + s)[1..] == s;
  }

  lemma StripNothing(s: string)
    requires s != "" && !IsSpace(s[0]) && !IsSpace(s[|s| - 1])
    ensures Strip(s) == s
  {
  }

  function Split(s: string, separator: char): (parts: seq<string>)
    ensures parts != []
  {
    if s == "" then [""]
    else
      var before, last := Split(s[..|s| - 1], separator), s[|s| - 1];
      if last == separator then before + [""]
      else before[..|before| - 1] + [before[|before| - 1] + [last]]
  }

  lemma {:induction false} SplitAppend(a: string, separator: char, b: string)
    requires separator !in b
    ensures Split(a + [separator] + b, separator) == Split(a, separator) + [b]
  {
    var whole := a + [separator] + b;
    if b == "" {
      assert whole[..|whole| - 1] == a;
    } else {
      var init, last := b[..|b| - 1], b[|b| - 1];
      SplitAppend(a, separator, init);
      assert whole[..|whole| - 1] == a + [separator] + init;
      assert b == init + [last];
    }
  }

  lemma {:induction false} SplitNone(s: string, separator: char)
    requires separator !in s
    ensures Split(s, separator) == [s]
  {
    if s != "" {
      SplitNone(s[..|s| - 1], separator);
      assert s == s[..|s| - 1] + [s[|s| - 1]];
    }
  }

  lemma JoinReplaceLast(separator: string, init: seq<string>, last: string, more: string)
    ensures Join(separator, init + [last + more]) == Join(separator, init + [last]) + more
  {
    var a, b := init + [last + more], init + [last];
    assert a[..|a| - 1] == init && b[..|b| - 1] == init;
    if init != [] {
      assert Join(separator, init) + separator + (last + more) == Join(separator, init) + separator + last + more;
    }
  }

  /** Joining inverts splitting. */
  lemma {:induction false} JoinSplit(s: string, separator: char)
    ensures Join([separator], Split(s, separator)) == s
  {
    if s != "" {
      var init, last := s[..|s| - 1], s[|s| - 1];
      var before := Split(init, separator);
      JoinSplit(init, separator);
      assert s == init + [last];
      if last == separator {
        var after := before + [""];
        assert after[..|after| - 1] == before;
      } else {
        JoinReplaceLast([separator], before[..|before| - 1], before[|before| - 1], [last]);
        assert before[..|before| - 1] + [before[|before| - 1]] == before;
      }
    }
  }
}
