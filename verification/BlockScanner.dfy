/** The balanced-brace scanner that recovers a JSON object from surrounding noise (experiments/fake_llm.py). */
module BlockScanner {
  import opened Common

  datatype ScanError = NoBrace | Unbalanced

  datatype Mode = Plain | InString | Escape

  // ---- The automaton ----

  function NextMode(c: char, mode: Mode): Mode {
    match mode
    case Escape => InString
    case InString => if c == '\\' then Escape else if c == '"' then Plain else InString
    case Plain => if c == '"' then InString else Plain
  }

  function NextDepth(c: char, depth: nat, mode: Mode): nat
    requires depth >= 1
  {
    if mode == Plain && c == '{' then depth + 1 else if mode == Plain && c == '}' then depth - 1 else depth
  }

  /** How many characters are read until the brace that closes depth open blocks, if it comes at all. */
  function Close(rest: string, depth: nat, mode: Mode): (n: Option<nat>)
    requires depth >= 1
    ensures n.Some? ==> 0 < n.value <= |rest|
  {
    if rest == [] then None
    else
      var next := NextDepth(rest[0], depth, mode);
      if next == 0 then Some(1) else Shift(1, Close(rest[1..], next, NextMode(rest[0], mode)))
  }

  function Shift(k: nat, n: Option<nat>): Option<nat> {
    if n.None? then None else Some(k + n.value)
  }

  lemma ShiftTwice(a: nat, b: nat, n: Option<nat>)
    ensures Shift(a, Shift(b, n)) == Shift(a + b, n)
  {
  }

  /** The first balanced block: from the first opening brace to the brace that closes it. */
  function FirstBlock(s: string): Result<string, ScanError> {
    if '{' !in s then Err(NoBrace) else BlockAt(s, IndexOf(s, '{'))
  }

  function BlockAt(s: string, start: nat): Result<string, ScanError>
    requires start < |s|
  {
    match Close(s[start + 1..], 1, Plain)
    case None => Err(Unbalanced)
    case Some(n) => Ok(s[start..start + 1 + n])
  }

  method ExtractJsonBlock(s: string) returns (r: Result<string, ScanError>)
    ensures r == FirstBlock(s)
  {
    if '{' !in s {
      return Err(NoBrace);
    }
    var start := IndexOf(s, '{');
    var depth: nat, inStr, esc := 1, false, false;  // the state after the opening brace itself
    var i := start + 1;
    ghost var block := FirstBlock(s);
    while i < |s|
      invariant start < i <= |s| && depth >= 1 && (esc ==> inStr)
      invariant Scanning(s, start, i, depth, ModeOf(inStr, esc), block)
    {
      var c, j := s[i], i + 1;
      ghost var mode, next := ModeOf(inStr, esc), NextDepth(c, depth, ModeOf(inStr, esc));
      ScanStep(s, start, i, j, depth, next, mode, block);
      if inStr {
        if esc {
          esc := false;
        } else if c == '\\' {
          esc := true;
        } else if c == '"' {
          inStr := false;
        }
      } else {
        if c == '"' {
          inStr := true;
        } else if c == '{' {
          depth := depth + 1;
        } else if c == '}' {
          depth := depth - 1;
          if depth == 0 {
            return Ok(s[start..j]);
          }
        }
      }
      assert depth == next && ModeOf(inStr, esc) == NextMode(c, mode);
      i := j;
    }
    r := Err(Unbalanced);
  }

  /** The scan has reached position i: the answer is decided by what follows. */
  ghost predicate Scanning(s: string, start: nat, i: nat, depth: nat, mode: Mode, block: Result<string, ScanError>)
    requires start < i <= |s| && depth >= 1
  {
    match Close(s[i..], depth, mode)
    case None => block == Err(Unbalanced)
    case Some(n) => block == Ok(s[start..i + n])
  }

  lemma ScanStep(s: string, start: nat, i: nat, j: nat, depth: nat, next: nat, mode: Mode,
                 block: Result<string, ScanError>)
    requires start < i < |s| && j == i + 1 && depth >= 1 && next == NextDepth(s[i], depth, mode)
    requires Scanning(s, start, i, depth, mode, block)
    ensures if next == 0 then block == Ok(s[start..j]) else Scanning(s, start, j, next, NextMode(s[i], mode), block)
  {
    assert s[i..] == [s[i]] + s[j..];
    if next > 0 {
      ReadOne(s[i], s[j..], depth, mode, next);
      var n := Close(s[j..], next, NextMode(s[i], mode));
      if n.Some? { assert i + (1 + n.value) == j + n.value; }
    }
  }

  function ModeOf(inStr: bool, esc: bool): Mode {
    if esc then Escape else if inStr then InString else Plain
  }

  // ---- What a block is, independently of the automaton ----

  datatype QuotedChar = Raw(c: char) | Escaped(c: char)

  datatype Piece = Char(c: char) | Quoted(body: seq<QuotedChar>) | Nested(inner: Pieces)

  datatype Pieces = Nil | Cons(head: Piece, tail: Pieces)

  function QuotedCharText(h: QuotedChar): string {
    match h
    case Raw(c) => [c]
    case Escaped(c) => ['\\', c]
  }

  function QuotedText(q: seq<QuotedChar>): string {
    if q == [] then "" else QuotedCharText(q[0]) + QuotedText(q[1..])
  }

  function PieceText(p: Piece): string {
    match p
    case Char(c) => [c]
    case Quoted(body) => "\"" + QuotedText(body) + "\""
    case Nested(inner) => "{" + Text(inner) + "}"
  }

  function Text(ps: Pieces): string {
    match ps
    case Nil => ""
    case Cons(p, tail) => PieceText(p) + Text(tail)
  }

  predicate QuotedOk(q: seq<QuotedChar>) {
    forall i :: 0 <= i < |q| ==> q[i].Raw? ==> q[i].c != '"' && q[i].c != '\\'
  }

  predicate PieceOk(p: Piece) {
    match p
    case Char(c) => c != '"' && c != '{' && c != '}'
    case Quoted(body) => QuotedOk(body)
    case Nested(inner) => PiecesOk(inner)
  }

  predicate PiecesOk(ps: Pieces) {
    match ps
    case Nil => true
    case Cons(p, tail) => PieceOk(p) && PiecesOk(tail)
  }

  /** A brace-delimited text whose braces balance when those inside string literals are ignored. */
  ghost predicate IsBlock(t: string) {
    exists ps :: PiecesOk(ps) && t == "{" + Text(ps) + "}"
  }

  // ---- Completeness: the automaton passes over well-formed pieces ----

  lemma ReadOne(c: char, tail: string, depth: nat, mode: Mode, next: nat)
    requires depth >= 1 && next == NextDepth(c, depth, mode) && next > 0
    ensures Close([c] + tail, depth, mode) == Shift(1, Close(tail, next, NextMode(c, mode)))
  {
    assert ([c] + tail)[1..] == tail;
  }

  lemma PassChar(h: QuotedChar, tail: string, depth: nat)
    requires depth >= 1 && (h.Raw? ==> h.c != '"' && h.c != '\\')
    ensures Close(QuotedCharText(h) + tail, depth, InString) == Shift(|QuotedCharText(h)|, Close(tail, depth, InString))
  {
    var c := h.c;
    if h.Raw? {
      ReadOne(c, tail, depth, InString, depth);
    } else {
      assert QuotedCharText(h) + tail == ['\\'] + ([c] + tail);
      ReadOne('\\', [c] + tail, depth, InString, depth);
      ReadOne(c, tail, depth, Escape, depth);
    }
  }

  lemma {:induction false} PassQuoted(q: seq<QuotedChar>, rest: string, depth: nat)
    requires QuotedOk(q) && depth >= 1
    ensures Close(QuotedText(q) + rest, depth, InString) == Shift(|QuotedText(q)|, Close(rest, depth, InString))
  {
    if q == [] {
      assert QuotedText(q) + rest == rest;
    } else {
      var tail := QuotedText(q[1..]) + rest;
      PassQuoted(q[1..], rest, depth);
      PassChar(q[0], tail, depth);
      assert QuotedText(q) + rest == QuotedCharText(q[0]) + tail;
    }
  }

  lemma {:induction false} PassPieces(ps: Pieces, rest: string, depth: nat)
    requires PiecesOk(ps) && depth >= 1
    ensures Close(Text(ps) + rest, depth, Plain) == Shift(|Text(ps)|, Close(rest, depth, Plain))
    decreases ps, 1
  {
    if ps == Nil {
      assert Text(ps) + rest == rest;
    } else {
      var after := Text(ps.tail) + rest;
      PassPieces(ps.tail, rest, depth);
      PassPiece(ps.head, after, depth);
      assert Text(ps) + rest == PieceText(ps.head) + after;
    }
  }

  lemma {:induction false} PassPiece(p: Piece, after: string, depth: nat)
    requires PieceOk(p) && depth >= 1
    ensures Close(PieceText(p) + after, depth, Plain) == Shift(|PieceText(p)|, Close(after, depth, Plain))
    decreases p, 0
  {
    match p
    case Char(c) =>
      ReadOne(c, after, depth, Plain, depth);
    case Quoted(body) => PassLiteral(body, after, depth);
    case Nested(inner) =>
      var deeper := depth + 1;
      var t := Text(inner) + (['}'] + after);
      PassPieces(inner, ['}'] + after, deeper);
      assert PieceText(p) + after == ['{'] + t;
      ReadOne('{', t, depth, Plain, deeper);
      ReadOne('}', after, deeper, Plain, depth);
  }

  lemma PassLiteral(body: seq<QuotedChar>, after: string, depth: nat)
    requires QuotedOk(body) && depth >= 1
    ensures var text := PieceText(Quoted(body));
      Close(text + after, depth, Plain) == Shift(|text|, Close(after, depth, Plain))
  {
    var t := QuotedText(body) + (['"'] + after);
    ReadOne('"', after, depth, InString, depth);
    PassQuoted(body, ['"'] + after, depth);
    assert PieceText(Quoted(body)) + after == ['"'] + t;
    ReadOne('"', t, depth, Plain, depth);
  }

  /** Any block is recovered exactly from a text in which only brace-free noise precedes it, whatever follows. */
  lemma BlockRecovered(prefix: string, block: string, suffix: string)
    requires '{' !in prefix && IsBlock(block)
    ensures FirstBlock(prefix + block + suffix) == Ok(block)
  {
    var ps :| PiecesOk(ps) && block == "{" + Text(ps) + "}";
    var text, s := Text(ps), prefix + block + suffix;
    OpenBrace(prefix, block, suffix, text);
    FirstBrace(s, prefix, text + ("}" + suffix));
    TextCloses(ps, suffix);
    Bracketing(s, |prefix|, text, suffix);
    Recovered(s, |prefix|, text + ("}" + suffix), |text| + 1, block);
  }

  lemma TextCloses(ps: Pieces, suffix: string)
    requires PiecesOk(ps)
    ensures Close(Text(ps) + ("}" + suffix), 1, Plain) == Some(|Text(ps)| + 1)
  {
    PassPieces(ps, "}" + suffix, 1);
  }

  lemma Recovered(s: string, start: nat, rest: string, n: nat, block: string)
    requires start < |s| && s[start + 1..] == rest && Close(rest, 1, Plain) == Some(n)
    requires start + 1 + n <= |s| && s[start..start + 1 + n] == block
    ensures BlockAt(s, start) == Ok(block)
  {
  }

  lemma OpenBrace(prefix: string, block: string, suffix: string, text: string)
    requires block == "{" + text + "}"
    ensures prefix + block + suffix == prefix + ['{'] + (text + ("}" + suffix))
  {
  }

  lemma FirstBrace(s: string, prefix: string, rest: string)
    requires '{' !in prefix && s == prefix + ['{'] + rest
    ensures '{' in s && IndexOf(s, '{') == |prefix| && s[|prefix| + 1..] == rest
  {
    assert s[|prefix|] == '{';
    assert forall i :: 0 <= i < |prefix| ==> s[i] == prefix[i];
  }

  /** A brace, a text and the closing brace, cut out of s. */
  lemma Bracketing(s: string, start: nat, text: string, after: string)
    requires start < |s| && s[start] == '{' && s[start + 1..] == text + ("}" + after)
    ensures start + |text| + 2 <= |s| && s[start..start + 1 + (|text| + 1)] == "{" + text + "}"
    ensures s == s[..start] + ("{" + text + "}") + after
  {
    var block, rest := "{" + text + "}", s[start + 1..];
    assert s[start..] == ['{'] + rest == block + after;
    assert s[start..][..|block|] == block;
  }

  // ---- Soundness: what the automaton accepts is a block ----

  /** Closing a + b open blocks means closing a and then b. */
  lemma {:induction false} CloseSplit(rest: string, a: nat, b: nat, both: nat, mode: Mode)
    requires a >= 1 && b >= 1 && both == a + b
    ensures Close(rest, a, mode).None? ==> Close(rest, both, mode).None?
    ensures Close(rest, a, mode).Some? ==> var k := Close(rest, a, mode).value;
      Close(rest, both, mode) == Shift(k, Close(rest[k..], b, Plain))
    decreases |rest|
  {
    if rest != [] {
      var c, tail := rest[0], rest[1..];
      var a', both' := NextDepth(c, a, mode), NextDepth(c, both, mode);
      if a' > 0 {
        CloseSplit(tail, a', b, both', NextMode(c, mode));
        var n := Close(tail, a', NextMode(c, mode));
        if n.Some? {
          var k := n.value;
          assert rest[k + 1..] == tail[k..];
          ShiftTwice(1, k, Close(tail[k..], b, Plain));
        }
      } else {
        assert both' == b;
      }
    }
  }

  /** From inside a string literal the scan first reads the rest of the literal. */
  lemma {:induction false} StringEnds(rest: string, depth: nat) returns (q: seq<QuotedChar>, tail: string)
    requires depth >= 1 && Close(rest, depth, InString).Some?
    ensures QuotedOk(q) && rest == QuotedText(q) + "\"" + tail
    ensures Close(tail, depth, Plain).Some?
    decreases |rest|
  {
    var c, more := rest[0], rest[1..];
    if c == '"' {
      ReadOne(c, more, depth, InString, depth);
      q, tail := [], more;
    } else {
      ReadOne(c, more, depth, InString, depth);
      var h, after := Raw(c), more;
      if c == '\\' {
        h, after := Escaped(more[0]), more[1..];
        ReadOne(more[0], after, depth, Escape, depth);
        assert more == [more[0]] + after;
      }
      var q';
      q', tail := StringEnds(after, depth);
      q := [h] + q';
      Prepend(q, h, q', after, tail);
      assert rest == QuotedCharText(h) + after;
    }
  }

  lemma Prepend(q: seq<QuotedChar>, h: QuotedChar, q': seq<QuotedChar>, after: string, tail: string)
    requires q == [h] + q' && after == QuotedText(q') + "\"" + tail
    ensures QuotedCharText(h) + after == QuotedText(q) + "\"" + tail
  {
    assert q[1..] == q';
  }

  /** Whatever is read up to the closing brace is a list of well-formed pieces. */
  lemma {:induction false} ReadPieces(rest: string) returns (ps: Pieces, after: string)
    requires Close(rest, 1, Plain).Some?
    ensures PiecesOk(ps) && rest == Text(ps) + ("}" + after)
    ensures Close(rest, 1, Plain) == Some(|Text(ps)| + 1)
    decreases |rest|, 1
  {
    if rest[0] == '}' {
      ps, after := Nil, rest[1..];
      assert rest == Text(ps) + ("}" + after);
    } else {
      var p, more := ReadPiece(rest);
      var ps';
      ps', after := ReadPieces(more);
      ps := Cons(p, ps');
      assert rest == Text(ps) + ("}" + after);
      PassPieces(ps, "}" + after, 1);
    }
  }

  lemma {:induction false} ReadPiece(rest: string) returns (p: Piece, more: string)
    requires Close(rest, 1, Plain).Some? && rest[0] != '}'
    ensures PieceOk(p) && rest == PieceText(p) + more && Close(more, 1, Plain).Some? && |more| < |rest|
    decreases |rest|, 0
  {
    var c, tail := rest[0], rest[1..];
    if c == '"' {
      ReadOne(c, tail, 1, Plain, 1);
      var q;
      q, more := StringEnds(tail, 1);
      p := Quoted(q);
      Opened(rest, c, tail, QuotedText(q), '"', more);
    } else if c == '{' {
      ReadOne(c, tail, 1, Plain, 2);
      CloseSplit(tail, 1, 1, 2, Plain);
      var inner;
      inner, more := ReadPieces(tail);
      p := Nested(inner);
      Opened(rest, c, tail, Text(inner), '}', more);
      AfterClose(tail, Text(inner), more, |Text(inner)| + 1);
    } else {
      ReadOne(c, tail, 1, Plain, 1);
      p, more := Char(c), tail;
    }
  }

  lemma Opened(rest: string, c: char, tail: string, body: string, d: char, more: string)
    requires rest == [c] + tail && tail == body + [d] + more
    ensures rest == ([c] + body + [d]) + more
  {
  }

  lemma AfterClose(tail: string, body: string, more: string, k: nat)
    requires tail == body + "}" + more && k == |body| + 1
    ensures tail[k..] == more
  {
  }

  /**
   * The scanner returns a block exactly when one starts at the first brace, and then it is that block: the text splits
   * into brace-free noise, the returned block and a rest.
   */
  lemma ScanMeaning(s: string)
    ensures FirstBlock(s).Ok? ==> exists prefix, suffix :: Splits(s, prefix, FirstBlock(s).value, suffix)
    ensures forall prefix, block, suffix :: Splits(s, prefix, block, suffix) ==> FirstBlock(s) == Ok(block)
    ensures FirstBlock(s) == Err(NoBrace) <==> '{' !in s
  {
    if FirstBlock(s).Ok? { BlockFound(s); }
    forall prefix, block, suffix | Splits(s, prefix, block, suffix) ensures FirstBlock(s) == Ok(block) {
      BlockRecovered(prefix, block, suffix);
    }
  }

  lemma BlockFound(s: string)
    requires FirstBlock(s).Ok?
    ensures exists prefix, suffix :: Splits(s, prefix, FirstBlock(s).value, suffix)
  {
    var start := IndexOf(s, '{');
    var ps, after := ReadPieces(s[start + 1..]);
    Bracketing(s, start, Text(ps), after);
    assert Splits(s, s[..start], "{" + Text(ps) + "}", after);
  }

  ghost predicate Splits(s: string, prefix: string, block: string, suffix: string) {
    s == prefix + block + suffix && '{' !in prefix && IsBlock(block)
  }

  /** No proper prefix of a block is a block, so the block returned is the shortest one. */
  lemma BlocksPrefixFree(block: string, n: nat)
    requires IsBlock(block) && n < |block|
    ensures !IsBlock(block[..n])
  {
    if IsBlock(block[..n]) {
      assert block == "" + block[..n] + block[n..] && block == "" + block + "";
      BlockRecovered("", block[..n], block[n..]);
      BlockRecovered("", block, "");
    }
  }
}
