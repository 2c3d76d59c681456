/** JSON texts after sections 2 to 7 of RFC 8259, and why the block scanner recovers every JSON object. */
module JsonText {
  import opened Common
  import opened BlockScanner

  /** Concrete syntax: white space and every escape are kept, so one tree stands for one text. */
  datatype Json =
    | Literal(name: string)
    | Number(digits: string)
    | Str(chars: seq<StrChar>)
    | Arr(ws: string, items: Items)
    | Obj(ws: string, members: Members)

  datatype StrChar = Unescaped(c: char) | Simple(c: char) | Unicode(hex: string)

  datatype Items = NoItems | Item(before: string, value: Json, after: string, rest: Items)

  datatype Members =
    | NoMembers
    | Member(before: string, key: seq<StrChar>, gap: string, gap2: string, value: Json, after: string, rest: Members)

  // ---- Grammar ----

  predicate Whitespace(w: string) {
    forall i :: 0 <= i < |w| ==> w[i] in " \t\n\r"
  }

  /** The characters of numbers; every number of section 6 is of this form. */
  predicate NumberChars(t: string) {
    t != "" && forall i :: 0 <= i < |t| ==> t[i] in "0123456789+-.eE"
  }

  predicate HexDigits(t: string) {
    |t| == 4 && forall i :: 0 <= i < |t| ==> t[i] in "0123456789abcdefABCDEF"
  }

  predicate StrCharOk(c: StrChar) {
    match c
    case Unescaped(d) => d >= ' ' && d != '"' && d != '\\'
    case Simple(d) => d in "\"\\/bfnrt"
    case Unicode(h) => HexDigits(h)
  }

  predicate StrOk(s: seq<StrChar>) {
    forall i :: 0 <= i < |s| ==> StrCharOk(s[i])
  }

  predicate JsonOk(j: Json) {
    match j
    case Literal(n) => n == "true" || n == "false" || n == "null"
    case Number(d) => NumberChars(d)
    case Str(s) => StrOk(s)
    case Arr(ws, items) => Whitespace(ws) && ItemsOk(items)
    case Obj(ws, members) => Whitespace(ws) && MembersOk(members)
  }

  predicate ItemsOk(items: Items) {
    match items
    case NoItems => true
    case Item(b, v, a, rest) => Whitespace(b) && JsonOk(v) && Whitespace(a) && ItemsOk(rest)
  }

  predicate MembersOk(members: Members) {
    match members
    case NoMembers => true
    case Member(b, key, g, g2, v, a, rest) =>
      Whitespace(b) && StrOk(key) && Whitespace(g) && Whitespace(g2) && JsonOk(v) && Whitespace(a) && MembersOk(rest)
  }

  // ---- Printing ----

  function CharText(c: StrChar): string {
    match c
    case Unescaped(d) => [d]
    case Simple(d) => ['\\', d]
    case Unicode(h) => "\\u" + h
  }

  function CharsText(s: seq<StrChar>): string {
    if s == [] then "" else CharText(s[0]) + CharsText(s[1..])
  }

  function StrText(s: seq<StrChar>): string {
    "\"" + CharsText(s) + "\""
  }

  function JsonOf(j: Json): string {
    match j
    case Literal(n) => n
    case Number(d) => d
    case Str(s) => StrText(s)
    case Arr(ws, items) => "[" + ws + ItemsOf(items) + "]"
    case Obj(ws, members) => "{" + ws + MembersOf(members) + "}"
  }

  function ItemsOf(items: Items): string {
    match items
    case NoItems => ""
    case Item(b, v, a, rest) => b + JsonOf(v) + a + (if rest == NoItems then "" else "," + ItemsOf(rest))
  }

  function MembersOf(members: Members): string {
    match members
    case NoMembers => ""
    case Member(b, key, g, g2, v, a, rest) =>
      b + StrText(key) + g + ":" + g2 + JsonOf(v) + a + (if rest == NoMembers then "" else "," + MembersOf(rest))
  }

  // ---- Every JSON text is a list of well-formed pieces ----

  /** t can be cut into plain characters, string literals and blocks. */
  ghost predicate InPieces(t: string) {
    exists ps :: PiecesOk(ps) && Text(ps) == t
  }

  function Append(ps: Pieces, qs: Pieces): Pieces {
    match ps
    case Nil => qs
    case Cons(p, tail) => Cons(p, Append(tail, qs))
  }

  lemma {:induction false} AppendText(ps: Pieces, qs: Pieces)
    requires PiecesOk(ps) && PiecesOk(qs)
    ensures PiecesOk(Append(ps, qs)) && Text(Append(ps, qs)) == Text(ps) + Text(qs)
  {
    if ps.Cons? {
      AppendText(ps.tail, qs);
      assert Text(Append(ps, qs)) == PieceText(ps.head) + (Text(ps.tail) + Text(qs));
    }
  }

  lemma Concat(a: string, b: string)
    requires InPieces(a) && InPieces(b)
    ensures InPieces(a + b)
  {
    var ps :| PiecesOk(ps) && Text(ps) == a;
    var qs :| PiecesOk(qs) && Text(qs) == b;
    AppendText(ps, qs);
    assert Text(Append(ps, qs)) == a + b;
  }

  lemma {:induction false} PlainChars(t: string)
    requires forall i :: 0 <= i < |t| ==> t[i] != '"' && t[i] != '{' && t[i] != '}'
    ensures InPieces(t)
  {
    if t == [] {
      assert Text(Nil) == t;
    } else {
      PlainChars(t[1..]);
      OnePiece(Char(t[0]));
      Concat([t[0]], t[1..]);
      assert [t[0]] + t[1..] == t;
    }
  }

  lemma OnePiece(p: Piece)
    requires PieceOk(p)
    ensures InPieces(PieceText(p))
  {
    var ps := Cons(p, Nil);
    assert PiecesOk(ps.tail) && Text(ps.tail) == "";
    assert PiecesOk(ps) && Text(ps) == PieceText(p) + Text(ps.tail);
  }

  lemma {:induction false} QuotedConcat(q: seq<QuotedChar>, r: seq<QuotedChar>)
    requires QuotedOk(q) && QuotedOk(r)
    ensures QuotedOk(q + r) && QuotedText(q + r) == QuotedText(q) + QuotedText(r)
  {
    if q == [] {
      assert q + r == r;
    } else {
      QuotedConcat(q[1..], r);
      assert (q + r)[1..] == q[1..] + r && (q + r)[0] == q[0];
    }
  }

  lemma OneQuoted(c: QuotedChar)
    requires QuotedOk([c])
    ensures QuotedText([c]) == QuotedCharText(c)
  {
    assert [c][1..] == [];
  }

  lemma QuotedStr(c: StrChar) returns (q: seq<QuotedChar>)
    requires StrCharOk(c)
    ensures QuotedOk(q) && QuotedText(q) == CharText(c)
  {
    match c
    case Unescaped(d) =>
      q := [Raw(d)];
      OneQuoted(q[0]);
    case Simple(d) =>
      q := [Escaped(d)];
      OneQuoted(q[0]);
    case Unicode(h) =>
      q := QuotedUnicode(h);
  }

  lemma QuotedUnicode(h: string) returns (q: seq<QuotedChar>)
    requires HexDigits(h)
    ensures QuotedOk(q) && QuotedText(q) == "\\u" + h
  {
    RawText(h);
    q := [Escaped('u')] + Raws(h);
    OneQuoted(Escaped('u'));
    QuotedConcat([Escaped('u')], Raws(h));
  }

  function Raws(t: string): seq<QuotedChar> {
    if t == [] then [] else [Raw(t[0])] + Raws(t[1..])
  }

  lemma {:induction false} RawText(t: string)
    requires forall i :: 0 <= i < |t| ==> t[i] != '"' && t[i] != '\\'
    ensures QuotedOk(Raws(t)) && QuotedText(Raws(t)) == t
  {
    if t != [] {
      RawText(t[1..]);
      assert Raws(t)[1..] == Raws(t[1..]);
      assert t == [t[0]] + t[1..];
    }
  }

  lemma {:induction false} QuotedChars(s: seq<StrChar>) returns (q: seq<QuotedChar>)
    requires StrOk(s)
    ensures QuotedOk(q) && QuotedText(q) == CharsText(s)
  {
    if s == [] {
      q := [];
    } else {
      var first := QuotedStr(s[0]);
      var rest := QuotedChars(s[1..]);
      QuotedConcat(first, rest);
      q := first + rest;
    }
  }

  lemma StrInPieces(s: seq<StrChar>)
    requires StrOk(s)
    ensures InPieces(StrText(s))
  {
    var q := QuotedChars(s);
    OnePiece(Quoted(q));
  }

  lemma {:induction false} JsonInPieces(j: Json)
    requires JsonOk(j)
    ensures InPieces(JsonOf(j))
    decreases j, 0
  {
    match j
    case Literal(n) => PlainChars(n);
    case Number(d) => PlainChars(d);
    case Str(s) => StrInPieces(s);
    case Arr(ws, items) =>
      ItemsInPieces(items);
      Bracketed(ws, ItemsOf(items));
    case Obj(ws, members) =>
      ObjectIsBlock(j);
      BlockInPieces(JsonOf(j));
  }

  lemma Bracketed(ws: string, items: string)
    requires Whitespace(ws) && InPieces(items)
    ensures InPieces("[" + ws + items + "]")
  {
    PlainChars("[");
    PlainChars(ws);
    PlainChars("]");
    Concat("[", ws);
    Concat("[" + ws, items);
    Concat("[" + ws + items, "]");
  }

  lemma BlockInPieces(block: string)
    requires IsBlock(block)
    ensures InPieces(block)
  {
    var ps :| PiecesOk(ps) && block == "{" + Text(ps) + "}";
    OnePiece(Nested(ps));
  }

  lemma {:induction false} ObjectIsBlock(j: Json)
    requires j.Obj? && JsonOk(j)
    ensures IsBlock(JsonOf(j))
    decreases j.members, 1
  {
    MembersInPieces(j.members);
    PlainChars(j.ws);
    Concat(j.ws, MembersOf(j.members));
    Braced(j.ws, MembersOf(j.members));
  }

  lemma Braced(a: string, b: string)
    requires InPieces(a + b)
    ensures IsBlock("{" + a + b + "}")
  {
    var ps :| PiecesOk(ps) && Text(ps) == a + b;
    assert "{" + a + b + "}" == "{" + Text(ps) + "}";
  }

  lemma {:induction false} ItemsInPieces(items: Items)
    requires ItemsOk(items)
    ensures InPieces(ItemsOf(items))
    decreases items, 0
  {
    match items
    case NoItems => PlainChars("");
    case Item(b, v, a, rest) =>
      JsonInPieces(v);
      PlainChars(b);
      PlainChars(a);
      Concat(b, JsonOf(v));
      Concat(b + JsonOf(v), a);
      var more := if rest == NoItems then "" else "," + ItemsOf(rest);
      PlainChars("");
      if rest != NoItems {
        ItemsInPieces(rest);
        PlainChars(",");
        Concat(",", ItemsOf(rest));
      }
      Concat(b + JsonOf(v) + a, more);
  }

  lemma {:induction false} MembersInPieces(members: Members)
    requires MembersOk(members)
    ensures InPieces(MembersOf(members))
    decreases members, 0
  {
    match members
    case NoMembers => PlainChars("");
    case Member(b, key, g, g2, v, a, rest) =>
      JsonInPieces(v);
      StrInPieces(key);
      PlainChars(b);
      PlainChars(g);
      PlainChars(":");
      PlainChars(g2);
      PlainChars(a);
      Concat(b, StrText(key));
      Concat(b + StrText(key), g);
      Concat(b + StrText(key) + g, ":");
      Concat(b + StrText(key) + g + ":", g2);
      Concat(b + StrText(key) + g + ":" + g2, JsonOf(v));
      Concat(b + StrText(key) + g + ":" + g2 + JsonOf(v), a);
      var more := if rest == NoMembers then "" else "," + MembersOf(rest);
      PlainChars("");
      if rest != NoMembers {
        MembersInPieces(rest);
        PlainChars(",");
        Concat(",", MembersOf(rest));
      }
      Concat(b + StrText(key) + g + ":" + g2 + JsonOf(v) + a, more);
  }

  /** Any JSON object comes back exactly, whatever brace-free text precedes it and whatever follows it. */
  lemma ObjectRecovered(prefix: string, o: Json, suffix: string)
    requires '{' !in prefix && o.Obj? && JsonOk(o)
    ensures FirstBlock(prefix + JsonOf(o) + suffix) == Ok(JsonOf(o))
  {
    ObjectIsBlock(o);
    BlockRecovered(prefix, JsonOf(o), suffix);
  }
}
