/** XML text in the forms the client prints, and how the lexer reads it: the tokens of a printed text are
    the tokens of its pieces, whatever text follows. */
module Markup {
  import opened CText
  import opened Lexing
  import opened CimTags
  import opened TagLookup

  /** A piece of printed text; elements are named by their row in the tag table, and `values` are those of the
      row's first attributes. */
  datatype Piece =
    | Open(row: nat, values: seq<string>)
    | Close(row: nat)
    | Content(row: nat, values: seq<string>, content: string)
    | Newline

  // ----- the characters of a piece -----

  function AttrXml(name: string, v: string): string { " " + name + "=\"" + v + "\"" }

  function AttrsXml(names: seq<string>, vs: seq<string>, j: nat): string
    requires j <= |vs| <= |names|
    decreases |vs| - j
  {
    if j == |vs| then "" else AttrXml(names[j], vs[j]) + AttrsXml(names, vs, j + 1)
  }

  function OpenXml(row: nat, vs: seq<string>): string
    requires row < 45 && TagAt(row).Element? && |vs| <= |TagAt(row).attrs|
  {
    "<" + TagAt(row).name + AttrsXml(TagAt(row).attrs, vs, 0) + ">"
  }

  function CloseXml(row: nat): string
    requires row < 45
  {
    "</" + TagAt(row).name + ">"
  }

  predicate IsPiece(p: Piece) {
    match p
    case Open(i, vs) => IsPrinted(i) && !TagAt(i).content && |vs| <= |TagAt(i).attrs|
    case Close(i) => IsPrinted(i)
    case Content(i, vs, _) => IsPrinted(i) && TagAt(i).content && |vs| <= |TagAt(i).attrs|
    case Newline => true
  }

  function PieceXml(p: Piece): string
    requires IsPiece(p)
  {
    match p
    case Open(i, vs) => OpenXml(i, vs)
    case Close(i) => CloseXml(i)
    case Content(i, vs, c) => OpenXml(i, vs) + c + CloseXml(i)
    case Newline => "\n"
  }

  predicate ArePieces(l: List<Piece>) {
    match l
    case Nil => true
    case Cons(p, t) => IsPiece(p) && ArePieces(t)
  }

  function Xml(l: List<Piece>): string
    requires ArePieces(l)
  {
    match l
    case Nil => ""
    case Cons(p, t) => PieceXml(p) + Xml(t)
  }

  // ----- the tokens of a piece -----

  /** The attribute values a start tag with these first values hands over. */
  function Values(n: nat, vs: seq<string>): (r: seq<Option<string>>) {
    seq(n, j => if 0 <= j < |vs| then Some(vs[j]) else None)
  }

  function PieceToks(p: Piece, k: List<Token>): List<Token>
    requires IsPiece(p)
  {
    match p
    case Open(i, vs) => Cons(Token(TagAt(i).xtok, Values(|TagAt(i).attrs|, vs), None), k)
    case Close(i) => Cons(Token(TagAt(i).end, [], None), k)
    case Content(i, vs, c) =>
      Cons(Token(TagAt(i).xtok, Values(|TagAt(i).attrs|, vs), Some(Trim(c))), Cons(Token(TagAt(i).end, [], None), k))
    case Newline => k
  }

  function XmlToks(l: List<Piece>, k: List<Token>): List<Token>
    requires ArePieces(l)
  {
    match l
    case Nil => k
    case Cons(p, t) => PieceToks(p, XmlToks(t, k))
  }

  /** A piece at the end of a line. */
  function LineOf(p: Piece, m: List<Piece>): (l: List<Piece>)
    requires IsPiece(p) && ArePieces(m)
    ensures ArePieces(l)
  {
    Cons(p, Cons(Newline, m))
  }

  lemma LineToks(p: Piece, m: List<Piece>, k: List<Token>)
    requires IsPiece(p) && ArePieces(m)
    ensures XmlToks(LineOf(p, m), k) == PieceToks(p, XmlToks(m, k))
  {
    assert XmlToks(Cons(Newline, m), k) == XmlToks(m, k);
  }

  /** Three pieces at a time. */
  function Pieces3(p: Piece, q: Piece, r: Piece, m: List<Piece>): (l: List<Piece>)
    requires IsPiece(p) && IsPiece(q) && IsPiece(r) && ArePieces(m)
    ensures ArePieces(l)
  {
    Cons(p, Cons(q, Cons(r, m)))
  }

  lemma Toks3(p: Piece, q: Piece, r: Piece, m: List<Piece>, k: List<Token>)
    requires IsPiece(p) && IsPiece(q) && IsPiece(r) && ArePieces(m)
    ensures XmlToks(Pieces3(p, q, r, m), k) == PieceToks(p, PieceToks(q, PieceToks(r, XmlToks(m, k))))
  {
    hide IsPiece, PieceToks;
    assert XmlToks(Cons(r, m), k) == PieceToks(r, XmlToks(m, k));
    assert XmlToks(Cons(q, Cons(r, m)), k) == PieceToks(q, XmlToks(Cons(r, m), k));
  }

  predicate Quotable(vs: seq<string>) {
    forall j :: 0 <= j < |vs| ==> Free(vs[j], '"')
  }

  /** Attribute values without a quote, content without a '<'. */
  predicate Readable(p: Piece) {
    match p
    case Open(_, vs) => Quotable(vs)
    case Content(_, vs, c) => Quotable(vs) && Free(c, '<')
    case _ => true
  }

  predicate AllReadable(l: List<Piece>) {
    match l
    case Nil => true
    case Cons(p, t) => Readable(p) && AllReadable(t)
  }

  /** The tokens of a text read from its start. */
  function Toks(t: Text): List<Token> { Tokens(Tags(), LexState(t, None, false)) }

  // ----- text -----

  lemma {:induction false} BeforeJoin(a: string, b: string, k: Text)
    ensures Before(a + b, k) == Before(a, Before(b, k))
  {
    if a == "" {
      assert a + b == b;
    } else {
      assert (a + b)[1..] == a[1..] + b;
      BeforeJoin(a[1..], b, k);
    }
  }

  lemma {:induction false} UpToBefore(s: string, k: Text, c: char)
    requires Free(s, c) && Head(k) == c && k.Ch?
    ensures UpTo(Before(s, k), c) == Cut(s, k)
  {
    if s != "" {
      UpToBefore(s[1..], k, c);
      assert [s[0]] + s[1..] == s;
    }
  }

  /** Equal steps give equal tokens. */
  lemma SameLex(a: LexState, b: LexState)
    requires WellFormed(a) && WellFormed(b) && Lex(Tags(), a) == Lex(Tags(), b)
    ensures Tokens(Tags(), a) == Tokens(Tags(), b)
  {
  }

  lemma BlankToks(c: char, t: Text)
    requires IsBlank(c)
    ensures Toks(Ch(c, t)) == Toks(t)
  {
    SameLex(LexState(Ch(c, t), None, false), LexState(t, None, false));
  }

  /** A '<' that was overwritten behind content is still read as the start of the end tag. */
  lemma NulledToks(t: Text)
    requires t.Ch? && t.c == '<' && Head(t.rest) == '/'
    ensures Tokens(Tags(), LexState(t, None, true)) == Toks(t)
  {
    assert After(t, "<!--", 0, true) == After(t.rest, "<!--", 1, true) == None;
    SameLex(LexState(t, None, true), LexState(t, None, false));
  }

  // ----- attributes -----

  lemma AttrXmlText(name: string, v: string, k: Text)
    ensures Before(AttrXml(name, v), k) == Ch(' ', Before(name, Ch('=', Ch('"', Before(v, Ch('"', k))))))
  {
    var q := "\"";
    assert AttrXml(name, v) == " " + (name + ("=\"" + (v + q)));
    BeforeJoin(" ", name + ("=\"" + (v + q)), k);
    BeforeJoin(name, "=\"" + (v + q), k);
    BeforeJoin("=\"", v + q, k);
    BeforeJoin(v, q, k);
    assert Before(q, k) == Ch('"', k) by { assert q[1..] == ""; }
    var k1 := Before(v, Ch('"', k));
    assert Before("=\"", k1) == Ch('=', Ch('"', k1)) by { assert "=\""[1..] == q; assert q[1..] == ""; }
    assert " "[1..] == "";
  }

  lemma {:induction false} FirstFree(t: Text, names: seq<string>, got: seq<Slot>, i: nat, n: nat)
    requires |names| == |got| && i <= n < |names| && got[n].Unset? && Word(t, names[n], false).Some?
    requires forall j :: i <= j < n ==> got[j].Bound?
    ensures FindAttr(t, names, got, i) == n
    decreases n - i
  {
    if i < n { FirstFree(t, names, got, i + 1, n); }
  }

  /** One printed attribute is read into slot `n`. */
  lemma AttributeRead(tag: string, a: string, v: string, k: Text, names: seq<string>, got: seq<Slot>, n: nat)
    requires |names| == |got| && n < |names| && names[n] == a && got[n].Unset?
    requires forall j :: 0 <= j < n ==> got[j].Bound?
    requires a != "" && IsAlpha(a[0]) && Free(v, '"')
    ensures AttrList(tag, SkipWS(Before(AttrXml(a, v), k)), names, got) == AttrList(tag, SkipWS(k), names, got[n := Bound(Some(v))])
  {
    AttrXmlText(a, v, k);
    var t2 := Ch('=', Ch('"', Before(v, Ch('"', k))));
    var t1 := Before(a, t2);
    assert t1 == Ch(a[0], Before(a[1..], t2));
    WordSelf(a, t2, false);
    FirstFree(t1, names, got, 0, n);
    UpToBefore(v, Ch('"', k), '"');
    assert AttrValue(t2) == Valued(Some(v), k);
  }

  /** The slots after the first `j` values have been read. */
  function Got(n: nat, vs: seq<string>, j: nat): seq<Slot>
    requires j <= |vs|
  {
    seq(n, i => if 0 <= i < j then Bound(Some(vs[i])) else Unset)
  }

  predicate Named(names: seq<string>) {
    forall j :: 0 <= j < |names| ==> names[j] != "" && IsAlpha(names[j][0])
  }

  lemma {:induction false} AttributesRead(tag: string, names: seq<string>, vs: seq<string>, j: nat, k: Text)
    requires j <= |vs| <= |names| && Named(names) && Quotable(vs)
    ensures AttrList(tag, SkipWS(Before(AttrsXml(names, vs, j), Ch('>', k))), names, Got(|names|, vs, j)) == AttrsOk(k, Got(|names|, vs, |vs|), false)
    decreases |vs| - j
  {
    var end := Ch('>', k);
    if j < |vs| {
      var rest := AttrsXml(names, vs, j + 1);
      BeforeJoin(AttrXml(names[j], vs[j]), rest, end);
      AttributeRead(tag, names[j], vs[j], Before(rest, end), names, Got(|names|, vs, j), j);
      assert Got(|names|, vs, j)[j := Bound(Some(vs[j]))] == Got(|names|, vs, j + 1);
      AttributesRead(tag, names, vs, j + 1, k);
    }
  }

  // ----- tags -----

  /** A printed row's process function only reads attributes and perhaps content. */
  predicate IsPlain(t: Tag) {
    t.Element? && t.check.NoCheck? && t.selfEnd == t.end && t.name != "" && IsAlpha(t.name[0]) && Free(t.name, '>') && t.name != "?xml" && Named(t.attrs)
  }

  lemma LowPlainRow(i: nat)
    requires IsPrinted(i) && i < 12
    ensures IsPlain(TagAt(i))
  {
  }

  lemma MiddlePlainRow(i: nat)
    requires IsPrinted(i) && 12 <= i < 20
    ensures IsPlain(TagAt(i))
  {
  }

  lemma HighPlainRow(i: nat)
    requires IsPrinted(i) && 20 <= i < 26
    ensures IsPlain(TagAt(i))
  {
  }

  lemma PropertyPlainRow(i: nat)
    requires 26 <= i <= 28
    ensures IsPlain(TagAt(i))
  {
  }

  lemma PlainRow(i: nat)
    requires IsPrinted(i)
    ensures IsPlain(TagAt(i))
  {
    hide IsPlain, TagAt;
    if i < 12 {
      LowPlainRow(i);
    } else if i < 20 {
      MiddlePlainRow(i);
    } else if i < 26 {
      HighPlainRow(i);
    } else {
      PropertyPlainRow(i);
    }
  }

  /** What stands behind the name of a printed start tag. */
  function Body(i: nat, vs: seq<string>, k: Text): Text
    requires i < 45 && TagAt(i).Element? && |vs| <= |TagAt(i).attrs|
  {
    Before(AttrsXml(TagAt(i).attrs, vs, 0), Ch('>', k))
  }

  lemma BodyDelimited(i: nat, vs: seq<string>, k: Text)
    requires i < 45 && TagAt(i).Element? && |vs| <= |TagAt(i).attrs|
    ensures IsDelimiter(Head(Body(i, vs, k)))
  {
    if vs != [] {
      var names := TagAt(i).attrs;
      BeforeJoin(AttrXml(names[0], vs[0]), AttrsXml(names, vs, 1), Ch('>', k));
      AttrXmlText(names[0], vs[0], Before(AttrsXml(names, vs, 1), Ch('>', k)));
    }
  }

  lemma OpenText(i: nat, vs: seq<string>, k: Text)
    requires i < 45 && TagAt(i).Element? && |vs| <= |TagAt(i).attrs|
    ensures Before(OpenXml(i, vs), k) == Ch('<', Before(TagAt(i).name, Body(i, vs, k)))
  {
    var name, attrs, lt, gt := TagAt(i).name, AttrsXml(TagAt(i).attrs, vs, 0), "<", ">";
    assert OpenXml(i, vs) == lt + (name + (attrs + gt));
    BeforeJoin(lt, name + (attrs + gt), k);
    BeforeJoin(name, attrs + gt, k);
    BeforeJoin(attrs, gt, k);
    assert lt[1..] == "" && gt[1..] == "";
    assert Before(gt, k) == Ch('>', k);
  }

  /** A start tag is read by its row's process function. */
  lemma StartLex(i: nat, body: Text)
    requires IsPrinted(i) && IsDelimiter(Head(body)) && IsPlain(TagAt(i))
    ensures Lex(Tags(), LexState(Ch('<', Before(TagAt(i).name, body)), None, false)) == ProcessElement(TagAt(i), body)
  {
    hide AttrList, FindTag;
    PrintedRow(i, body);
    var name := TagAt(i).name;
    var t1 := Before(name, body);
    assert t1 == Ch(name[0], Before(name[1..], body));
    var t := Ch('<', t1);
    assert After(t, "<!--", 0, true) == After(t1, "<!--", 1, true) == None;
    assert SkipWS(t) == t;
  }

  lemma OpenLex(i: nat, vs: seq<string>, k: Text)
    requires IsPrinted(i) && |vs| <= |TagAt(i).attrs| && Quotable(vs)
    ensures var attrs := Values(|TagAt(i).attrs|, vs);
            Lex(Tags(), LexState(Before(OpenXml(i, vs), k), None, false))
            == if TagAt(i).content then ContentToken(TagAt(i).xtok, attrs, k) else Tok(Token(TagAt(i).xtok, attrs, None), LexState(k, None, false))
  {
    PlainRow(i);
    var n := |TagAt(i).attrs|;
    OpenText(i, vs, k);
    BodyDelimited(i, vs, k);
    StartLex(i, Body(i, vs, k));
    assert Got(n, vs, 0) == Unsets(n);
    AttributesRead(TagAt(i).name, TagAt(i).attrs, vs, 0, k);
    assert SlotValues(Got(n, vs, |vs|)) == Values(n, vs);
  }

  lemma CloseText(i: nat, k: Text)
    requires i < 45
    ensures Before(CloseXml(i), k) == Ch('<', Ch('/', Before(TagAt(i).name, Ch('>', k))))
  {
    var name, lt, gt := TagAt(i).name, "</", ">";
    assert CloseXml(i) == lt + (name + gt);
    BeforeJoin(lt, name + gt, k);
    BeforeJoin(name, gt, k);
    assert lt[1..] == "/" && "/"[1..] == "" && gt[1..] == "";
    assert Before(gt, k) == Ch('>', k);
  }

  lemma CloseToks(i: nat, k: Text)
    requires IsPrinted(i)
    ensures Toks(Before(CloseXml(i), k)) == Cons(Token(TagAt(i).end, [], None), Toks(k))
  {
    hide FindTag;
    PlainRow(i);
    CloseText(i, k);
    var name := TagAt(i).name;
    PrintedRow(i, Ch('>', k));
    var t2 := Before(name, Ch('>', k));
    var t1 := Ch('/', t2);
    var t := Ch('<', t1);
    UpToBefore(name, Ch('>', k), '>');
    assert After(t, "<!--", 0, true) == After(t1, "<!--", 1, true) == None;
    assert SkipWS(t) == t;
    assert Lex(Tags(), LexState(t, None, false)) == EndTag(Tags(), t2);
  }

  /** Content and the end tag behind it. */
  lemma ContentToks(i: nat, attrs: seq<Option<string>>, c: string, k: Text)
    requires IsPrinted(i) && Free(c, '<')
    ensures var r := ContentToken(TagAt(i).xtok, attrs, Before(c, Before(CloseXml(i), k)));
            r.token == Token(TagAt(i).xtok, attrs, Some(Trim(c)))
            && Tokens(Tags(), r.next) == Cons(Token(TagAt(i).end, [], None), Toks(k))
  {
    var stop := Before(CloseXml(i), k);
    CloseText(i, k);
    UpToBefore(c, stop, '<');
    CloseToks(i, k);
    NulledToks(stop);
  }

  lemma ContentPiece(i: nat, vs: seq<string>, c: string, k: Text)
    requires IsPiece(Content(i, vs, c)) && Readable(Content(i, vs, c))
    ensures Toks(Before(PieceXml(Content(i, vs, c)), k)) == PieceToks(Content(i, vs, c), Toks(k))
  {
    hide Tokens, Lex, ContentToken, OpenXml, CloseXml;
    var k1 := Before(c, Before(CloseXml(i), k));
    assert PieceXml(Content(i, vs, c)) == OpenXml(i, vs) + (c + CloseXml(i));
    BeforeJoin(OpenXml(i, vs), c + CloseXml(i), k);
    BeforeJoin(c, CloseXml(i), k);
    OpenLex(i, vs, k1);
    ContentToks(i, Values(|TagAt(i).attrs|, vs), c, k);
    OneToken(LexState(Before(OpenXml(i, vs), k1), None, false));
  }

  lemma OneToken(st: LexState)
    requires WellFormed(st) && Lex(Tags(), st).Tok?
    ensures Tokens(Tags(), st) == Cons(Lex(Tags(), st).token, Tokens(Tags(), Lex(Tags(), st).next))
  {
  }

  lemma OnePiece(p: Piece, k: Text)
    requires IsPiece(p) && Readable(p)
    ensures Toks(Before(PieceXml(p), k)) == PieceToks(p, Toks(k))
  {
    match p
    case Open(i, vs) => OpenLex(i, vs, k);
    case Close(i) => CloseToks(i, k);
    case Content(i, vs, c) => ContentPiece(i, vs, c, k);
    case Newline =>
      assert "\n"[1..] == "";
      assert Before("\n", k) == Ch('\n', k);
      BlankToks('\n', k);
  }

  /** Printed text is read as the tokens of its pieces, followed by those of the text behind it. */
  lemma {:induction false} ReadXml(l: List<Piece>, k: Text)
    requires ArePieces(l) && AllReadable(l)
    ensures Toks(Before(Xml(l), k)) == XmlToks(l, Toks(k))
  {
    hide Tokens, Lex, PieceXml, PieceToks, Readable, IsPiece;
    if l.Cons? {
      BeforeJoin(PieceXml(l.head), Xml(l.tail), k);
      OnePiece(l.head, Before(Xml(l.tail), k));
      ReadXml(l.tail, k);
    }
  }

  lemma LineReadable(p: Piece, m: List<Piece>)
    requires IsPiece(p) && ArePieces(m) && Readable(p) && AllReadable(m)
    ensures AllReadable(LineOf(p, m))
  {
  }
}
