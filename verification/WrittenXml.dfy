/** What the lexer makes of tags in any form that other programs may write them in: attributes in any order and spelling,
    either quote, blanks, and elements closed by "/>". */
module WrittenXml {
  import opened CText
  import opened Lexing
  import opened TokenCodes
  import opened CimTags
  import opened TagLookup
  import opened Markup
  import opened Escaping

  // ----- attributes -----

  /** An attribute for the table's attribute `slot`: its name in some spelling, and the blanks before the name, before the
      equals sign and behind it. */
  datatype Attribute = Attribute(slot: nat, gap: string, name: string, before: string, behind: string, quote: char, value: string)

  function AttributeText(a: Attribute, k: Text): Text {
    Before(a.gap, Before(a.name, Before(a.before, Ch('=', Before(a.behind, Ch(a.quote, Before(a.value, Ch(a.quote, k))))))))
  }

  function AttributesText(l: List<Attribute>, k: Text): Text {
    match l
    case Nil => k
    case Cons(a, t) => AttributeText(a, AttributesText(t, k))
  }

  predicate IsWritten(a: Attribute, names: seq<string>) {
    && a.slot < |names| && SameNoCase(a.name, names[a.slot])
    && AllBlank(a.gap) && AllBlank(a.before) && AllBlank(a.behind)
    && (a.quote == '"' || a.quote == '\'') && Free(a.value, a.quote)
  }

  predicate NotIn(l: List<Attribute>, n: nat) {
    match l
    case Nil => true
    case Cons(a, t) => a.slot != n && NotIn(t, n)
  }

  /** Each attribute is one of the table's, and none is repeated. */
  predicate AreWritten(l: List<Attribute>, names: seq<string>) {
    match l
    case Nil => true
    case Cons(a, t) => IsWritten(a, names) && NotIn(t, a.slot) && AreWritten(t, names)
  }

  /** The value given for attribute `n`, if it is given. */
  function Given(l: List<Attribute>, n: nat): Option<string> {
    match l
    case Nil => None
    case Cons(a, t) => if a.slot == n then Some(a.value) else Given(t, n)
  }

  function GivenValues(l: List<Attribute>, n: nat): (r: seq<Option<string>>)
    ensures |r| == n && forall j :: 0 <= j < n ==> r[j] == Given(l, j)
  {
    seq(n, j requires 0 <= j < n => Given(l, j))
  }

  predicate IsName(s: string) { s != "" && IsAlpha(s[0]) && forall i :: 0 <= i < |s| ==> IsAlnum(s[i]) }

  /** Words that a comparison without regard to case tells apart. */
  predicate Differ(a: string, b: string) {
    |a| != |b| || (a != "" && b != "" && Lower(a[0]) != Lower(b[0])) || (|a| > 2 && |b| > 2 && Lower(a[2]) != Lower(b[2]))
  }

  /** Attribute names as the table has them. */
  predicate AreNames(names: seq<string>) {
    && (forall i :: 0 <= i < |names| ==> IsName(names[i]))
    && forall i, j :: 0 <= i < j < |names| ==> Differ(names[i], names[j])
  }

  lemma {:induction false} SkipBlanks(b: string, k: Text)
    requires AllBlank(b)
    ensures SkipWS(Before(b, k)) == SkipWS(k)
  {
    if b != "" { SkipBlanks(b[1..], k); }
  }

  lemma {:induction false} SkipAgain(t: Text)
    ensures SkipWS(SkipWS(t)) == SkipWS(t)
  {
    if t.Ch? && IsBlank(t.c) { SkipAgain(t.rest); }
  }

  /** A word of letters and digits is compared as a whole. */
  lemma {:induction false} WordSpelled(v: string, t: Text, w: string, i: nat)
    requires i <= |v| && i <= |w| && !IsAlnum(Head(t))
    requires forall j :: 0 <= j < |v| ==> IsAlnum(v[j])
    requires forall j :: 0 <= j < |w| ==> IsAlnum(w[j])
    requires forall j :: 0 <= j < i ==> Lower(v[j]) == Lower(w[j])
    ensures var r := After(Before(v[i..], t), w, i, false);
            (if r.Some? && !IsAlnum(Head(r.value)) then r else None) == if SameNoCase(v, w) then Some(t) else None
    decreases |w| - i
  {
    if i < |v| {
      assert v[i..][1..] == v[i + 1..];
      assert Before(v[i..], t) == Ch(v[i], Before(v[i + 1..], t));
    } else {
      assert Before(v[i..], t) == t;
    }
    if i < |v| && i < |w| && Lower(v[i]) == Lower(w[i]) { WordSpelled(v, t, w, i + 1); }
  }

  lemma WordRead(v: string, t: Text, w: string)
    requires !IsAlnum(Head(t)) && IsName(w)
    requires forall j :: 0 <= j < |v| ==> IsAlnum(v[j])
    ensures Word(Before(v, t), w, false) == if SameNoCase(v, w) then Some(t) else None
  {
    assert v[0..] == v;
    WordSpelled(v, t, w, 0);
  }

  lemma SameThrough(v: string, a: string, b: string)
    requires SameNoCase(v, a) && SameNoCase(v, b)
    ensures SameNoCase(a, b)
  {
    assert forall i :: 0 <= i < |v| ==> Lower(a[i]) == Lower(v[i]) == Lower(b[i]);
  }

  lemma DifferentWords(v: string, a: string, b: string)
    requires SameNoCase(v, a) && (Differ(a, b) || Differ(b, a))
    ensures !SameNoCase(v, b)
  {
    NotSame(a, b);
    if SameNoCase(v, b) { SameThrough(v, a, b); }
  }

  lemma NotSame(a: string, b: string)
    requires Differ(a, b) || Differ(b, a)
    ensures !SameNoCase(a, b)
  {
  }

  lemma {:induction false} SpelledIsAlnum(v: string, w: string)
    requires SameNoCase(v, w) && IsName(w)
    ensures IsName(v)
  {
    forall j | 0 <= j < |v| ensures IsAlnum(v[j]) && (j == 0 ==> IsAlpha(v[0])) {
      assert Lower(v[j]) == Lower(w[j]) && IsAlnum(w[j]);
    }
  }

  /** The table's attribute is found in any spelling, unless it has been seen already. */
  lemma {:induction false} AttributeFound(v: string, t: Text, names: seq<string>, got: seq<Slot>, n: nat, i: nat)
    requires |names| == |got| && i <= n < |names| && AreNames(names) && SameNoCase(v, names[n]) && !IsAlnum(Head(t))
    ensures FindAttr(Before(v, t), names, got, i) == if got[n].Unset? then n else |names|
    decreases n - i
  {
    hide Word, SameNoCase, Differ;
    SpelledIsAlnum(v, names[n]);
    WordRead(v, t, names[i]);
    if i < n {
      DifferentWords(v, names[n], names[i]);
      AttributeFound(v, t, names, got, n, i + 1);
    } else if !got[n].Unset? {
      forall j | n < j < |names| ensures !SameNoCase(v, names[j]) { DifferentWords(v, names[n], names[j]); }
      NoneFound(v, t, names, got, n + 1);
    }
  }

  lemma {:induction false} NoneFound(v: string, t: Text, names: seq<string>, got: seq<Slot>, i: nat)
    requires |names| == |got| && i <= |names| && AreNames(names) && !IsAlnum(Head(t))
    requires (forall j :: 0 <= j < |v| ==> IsAlnum(v[j])) && forall j :: i <= j < |names| ==> !SameNoCase(v, names[j])
    ensures FindAttr(Before(v, t), names, got, i) == |names|
    decreases |names| - i
  {
    hide Word, SameNoCase, Differ;
    if i < |names| {
      WordRead(v, t, names[i]);
      NoneFound(v, t, names, got, i + 1);
    }
  }

  /** A value is read between its quotes. */
  lemma ValueRead(a: Attribute, k: Text)
    requires AllBlank(a.before) && AllBlank(a.behind) && IsQuote(a.quote) && Free(a.value, a.quote)
    ensures AttrValue(Before(a.before, Ch('=', Before(a.behind, Ch(a.quote, Before(a.value, Ch(a.quote, k))))))) == Valued(Some(a.value), k)
  {
    var t2 := Ch(a.quote, Before(a.value, Ch(a.quote, k)));
    var t1 := Ch('=', Before(a.behind, t2));
    SkipBlanks(a.before, t1);
    SkipBlanks(a.behind, t2);
    UpToBefore(a.value, Ch(a.quote, k), a.quote);
  }

  lemma NameFirst(a: Attribute, names: seq<string>, k: Text)
    requires IsWritten(a, names) && AreNames(names)
    ensures var t := Before(a.before, Ch('=', Before(a.behind, Ch(a.quote, Before(a.value, Ch(a.quote, k))))));
            SkipWS(AttributeText(a, k)) == Before(a.name, t) && !IsAlnum(Head(t)) && IsAlpha(Head(Before(a.name, t)))
  {
    var t := Before(a.before, Ch('=', Before(a.behind, Ch(a.quote, Before(a.value, Ch(a.quote, k))))));
    SpelledIsAlnum(a.name, names[a.slot]);
    assert Before(a.name, t) == Ch(a.name[0], Before(a.name[1..], t));
    SkipBlanks(a.gap, Before(a.name, t));
    if a.before != "" { assert IsBlank(a.before[0]); }
  }

  /** One attribute in any form fills its slot, or ends the process if it is repeated. */
  lemma OneAttribute(tag: string, a: Attribute, k: Text, names: seq<string>, got: seq<Slot>)
    requires |names| == |got| && IsWritten(a, names) && AreNames(names)
    ensures AttrList(tag, SkipWS(AttributeText(a, k)), names, got)
         == if got[a.slot].Unset? then AttrList(tag, SkipWS(k), names, got[a.slot := Bound(Some(a.value))]) else AttrsStop(Throw)
  {
    hide FindAttr, Word, Lexing.AttrValue, SameNoCase, Differ;
    var t := Before(a.before, Ch('=', Before(a.behind, Ch(a.quote, Before(a.value, Ch(a.quote, k))))));
    NameFirst(a, names, k);
    AttributeFound(a.name, t, names, got, a.slot, 0);
    SpelledIsAlnum(a.name, names[a.slot]);
    WordRead(a.name, t, names[a.slot]);
    ValueRead(a, k);
  }

  /** The slots after the attributes of `l`. */
  function Filled(l: List<Attribute>, got: seq<Slot>): (r: seq<Slot>)
    ensures |r| == |got|
  {
    match l
    case Nil => got
    case Cons(a, t) => Filled(t, if a.slot < |got| then got[a.slot := Bound(Some(a.value))] else got)
  }

  predicate AllUnset(l: List<Attribute>, got: seq<Slot>) {
    match l
    case Nil => true
    case Cons(a, t) => a.slot < |got| && got[a.slot].Unset? && AllUnset(t, got)
  }

  lemma {:induction false} StillUnset(l: List<Attribute>, got: seq<Slot>, n: nat, s: Slot)
    requires AllUnset(l, got) && n < |got| && NotIn(l, n)
    ensures AllUnset(l, got[n := s])
  {
    if l.Cons? { StillUnset(l.tail, got, n, s); }
  }

  lemma {:induction false} AllAttributes(tag: string, l: List<Attribute>, k: Text, names: seq<string>, got: seq<Slot>)
    requires |names| == |got| && AreWritten(l, names) && AreNames(names) && AllUnset(l, got)
    ensures AttrList(tag, SkipWS(AttributesText(l, k)), names, got) == AttrList(tag, SkipWS(k), names, Filled(l, got))
    decreases l
  {
    hide AttributeText, IsWritten, AreNames;
    if l.Cons? {
      OneAttribute(tag, l.head, AttributesText(l.tail, k), names, got);
      StillUnset(l.tail, got, l.head.slot, Bound(Some(l.head.value)));
      AllAttributes(tag, l.tail, k, names, got[l.head.slot := Bound(Some(l.head.value))]);
    }
  }

  lemma {:induction false} FilledValue(l: List<Attribute>, got: seq<Slot>, n: nat)
    requires AllUnset(l, got) && DistinctSlots(l) && n < |got|
    ensures Filled(l, got)[n] == if Given(l, n).Some? then Bound(Given(l, n)) else got[n]
    decreases l
  {
    if l.Cons? {
      var got' := got[l.head.slot := Bound(Some(l.head.value))];
      StillUnset(l.tail, got, l.head.slot, Bound(Some(l.head.value)));
      FilledValue(l.tail, got', n);
      if l.head.slot == n { NotGiven(l.tail, n); }
    }
  }

  predicate DistinctSlots(l: List<Attribute>) {
    match l
    case Nil => true
    case Cons(a, t) => NotIn(t, a.slot) && DistinctSlots(t)
  }

  lemma {:induction false} NotGiven(l: List<Attribute>, n: nat)
    requires NotIn(l, n)
    ensures Given(l, n).None?
  {
    if l.Cons? { NotGiven(l.tail, n); }
  }

  lemma {:induction false} WrittenDistinct(l: List<Attribute>, names: seq<string>)
    requires AreWritten(l, names)
    ensures DistinctSlots(l) && AllUnset(l, Unsets(|names|))
  {
    if l.Cons? { WrittenDistinct(l.tail, names); }
  }

  lemma SlotsAreGiven(l: List<Attribute>, names: seq<string>)
    requires AreWritten(l, names)
    ensures SlotValues(Filled(l, Unsets(|names|))) == GivenValues(l, |names|)
  {
    WrittenDistinct(l, names);
    forall n | 0 <= n < |names| ensures SlotValues(Filled(l, Unsets(|names|)))[n] == Given(l, n) {
      FilledValue(l, Unsets(|names|), n);
    }
  }

  // ----- the attribute names of the table -----

  lemma NameWords0()
    ensures IsName("version") && IsName("encoding") && IsName("CIMVERSION") && IsName("DTDVERSION") && IsName("ID") && IsName("PROTOCOLVERSION")
    ensures IsName("CODE") && IsName("DESCRIPTION") && IsName("NAME") && IsName("PARAMTYPE") && IsName("EMBEDDEDOBJECT")
  {
  }

  lemma NameWords1()
    ensures IsName("VALUETYPE") && IsName("TYPE") && IsName("CLASSNAME") && IsName("REFERENCECLASS") && IsName("CLASSORIGIN")
    ensures IsName("PROPAGATED") && IsName("ARRAYSIZE") && IsName("OVERRIDABLE") && IsName("TOSUBCLASS") && IsName("TOINSTANCE")
    ensures IsName("TRANSLATABLE") && IsName("SUPERCLASS")
  {
  }

  lemma NamesOfLowRow(i: nat)
    requires i < 14
    ensures AreNames(TagAt(i).attrs)
  {
    hide IsName;
    NameWords0();
    NameWords1();
  }

  lemma NamesOfMiddleRow(i: nat)
    requires 14 <= i < 29
    ensures AreNames(TagAt(i).attrs)
  {
    hide IsName;
    NameWords0();
    NameWords1();
  }

  lemma NamesOfHighRow(i: nat)
    requires 29 <= i < 43
    ensures AreNames(TagAt(i).attrs)
  {
    hide IsName;
    NameWords0();
    NameWords1();
  }

  /** No two attributes of an element are confused. */
  lemma NamesOfRow(i: nat)
    requires i < 43 && TagAt(i).Element?
    ensures AreNames(TagAt(i).attrs)
  {
    hide TagAt, AreNames;
    if i < 14 {
      NamesOfLowRow(i);
    } else if i < 29 {
      NamesOfMiddleRow(i);
    } else {
      NamesOfHighRow(i);
    }
  }

  // ----- tags -----

  /** What stands behind an element's name: attributes, blanks, and the end of the tag. */
  function TagText(l: List<Attribute>, blanks: string, closed: bool, k: Text): Text {
    AttributesText(l, Before(blanks, if closed then Ch('/', Ch('>', k)) else Ch('>', k)))
  }

  lemma ListRead(tag: string, l: List<Attribute>, blanks: string, closed: bool, k: Text, names: seq<string>)
    requires AreWritten(l, names) && AreNames(names) && AllBlank(blanks)
    ensures AttrList(tag, SkipWS(TagText(l, blanks, closed, k)), names, Unsets(|names|)) == AttrsOk(k, Filled(l, Unsets(|names|)), closed)
  {
    hide AreNames, AreWritten, AllBlank;
    var end := if closed then Ch('/', Ch('>', k)) else Ch('>', k);
    WrittenDistinct(l, names);
    AllAttributes(tag, l, Before(blanks, end), names, Unsets(|names|));
    SkipBlanks(blanks, end);
  }

  /** The lexer on a start tag whose row the table finds. */
  lemma FoundLex(i: nat, body: Text)
    requires i < 43 && Found(i, body) && TagAt(i).name != "" && TagAt(i).name[0] != '/' && TagAt(i).name[0] != '!' && TagAt(i).Element?
    ensures Lex(Tags(), LexState(Ch('<', Before(TagAt(i).name, body)), None, false)) == ProcessElement(TagAt(i), body)
  {
    hide AttrList, FindTag;
    var name := TagAt(i).name;
    var t1 := Before(name, body);
    assert t1 == Ch(name[0], Before(name[1..], body));
    var t := Ch('<', t1);
    assert After(t, "<!--", 0, true) == After(t1, "<!--", 1, true) == None;
    assert SkipWS(t) == t;
  }

  /** An end tag that is pending is handed over where the text goes on with a tag; otherwise reading ends. */
  lemma PendingToks(end: int, k: Text)
    ensures Tokens(Tags(), LexState(k, Some(end), false)) == if Head(SkipWS(k)) == '<' then Cons(Token(end, [], None), Toks(k)) else Nil
  {
    SkipAgain(k);
    if Head(SkipWS(k)) == '<' { SameLex(LexState(SkipWS(k), None, false), LexState(k, None, false)); }
  }

  lemma NameStarts(i: nat)
    requires IsPrinted(i)
    ensures TagAt(i).Element? && TagAt(i).check.NoCheck? && TagAt(i).name != "" && IsAlpha(TagAt(i).name[0]) && TagAt(i).selfEnd == TagAt(i).end && TagAt(i).name != "?xml"
  {
    PlainRow(i);
  }

  lemma TagDelimited(l: List<Attribute>, blanks: string, closed: bool, k: Text)
    requires AllBlank(blanks) && (l.Cons? ==> AllBlank(l.head.gap) && l.head.gap != "")
    ensures IsDelimiter(Head(TagText(l, blanks, closed, k)))
  {
    if l.Cons? {
      assert IsBlank(l.head.gap[0]);
    } else if blanks != "" {
      assert IsBlank(blanks[0]);
    }
  }

  lemma WrittenLex(i: nat, l: List<Attribute>, blanks: string, closed: bool, k: Text)
    requires IsPrinted(i) && AreWritten(l, TagAt(i).attrs) && AllBlank(blanks) && (l.Cons? ==> l.head.gap != "")
    ensures var vs := GivenValues(l, |TagAt(i).attrs|);
            Lex(Tags(), LexState(Ch('<', Before(TagAt(i).name, TagText(l, blanks, closed, k))), None, false))
            == if closed then Tok(Token(TagAt(i).xtok, vs, None), LexState(k, Some(TagAt(i).end), false))
               else if TagAt(i).content then ContentToken(TagAt(i).xtok, vs, k)
               else Tok(Token(TagAt(i).xtok, vs, None), LexState(k, None, false))
  {
    hide TagAt, TagText, AttrList, IsWritten, Lex, AllBlank;
    NameStarts(i);
    var names := TagAt(i).attrs;
    NamesOfRow(i);
    if l.Cons? { WrittenBlank(l.head, names); }
    TagDelimited(l, blanks, closed, k);
    PrintedRow(i, TagText(l, blanks, closed, k));
    FoundLex(i, TagText(l, blanks, closed, k));
    ListRead(TagAt(i).name, l, blanks, closed, k, names);
    SlotsAreGiven(l, names);
  }

  lemma WrittenBlank(a: Attribute, names: seq<string>)
    requires IsWritten(a, names)
    ensures AllBlank(a.gap)
  {
  }

  /** An element closed by "/>", with attributes in any form, is read as its start tag and its end tag, without content; the
      end tag is lost where the text does not go on with another tag. */
  lemma ClosedElement(i: nat, l: List<Attribute>, blanks: string, k: Text)
    requires IsPrinted(i) && AreWritten(l, TagAt(i).attrs) && AllBlank(blanks) && (l.Cons? ==> l.head.gap != "")
    ensures Toks(Ch('<', Before(TagAt(i).name, TagText(l, blanks, true, k))))
         == Cons(Token(TagAt(i).xtok, GivenValues(l, |TagAt(i).attrs|), None),
                 if Head(SkipWS(k)) == '<' then Cons(Token(TagAt(i).end, [], None), Toks(k)) else Nil)
  {
    hide TagAt, TagText, Lex, AllBlank;
    WrittenLex(i, l, blanks, true, k);
    OneToken(LexState(Ch('<', Before(TagAt(i).name, TagText(l, blanks, true, k))), None, false));
    PendingToks(TagAt(i).end, k);
  }

  /** A start tag with attributes in any form, of an element without characters. */
  lemma StartOfElement(i: nat, l: List<Attribute>, blanks: string, k: Text)
    requires IsPrinted(i) && !TagAt(i).content && AreWritten(l, TagAt(i).attrs) && AllBlank(blanks) && (l.Cons? ==> l.head.gap != "")
    ensures Toks(Ch('<', Before(TagAt(i).name, TagText(l, blanks, false, k))))
         == Cons(Token(TagAt(i).xtok, GivenValues(l, |TagAt(i).attrs|), None), Toks(k))
  {
    hide TagAt, TagText, Lex, AllBlank;
    WrittenLex(i, l, blanks, false, k);
    OneToken(LexState(Ch('<', Before(TagAt(i).name, TagText(l, blanks, false, k))), None, false));
  }

  /** The same for an element with characters, up to its end tag. */
  lemma CharactersOfElement(i: nat, l: List<Attribute>, blanks: string, c: string, k: Text)
    requires IsPrinted(i) && TagAt(i).content && AreWritten(l, TagAt(i).attrs) && AllBlank(blanks) && (l.Cons? ==> l.head.gap != "")
    requires Free(c, '<')
    ensures Toks(Ch('<', Before(TagAt(i).name, TagText(l, blanks, false, Before(c, Before(CloseXml(i), k))))))
         == Cons(Token(TagAt(i).xtok, GivenValues(l, |TagAt(i).attrs|), Some(Trim(c))), Cons(Token(TagAt(i).end, [], None), Toks(k)))
  {
    hide TagAt, TagText, Lex, AllBlank, CloseXml, ContentToken;
    NameStarts(i);
    var k1 := Before(c, Before(CloseXml(i), k));
    WrittenLex(i, l, blanks, false, k1);
    OneToken(LexState(Ch('<', Before(TagAt(i).name, TagText(l, blanks, false, k1))), None, false));
    ContentToks(i, GivenValues(l, |TagAt(i).attrs|), c, k);
  }

  /** Attributes the way the client prints them, in the order of the table from number `j` on. */
  function PrintedFrom(names: seq<string>, vs: seq<string>, j: nat): List<Attribute>
    requires j <= |vs| <= |names|
    decreases |vs| - j
  {
    if j == |vs| then Nil else Cons(Attribute(j, " ", names[j], "", "", '"', vs[j]), PrintedFrom(names, vs, j + 1))
  }

  lemma {:induction false} PrintedText(names: seq<string>, vs: seq<string>, j: nat, k: Text)
    requires j <= |vs| <= |names|
    ensures AttributesText(PrintedFrom(names, vs, j), k) == Before(AttrsXml(names, vs, j), k)
    decreases |vs| - j
  {
    if j < |vs| {
      var rest := AttrsXml(names, vs, j + 1);
      PrintedText(names, vs, j + 1, k);
      BeforeJoin(AttrXml(names[j], vs[j]), rest, k);
      var x := Before(rest, k);
      AttrXmlText(names[j], vs[j], x);
      var y := Before(names[j], Ch('=', Ch('"', Before(vs[j], Ch('"', x)))));
      assert " "[1..] == "";
      assert Before(" ", y) == Ch(' ', y);
    }
  }

  lemma {:induction false} PrintedWritten(names: seq<string>, vs: seq<string>, j: nat, n: nat)
    requires j <= |vs| <= |names| && Quotable(vs)
    ensures var l := PrintedFrom(names, vs, j);
            AreWritten(l, names) && (n < j ==> NotIn(l, n)) && (n < j || n >= |vs| ==> Given(l, n).None?) && (j <= n < |vs| ==> Given(l, n) == Some(vs[n]))
    decreases |vs| - j
  {
    if j < |vs| {
      PrintedWritten(names, vs, j + 1, n);
      PrintedWritten(names, vs, j + 1, j);
      assert IsBlank(" "[0]);
    }
  }

  /** "<name attrs/>" in front of another tag reads as its start tag and its end tag do. */
  lemma EmptyElement(i: nat, vs: seq<string>, k: Text)
    requires IsPrinted(i) && |vs| <= |TagAt(i).attrs| && Quotable(vs) && Head(SkipWS(k)) == '<'
    ensures Toks(Ch('<', Before(TagAt(i).name, Before(AttrsXml(TagAt(i).attrs, vs, 0), Ch('/', Ch('>', k))))))
         == Cons(Token(TagAt(i).xtok, Values(|TagAt(i).attrs|, vs), None), Cons(Token(TagAt(i).end, [], None), Toks(k)))
  {
    hide TagAt, Tokens;
    NameStarts(i);
    var names := TagAt(i).attrs;
    var l := PrintedFrom(names, vs, 0);
    PrintedText(names, vs, 0, Ch('/', Ch('>', k)));
    PrintedWritten(names, vs, 0, 0);
    forall n | 0 <= n < |names| ensures GivenValues(l, |names|)[n] == Values(|names|, vs)[n] {
      PrintedWritten(names, vs, 0, n);
    }
    assert GivenValues(l, |names|) == Values(|names|, vs);
    ClosedElement(i, l, "", k);
  }

  // ----- attributes that end the process -----

  lemma {:induction false} StaysFilled(l: List<Attribute>, got: seq<Slot>, n: nat)
    requires AllUnset(l, got) && DistinctSlots(l) && n < |got| && Given(l, n).Some?
    ensures Filled(l, got)[n].Bound?
  {
    FilledValue(l, got, n);
  }

  /** A list that goes on with text `k` behind some attributes. */
  lemma RestOfList(tag: string, l: List<Attribute>, k: Text, names: seq<string>)
    requires AreWritten(l, names) && AreNames(names)
    ensures AttrList(tag, SkipWS(AttributesText(l, k)), names, Unsets(|names|)) == AttrList(tag, SkipWS(k), names, Filled(l, Unsets(|names|)))
  {
    WrittenDistinct(l, names);
    AllAttributes(tag, l, k, names, Unsets(|names|));
  }

  lemma StoppedToks(i: nat, body: Text)
    requires IsPrinted(i) && IsDelimiter(Head(body)) && TagAt(i).Element?
    requires AttrList(TagAt(i).name, SkipWS(body), TagAt(i).attrs, Unsets(|TagAt(i).attrs|)).AttrsStop?
    ensures Toks(Ch('<', Before(TagAt(i).name, body))) == Nil
  {
    hide TagAt, AttrList, Lex;
    NameStarts(i);
    PrintedRow(i, body);
    FoundLex(i, body);
  }

  lemma {:induction false} ListDelimited(l: List<Attribute>, names: seq<string>, k: Text)
    requires AreWritten(l, names) && (if l.Cons? then l.head.gap != "" else IsDelimiter(Head(k)))
    ensures IsDelimiter(Head(AttributesText(l, k)))
  {
    if l.Cons? { assert IsBlank(l.head.gap[0]); }
  }

  /** No further token is returned where an attribute is repeated, in whatever spelling. */
  lemma RepeatedAttribute(i: nat, l: List<Attribute>, a: Attribute, k: Text)
    requires IsPrinted(i) && TagAt(i).Element?
    requires AreWritten(l, TagAt(i).attrs) && l.Cons? && l.head.gap != "" && IsWritten(a, TagAt(i).attrs) && Given(l, a.slot).Some?
    ensures Toks(Ch('<', Before(TagAt(i).name, AttributesText(l, AttributeText(a, k))))) == Nil
  {
    hide TagAt, AttrList, IsWritten, AttributeText, Tokens;
    var tag := TagAt(i);
    NamesOfRow(i);
    WrittenDistinct(l, tag.attrs);
    RestOfList(tag.name, l, AttributeText(a, k), tag.attrs);
    WrittenSlot(a, tag.attrs);
    StaysFilled(l, Unsets(|tag.attrs|), a.slot);
    OneAttribute(tag.name, a, k, tag.attrs, Filled(l, Unsets(|tag.attrs|)));
    ListDelimited(l, tag.attrs, AttributeText(a, k));
    StoppedToks(i, AttributesText(l, AttributeText(a, k)));
  }

  lemma WrittenSlot(a: Attribute, names: seq<string>)
    requires IsWritten(a, names)
    ensures a.slot < |names|
  {
  }

  lemma UnknownName(tag: string, v: string, t: Text, names: seq<string>, got: seq<Slot>)
    requires |names| == |got| && AreNames(names) && IsName(v) && !IsAlnum(Head(t)) && forall j :: 0 <= j < |names| ==> !SameNoCase(v, names[j])
    ensures AttrList(tag, Before(v, t), names, got) == AttrsStop(Throw)
  {
    NoneFound(v, t, names, got, 0);
    assert Before(v, t) == Ch(v[0], Before(v[1..], t));
  }

  /** Nor where an element has an attribute that is not its own. */
  lemma UnknownAttribute(i: nat, l: List<Attribute>, gap: string, v: string, t: Text)
    requires IsPrinted(i) && TagAt(i).Element? && AreWritten(l, TagAt(i).attrs) && (l.Cons? ==> l.head.gap != "")
    requires AllBlank(gap) && gap != "" && IsName(v) && !IsAlnum(Head(t))
    requires forall j :: 0 <= j < |TagAt(i).attrs| ==> !SameNoCase(v, TagAt(i).attrs[j])
    ensures Toks(Ch('<', Before(TagAt(i).name, AttributesText(l, Before(gap, Before(v, t)))))) == Nil
  {
    hide TagAt, AttrList, Tokens, SameNoCase;
    var tag := TagAt(i);
    NamesOfRow(i);
    RestOfList(tag.name, l, Before(gap, Before(v, t)), tag.attrs);
    SkipBlanks(gap, Before(v, t));
    assert SkipWS(Before(v, t)) == Before(v, t) by { assert Before(v, t) == Ch(v[0], Before(v[1..], t)); }
    UnknownName(tag.name, v, t, tag.attrs, Filled(l, Unsets(|tag.attrs|)));
    assert IsDelimiter(Head(Before(gap, Before(v, t)))) by { assert IsBlank(gap[0]); }
    ListDelimited(l, tag.attrs, Before(gap, Before(v, t)));
    StoppedToks(i, AttributesText(l, Before(gap, Before(v, t))));
  }

  /** The name of an attribute, in front of text that is no letter or digit. */
  lemma NameOnly(v: string, t: Text, names: seq<string>, n: nat)
    requires AreNames(names) && n < |names| && SameNoCase(v, names[n]) && !IsAlnum(Head(t))
    ensures FindAttr(Before(v, t), names, Unsets(|names|), 0) == n && Word(Before(v, t), names[n], false) == Some(t)
    ensures IsAlpha(Head(Before(v, t))) && SkipWS(Ch(' ', Before(v, t))) == Before(v, t)
  {
    SpelledIsAlnum(v, names[n]);
    AttributeFound(v, t, names, Unsets(|names|), n, 0);
    WordRead(v, t, names[n]);
    assert Before(v, t) == Ch(v[0], Before(v[1..], t));
  }

  /** An attribute without a quoted value counts as not given, here in front of the end of the tag. */
  lemma MissingValue(i: nat, n: nat, v: string, blanks: string, k: Text)
    requires IsPrinted(i) && TagAt(i).Element? && !TagAt(i).content && n < |TagAt(i).attrs| && SameNoCase(v, TagAt(i).attrs[n]) && AllBlank(blanks)
    ensures Toks(Ch('<', Before(TagAt(i).name, Ch(' ', Before(v, Ch('=', Before(blanks, Ch('>', k))))))))
         == Cons(Token(TagAt(i).xtok, GivenValues(Nil, |TagAt(i).attrs|), None), Toks(k))
  {
    hide TagAt, FindAttr, Word, SameNoCase, AllBlank, Lex;
    var tag := TagAt(i);
    var names, t := tag.attrs, Ch('=', Before(blanks, Ch('>', k)));
    var body := Ch(' ', Before(v, t));
    NamesOfRow(i);
    NameStarts(i);
    NameOnly(v, t, names, n);
    SkipBlanks(blanks, Ch('>', k));
    assert Lexing.AttrValue(t) == Valued(None, Ch('>', k));
    var got := Unsets(|names|)[n := Bound(None)];
    assert AttrList(tag.name, Ch('>', k), names, got) == AttrsOk(k, got, false);
    assert AttrList(tag.name, SkipWS(body), names, Unsets(|names|)) == AttrsOk(k, got, false);
    assert SlotValues(got) == GivenValues(Nil, |names|);
    PrintedRow(i, body);
    FoundLex(i, body);
    OneToken(LexState(Ch('<', Before(tag.name, body)), None, false));
  }

  /** An attribute without an equals sign ends the process. */
  lemma MissingEquals(i: nat, n: nat, v: string, t: Text)
    requires IsPrinted(i) && TagAt(i).Element? && n < |TagAt(i).attrs| && SameNoCase(v, TagAt(i).attrs[n])
    requires !IsAlnum(Head(t)) && Head(SkipWS(t)) != '='
    ensures Toks(Ch('<', Before(TagAt(i).name, Ch(' ', Before(v, t))))) == Nil
  {
    hide TagAt, FindAttr, Word, SameNoCase, Tokens;
    NamesOfRow(i);
    NameOnly(v, t, TagAt(i).attrs, n);
    StoppedToks(i, Ch(' ', Before(v, t)));
  }

  /** An end tag is read up to its '>', whatever stands behind the name. */
  lemma EndOfElement(i: nat, rest: string, k: Text)
    requires IsPrinted(i) && Free(rest, '>') && (rest != "" ==> IsDelimiter(rest[0]))
    ensures Toks(Ch('<', Ch('/', Before(TagAt(i).name, Before(rest, Ch('>', k)))))) == Cons(Token(TagAt(i).end, [], None), Toks(k))
  {
    hide FindTag;
    PlainRow(i);
    var name, k1 := TagAt(i).name, Before(rest, Ch('>', k));
    PrintedRow(i, k1);
    var t2 := Before(name, k1);
    var t1 := Ch('/', t2);
    var t := Ch('<', t1);
    BeforeJoin(name, rest, Ch('>', k));
    UpToBefore(name + rest, Ch('>', k), '>');
    assert After(t, "<!--", 0, true) == After(t1, "<!--", 1, true) == None;
    assert SkipWS(t) == t;
    assert Lex(Tags(), LexState(t, None, false)) == EndTag(Tags(), t2);
  }
}
