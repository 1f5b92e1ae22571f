/** What the lexer makes of comments, CDATA sections, the document header and the elements whose attributes it checks. */
module OtherMarkup {
  import opened CText
  import opened Lexing
  import opened TokenCodes
  import opened CimTags
  import opened TagLookup
  import opened Markup
  import opened Escaping
  import opened WrittenXml

  // ----- comments -----

  /** `w` stands at the front of `v` followed by `k`. */
  lemma {:induction false} FrontOf(v: string, k: Text, w: string, i: nat)
    requires i <= |w| <= |v|
    ensures After(Before(v[i..], k), w, i, true) == if w[i..] <= v[i..] then Some(Before(v[|w|..], k)) else None
    decreases |w| - i
  {
    if i < |w| {
      assert v[i..][1..] == v[i + 1..];
      assert Before(v[i..], k) == Ch(v[i], Before(v[i + 1..], k));
      FrontOf(v, k, w, i + 1);
      assert w[i..] == [w[i]] + w[i + 1..] && v[i..] == [v[i]] + v[i + 1..];
    }
  }

  /** The first occurrence of `w` is the one at the end of `v`. */
  predicate EndsFirst(v: string, w: string) {
    |w| <= |v| && v[|v| - |w|..] == w && forall i :: 0 <= i < |v| - |w| ==> !(w <= v[i..])
  }

  lemma LaterAtEnd(v: string, w: string)
    requires EndsFirst(v, w) && |w| < |v|
    ensures EndsFirst(v[1..], w) && !(w <= v)
  {
    assert v[0..] == v;
    assert v[1..][|v[1..]| - |w|..] == w;
    forall i | 0 <= i < |v[1..]| - |w| ensures !(w <= v[1..][i..]) {
      assert v[1..][i..] == v[i + 1..];
      assert !(w <= v[i + 1..]);
    }
  }

  lemma {:induction false} FirstAtEnd(v: string, k: Text, w: string)
    requires w != "" && EndsFirst(v, w)
    ensures AfterSub(Before(v, k), w) == Some(k)
    decreases |v|
  {
    assert v[0..] == v && w[0..] == w;
    FrontOf(v, k, w, 0);
    if |v| == |w| {
      assert v[|w|..] == "";
    } else {
      LaterAtEnd(v, w);
      FirstAtEnd(v[1..], k, w);
    }
  }

  lemma CommentStart(c: string, k: Text)
    ensures After(Before("<!--" + c, k), "<!--", 0, true).Some? && Head(Before("<!--" + c, k)) == '<'
  {
    var v, w := "<!--" + c, "<!--";
    assert v[0..] == v && w[0..] == w;
    FrontOf(v, k, w, 0);
  }

  /** A comment between tags is skipped; it ends at the first "-->", which may share the dashes of its start. */
  lemma CommentSkipped(c: string, k: Text)
    requires EndsFirst("<!--" + c, "-->")
    ensures Toks(Before("<!--" + c, k)) == Toks(k)
  {
    var t := Before("<!--" + c, k);
    CommentStart(c, k);
    FirstAtEnd("<!--" + c, k, "-->");
    SameLex(LexState(t, None, false), LexState(k, None, false));
  }

  /** Behind characters a comment is not skipped but ends the reading, since its first character has been overwritten. */
  lemma CommentBehindContent(t: Text)
    requires Head(t) == '!' && Head(t.rest) == '-'
    ensures Tokens(Tags(), LexState(Ch('<', t), None, true)) == Nil
  {
    hide FindTag;
    NoRowAt(t);
  }

  lemma NoRowAt(t: Text)
    requires Head(t) == '!' && Head(t.rest) == '-'
    ensures StartTag(Tags(), t) == Stop(NoTag)
  {
    hide FindTag, Word, TagAt;
    NoRowBefore(t, 0, 43);
    NoSection(t);
    LastRows(t);
  }

  lemma NoSection(t: Text)
    requires Head(t) == '!' && Head(t.rest) == '-'
    ensures Word(t, "![CDATA[", true).None? && SkipWS(t) == t
  {
    assert After(t, "![CDATA[", 0, true) == After(t.rest, "![CDATA[", 1, true) == None;
  }

  /** What the section row does not match is left to the row without a name. */
  lemma LastRows(t: Text)
    requires Word(t, "![CDATA[", true).None? && !IsAlnum(Head(t))
    ensures FindTag(Tags(), t, 43) == 44 && Tags()[44].Cdata?
  {
    hide Word;
    EmptyRow(t);
    assert Tags()[43].name == "![CDATA[";
  }

  /** Rows whose names start with another character than the text. */
  lemma {:induction false} NoRowBefore(t: Text, i: nat, j: nat)
    requires i <= j <= 44 && t.Ch? && forall r :: i <= r < j ==> FIRSTS[r] != t.c
    ensures FindTag(Tags(), t, i) == FindTag(Tags(), t, j)
    decreases j - i
  {
    hide TagAt;
    if i < j {
      if i < 22 { LowFirsts(i); } else { HighFirsts(i); }
      assert After(t, TagAt(i).name, 0, true).None?;
      NoRowBefore(t, i + 1, j);
    }
  }

  // ----- CDATA -----

  lemma {:induction false} ClosedSection(v: string, k: Text)
    requires EndsFirst(v, "]]>")
    ensures CloseCdata(Before(v, k)) == Some(Before(v[..|v| - 3], Ch('<', Ch('/', Ch('>', k)))))
    decreases |v|
  {
    hide EndsFirst, After;
    SectionMark(v, k);
    if |v| > 3 {
      LaterAtEnd(v, "]]>");
      ClosedSection(v[1..], k);
      assert v[..|v| - 3][1..] == v[1..][..|v[1..]| - 3];
      assert Before(v, k) == Ch(v[0], Before(v[1..], k));
    } else {
      assert v[..0] == "";
    }
  }

  lemma SectionMark(v: string, k: Text)
    requires EndsFirst(v, "]]>")
    ensures |v| >= 3 && After(Before(v, k), "]]>", 0, true) == if |v| == 3 then Some(k) else None
  {
    var w := "]]>";
    assert v[0..] == v && w[0..] == w;
    FrontOf(v, k, w, 0);
    if |v| == 3 { assert v[3..] == ""; } else { LaterAtEnd(v, w); }
  }

  lemma SectionRow(body: Text)
    requires !IsAlnum(Head(body))
    ensures var t := Before("![CDATA[", body); FindTag(Tags(), t, 0) == 43 && Word(t, "![CDATA[", true) == Some(body) && Head(t) == '!' && Head(t.rest) == '['
  {
    hide FindTag;
    var w := "![CDATA[";
    var t := Before(w, body);
    assert t == Ch('!', Before(w[1..], body));
    assert Before(w[1..], body) == Ch('[', Before(w[1..][1..], body));
    NoRowBefore(t, 0, 43);
    AfterSelf(w, body, 0, true);
    assert w[0..] == w;
    SectionFound(t);
  }

  lemma SectionFound(t: Text)
    requires Word(t, "![CDATA[", true).Some?
    ensures FindTag(Tags(), t, 43) == 43
  {
  }

  lemma SectionLex(body: Text)
    requires !IsAlnum(Head(body))
    ensures Lex(Tags(), LexState(Ch('<', Before("![CDATA[", body)), None, false))
         == match CloseCdata(body) case None => Stop(NoTag) case Some(r) => Tok(Token(XTOK_CDATA, [], None), LexState(r, None, false))
  {
    hide FindTag, CloseCdata, Word, TagAt, Before;
    var t1 := Before("![CDATA[", body);
    SectionRow(body);
    NoCommentAt(t1);
    SectionTag();
  }

  lemma SectionTag()
    ensures Tags()[43] == Cdata("![CDATA[", XTOK_CDATA, ZTOK_CDATA)
  {
  }

  lemma NoCommentAt(t: Text)
    requires Head(t) == '!' && Head(t.rest) == '['
    ensures After(Ch('<', t), "<!--", 0, true).None? && SkipWS(t) == t
  {
    assert After(Ch('<', t), "<!--", 0, true) == After(t, "<!--", 1, true) == After(t.rest, "<!--", 2, true) == None;
  }

  /** A CDATA section `v`, closed by its first "]]>", is read as its start token, the tokens of the text in it, and, at its
      end, those of an end tag without a name. */
  lemma SectionRead(v: string, k: Text)
    requires EndsFirst(v, "]]>") && !IsAlnum(v[0])
    ensures Toks(Ch('<', Before("![CDATA[", Before(v, k))))
         == Cons(Token(XTOK_CDATA, [], None), Toks(Before(v[..|v| - 3], Ch('<', Ch('/', Ch('>', k))))))
  {
    hide Lex;
    SectionLex(Before(v, k));
    ClosedSection(v, k);
    OneToken(LexState(Ch('<', Before("![CDATA[", Before(v, k))), None, false));
  }

  lemma SectionEnd(k: Text)
    ensures Toks(Ch('<', Ch('/', Ch('>', k)))) == Cons(Token(ZTOK_CDATA, [], None), Toks(k))
  {
    hide FindTag;
    var t2 := Ch('>', k);
    var t1 := Ch('/', t2);
    var t := Ch('<', t1);
    NoRowBefore(t2, 0, 44);
    EmptyRow(t2);
    assert After(t, "<!--", 0, true) == After(t1, "<!--", 1, true) == None;
    assert SkipWS(t) == t;
    assert Lex(Tags(), LexState(t, None, false)) == EndTag(Tags(), t2);
  }

  lemma EmptyRow(t: Text)
    requires !IsAlnum(Head(t))
    ensures FindTag(Tags(), t, 44) == 44 && Tags()[44] == Cdata("", XTOK_CDATA, ZTOK_CDATA)
  {
  }

  /** The token an element closed by "/>" is to be followed by is that of its end tag, but for VALUE.REFARRAY and
      VALUE.OBJECTWITHPATH, whose process functions hand over another one. */
  lemma EmptyElementEnds(i: nat)
    requires i < 43 && TagAt(i).Element?
    ensures TagAt(i).selfEnd == TagAt(i).end <==> i != 17 && i != 18
    ensures TagAt(17).name == "VALUE.REFARRAY" && TagAt(18).name == "VALUE.OBJECTWITHPATH"
  {
  }

  lemma NoWord(t: Text, w: string)
    requires After(t, w, 0, true).Some? && IsAlnum(Head(After(t, w, 0, true).value))
    ensures Word(t, w, true).None?
  {
  }

  /** A section that starts with a letter or digit is taken for no section, and ends the reading. */
  lemma SectionRefused(c: char, k: Text)
    requires IsAlnum(c)
    ensures Toks(Ch('<', Before("![CDATA[", Ch(c, k)))) == Nil
  {
    hide FindTag, Word, TagAt;
    var w, body := "![CDATA[", Ch(c, k);
    var t := Before(w, body);
    AfterSelf(w, body, 0, true);
    assert w[0..] == w;
    NoWord(t, w);
    SectionHead(body);
    NoRowBefore(t, 0, 43);
    LastRows(t);
    NoCommentAt(t);
  }

  lemma SectionHead(body: Text)
    ensures var t := Before("![CDATA[", body); t.Ch? && Head(t) == '!' && Head(t.rest) == '['
  {
    var w := "![CDATA[";
    assert Before(w, body) == Ch('!', Before(w[1..], body));
    assert Before(w[1..], body) == Ch('[', Before(w[1..][1..], body));
  }

  /** Behind the characters of an element a comment ends the reading. */
  lemma CommentBehindCharacters(i: nat, l: List<Attribute>, blanks: string, c: string, t: Text)
    requires IsPrinted(i) && TagAt(i).content && AreWritten(l, TagAt(i).attrs) && AllBlank(blanks) && (l.Cons? ==> l.head.gap != "")
    requires Free(c, '<') && c != "" && Head(t) == '!' && Head(t.rest) == '-'
    ensures Toks(Ch('<', Before(TagAt(i).name, TagText(l, blanks, false, Before(c, Ch('<', t))))))
         == Cons(Token(TagAt(i).xtok, GivenValues(l, |TagAt(i).attrs|), Some(Trim(c))), Nil)
  {
    hide TagAt, TagText, Lex, AllBlank, Tokens;
    var k1 := Before(c, Ch('<', t));
    WrittenLex(i, l, blanks, false, k1);
    OneToken(LexState(Ch('<', Before(TagAt(i).name, TagText(l, blanks, false, k1))), None, false));
    UpToBefore(c, Ch('<', t), '<');
    CommentBehindContent(t);
  }

  // ----- elements the client does not print -----

  /** The document header, which "?>" closes. */
  lemma HeaderRead(l: List<Attribute>, blanks: string, k: Text)
    requires AreWritten(l, ["version", "encoding"]) && AllBlank(blanks) && (l.Cons? ==> l.head.gap != "")
    ensures Toks(Ch('<', Before("?xml", AttributesText(l, Before(blanks, Ch('?', Ch('>', k)))))))
         == Cons(Token(XTOK_XML, GivenValues(l, 2), None), if Head(SkipWS(k)) == '<' then Cons(Token(ZTOK_XML, [], None), Toks(k)) else Nil)
  {
    hide AttrList, Lex, AreNames, AreWritten, AllBlank, TagAt;
    HeaderTag();
    var names, end := ["version", "encoding"], Ch('?', Ch('>', k));
    var body := AttributesText(l, Before(blanks, end));
    HeaderRow(l, names, blanks, end);
    NamesOfLowRow(0);
    FoundLex(0, body);
    RestOfList("?xml", l, Before(blanks, end), names);
    SkipBlanks(blanks, end);
    HeaderEnd(k, names, Filled(l, Unsets(2)));
    SlotsAreGiven(l, names);
    OneToken(LexState(Ch('<', Before("?xml", body)), None, false));
    PendingToks(ZTOK_XML, k);
  }

  lemma HeaderEnd(k: Text, names: seq<string>, got: seq<Slot>)
    requires |names| == |got|
    ensures AttrList("?xml", SkipWS(Ch('?', Ch('>', k))), names, got) == AttrsOk(k, got, true)
  {
  }

  lemma HeaderTag()
    ensures TagAt(0) == Element("?xml", XTOK_XML, ZTOK_XML, ZTOK_XML, ["version", "encoding"], false, NoCheck)
  {
  }

  lemma HeaderRow(l: List<Attribute>, names: seq<string>, blanks: string, end: Text)
    requires AreWritten(l, names) && AllBlank(blanks) && (l.Cons? ==> l.head.gap != "") && Head(end) == '?'
    ensures Found(0, AttributesText(l, Before(blanks, end)))
  {
    hide TagAt;
    HeaderTag();
    var body := AttributesText(l, Before(blanks, end));
    if l.Cons? {
      assert IsBlank(l.head.gap[0]);
    } else if blanks != "" {
      assert IsBlank(blanks[0]);
    }
    assert !IsAlnum(Head(body));
    var w := "?xml";
    AfterSelf(w, body, 0, true);
    assert w[0..] == w;
  }

  lemma ExportCallRow(t: Text)
    requires IsDelimiter(Head(t))
    ensures Found(41, t)
  {
    hide FindTag, Word, Before, Tags, IsDelimiter;
    SkipRows("EXPMETHODCALL", t, 0, 4);
    SkipRow("EXPMETHODCALL", t, 4, 1);
    SkipRows("EXPMETHODCALL", t, 5, 41);
    ThisRow("EXPMETHODCALL", t, 41);
  }

  lemma ExportValueRow(t: Text)
    requires IsDelimiter(Head(t))
    ensures Found(42, t)
  {
    hide FindTag, Word, Before, Tags, IsDelimiter;
    SkipRows("EXPPARAMVALUE", t, 0, 4);
    SkipRow("EXPPARAMVALUE", t, 4, 1);
    SkipRows("EXPPARAMVALUE", t, 5, 41);
    SkipRow("EXPPARAMVALUE", t, 41, 3);
    ThisRow("EXPPARAMVALUE", t, 42);
  }

  lemma ParamValueRow(t: Text)
    requires IsDelimiter(Head(t))
    ensures Found(12, t)
  {
    hide FindTag, Word, Before, Tags, IsDelimiter;
    SkipRows("PARAMVALUE", t, 0, 12);
    ThisRow("PARAMVALUE", t, 12);
  }

  lemma OpenListLex(i: nat, l: List<Attribute>, blanks: string, k: Text)
    requires i < 43 && TagAt(i).Element? && TagAt(i).name != "" && TagAt(i).name[0] != '/' && TagAt(i).name[0] != '!' && !TagAt(i).content
    requires AreWritten(l, TagAt(i).attrs) && AllBlank(blanks) && Found(i, TagText(l, blanks, false, k))
    ensures var vs := GivenValues(l, |TagAt(i).attrs|); var bad := Checked(TagAt(i).check, vs);
            Toks(Ch('<', Before(TagAt(i).name, TagText(l, blanks, false, k))))
            == if bad.Some? then Nil else Cons(Token(TagAt(i).xtok, vs, None), Toks(k))
  {
    hide TagAt, TagText, AttrList, IsWritten, Lex, AllBlank, Checked, Found;
    var names := TagAt(i).attrs;
    NamesOfRow(i);
    FoundLex(i, TagText(l, blanks, false, k));
    ListRead(TagAt(i).name, l, blanks, false, k, names);
    SlotsAreGiven(l, names);
  }

  /** An export call is read only under the name of its row, without regard to case. */
  lemma ExportRead(row: nat, l: List<Attribute>, blanks: string, k: Text)
    requires (row == 41 || row == 42) && AreWritten(l, ["NAME"]) && AllBlank(blanks) && (l.Cons? ==> l.head.gap != "")
    ensures var v := Given(l, 0);
            Toks(Ch('<', Before(if row == 41 then "EXPMETHODCALL" else "EXPPARAMVALUE", TagText(l, blanks, false, k))))
            == if v.Some? && SameNoCase(v.value, if row == 41 then "ExportIndication" else "NewIndication")
               then Cons(Token(if row == 41 then XTOK_EXPORTINDICATION else XTOK_EP_INSTANCE, [v], None), Toks(k)) else Nil
  {
    hide TagText, Tokens, SameNoCase, AllBlank, TagAt;
    if l.Cons? { WrittenBlank(l.head, ["NAME"]); }
    TagDelimited(l, blanks, false, k);
    ExportRow(row);
    if row == 41 { ExportCallRow(TagText(l, blanks, false, k)); } else { ExportValueRow(TagText(l, blanks, false, k)); }
    OpenListLex(row, l, blanks, k);
    assert GivenValues(l, 1) == [Given(l, 0)];
  }

  lemma ExportRow(row: nat)
    requires row == 41 || row == 42
    ensures TagAt(row) == if row == 41 then Element("EXPMETHODCALL", XTOK_EXPORTINDICATION, ZTOK_EXPMETHODCALL, ZTOK_EXPMETHODCALL, ["NAME"], false, MustBe("ExportIndication"))
                          else Element("EXPPARAMVALUE", XTOK_EP_INSTANCE, ZTOK_EXPPARAMVALUE, ZTOK_EXPPARAMVALUE, ["NAME"], false, MustBe("NewIndication"))
  {
  }

  /** A parameter value is refused if its embedded object is said to be neither an instance nor an object. */
  lemma ParamValueRead(l: List<Attribute>, blanks: string, k: Text)
    requires AreWritten(l, ["NAME", "PARAMTYPE", "EMBEDDEDOBJECT"]) && AllBlank(blanks) && (l.Cons? ==> l.head.gap != "")
    ensures var v := Given(l, 2);
            Toks(Ch('<', Before("PARAMVALUE", TagText(l, blanks, false, k))))
            == if v.None? || SameNoCase(v.value, "instance") || SameNoCase(v.value, "object")
               then Cons(Token(XTOK_PARAMVALUE, GivenValues(l, 3), None), Toks(k)) else Nil
  {
    hide TagText, Tokens, SameNoCase, AllBlank, TagAt;
    if l.Cons? { WrittenBlank(l.head, ["NAME", "PARAMTYPE", "EMBEDDEDOBJECT"]); }
    TagDelimited(l, blanks, false, k);
    ParamRow();
    ParamValueRow(TagText(l, blanks, false, k));
    OpenListLex(12, l, blanks, k);
  }

  lemma ParamRow()
    ensures TagAt(12) == Element("PARAMVALUE", XTOK_PARAMVALUE, ZTOK_PARAMVALUE, ZTOK_PARAMVALUE, ["NAME", "PARAMTYPE", "EMBEDDEDOBJECT"], false, EmbeddedObject(2))
  {
  }
}
