/** The lexer of cimXmlParser.c as a function of the text still to be read. */
module Lexing {
  import opened CText

  /** What the process function checks beyond its attribute list. */
  datatype Check = NoCheck | MustBe(text: string) | EmbeddedObject(attr: nat)

  /** One row of the tag table together with its process function. `selfEnd` is the end token
      the process function hands to attrsOk for the "/>" form, `end` the one in the table. */
  datatype Tag =
    | Element(name: string, xtok: int, selfEnd: int, end: int, attrs: seq<string>, content: bool, check: Check)
    | Cdata(name: string, xtok: int, end: int)

  datatype Token = Token(code: int, attrs: seq<Option<string>>, content: Option<string>)

  /** The text still to be read, the end token pending after a "/>", and whether the '<' at the front
      of the text has been overwritten to terminate the content string before it. */
  datatype LexState = LexState(text: Text, pending: Option<int>, nulled: bool)

  /** Why no token is returned: sfccLex returns 0, Throw ends the process, or the C code reads beyond
      the terminator (or through a null pointer). */
  datatype Why = NoTag | Throw | Overrun

  datatype Lexed = Tok(token: Token, next: LexState) | Stop(why: Why)

  /** An attribute not yet seen, or its value (none if the quote is missing). */
  datatype Slot = Unset | Bound(v: Option<string>)

  datatype Attrs = AttrsOk(rest: Text, got: seq<Slot>, closed: bool) | AttrsStop(why: Why)

  datatype Valued = Valued(v: Option<string>, rest: Text) | NoValue(why: Why)

  predicate WellFormed(st: LexState) {
    st.nulled ==> st.pending.None? && Head(st.text) == '<'
  }

  predicate IsQuote(c: char) { c == '"' || c == '\'' }

  /** getValue; escaping the quote is not possible. */
  function GetValue(t: Text): (r: Valued)
    ensures r.Valued? ==> Length(r.rest) <= Length(t)
  {
    var t1 := SkipWS(t);
    if !IsQuote(Head(t1)) then Valued(None, t1)
    else
      var k := UpTo(t1.rest, t1.c);
      if k.rest.End? then NoValue(Overrun) else Valued(Some(k.s), k.rest.rest)
  }

  /** What follows an attribute's name. */
  function AttrValue(t: Text): (r: Valued)
    ensures r.Valued? ==> Length(r.rest) < Length(t)
  {
    var t1 := SkipWS(t);
    if Head(t1) != '=' then NoValue(Throw) else GetValue(t1.rest)
  }

  /** The first attribute from `n` on that is not yet set and stands at the front. */
  function FindAttr(t: Text, names: seq<string>, got: seq<Slot>, n: nat): (k: nat)
    requires n <= |names| == |got|
    ensures n <= k <= |names|
    ensures k < |names| ==> Word(t, names[k], false).Some?
    decreases |names| - n
  {
    if n == |names| || (got[n].Unset? && Word(t, names[n], false).Some?) then n else FindAttr(t, names, got, n + 1)
  }

  function CloseTag(tag: string, t: Text, got: seq<Slot>): (r: Attrs)
    ensures r.AttrsOk? ==> Length(r.rest) < Length(t) && r.got == got
  {
    if Head(t) == '/' && Head(t.rest) == '>' then AttrsOk(t.rest.rest, got, true)
    else if Head(t) == '>' then AttrsOk(t.rest, got, false)
    else if Head(t) == '?' && Head(t.rest) == '>' && tag == "?xml" then AttrsOk(t.rest.rest, got, true)
    else AttrsStop(Throw)
  }

  /** The loop of attrsOk, with `t` at the start of an attribute or of the end of the tag. */
  function AttrList(tag: string, t: Text, names: seq<string>, got: seq<Slot>): (r: Attrs)
    requires |names| == |got|
    ensures r.AttrsOk? ==> Length(r.rest) < Length(t) && |r.got| == |names|
    decreases Length(t)
  {
    if !IsAlpha(Head(t)) then CloseTag(tag, t, got)
    else
      var n := FindAttr(t, names, got, 0);
      if n == |names| then AttrsStop(Throw)
      else
        match AttrValue(Word(t, names[n], false).value)
        case NoValue(why) => AttrsStop(why)
        case Valued(v, rest) => AttrList(tag, SkipWS(rest), names, got[n := Bound(v)])
  }

  predicate ValidTag(t: Tag) {
    && NulFree(t.name)
    && (t.Element? && t.check.MustBe? ==> NulFree(t.check.text))
    && (t.Element? ==> t.name != "" && !IsBlank(t.name[0]) && forall i :: 0 <= i < |t.attrs| ==> NulFree(t.attrs[i]))
  }

  predicate ValidTags(tags: seq<Tag>) {
    forall i :: 0 <= i < |tags| ==> ValidTag(tags[i])
  }

  function Unsets(n: nat): seq<Slot> { seq(n, _ => Unset) }

  function SlotValue(s: Slot): Option<string> {
    match s
    case Unset => None
    case Bound(v) => v
  }

  function SlotValues(got: seq<Slot>): seq<Option<string>> {
    seq(|got|, i requires 0 <= i < |got| => SlotValue(got[i]))
  }

  /** getContent: element content up to the next '<' or the end of the text. */
  function ContentToken(code: int, attrs: seq<Option<string>>, t: Text): (r: Lexed)
    ensures r.Tok? && Length(r.next.text) <= Length(t) && WellFormed(r.next)
  {
    var k := UpTo(t, '<');
    Tok(Token(code, attrs, Some(Trim(k.s))), LexState(k.rest, None, k.s != "" && k.rest.Ch?))
  }

  function Checked(check: Check, attrs: seq<Option<string>>): Option<Why> {
    match check
    case NoCheck => None
    case MustBe(s) =>
      if |attrs| == 0 || attrs[0].None? then Some(Overrun)
      else if SameNoCase(attrs[0].value, s) then None else Some(NoTag)
    case EmbeddedObject(k) =>
      if k < |attrs| && attrs[k].Some?
         && !SameNoCase(attrs[k].value, "instance") && !SameNoCase(attrs[k].value, "object")
      then Some(Throw) else None
  }

  /** The process function of an element, called with the text behind the tag's name. */
  function ProcessElement(t: Tag, body: Text): (r: Lexed)
    requires t.Element?
    ensures r.Tok? ==> Length(r.next.text) <= Length(body) && WellFormed(r.next)
  {
    match AttrList(t.name, SkipWS(body), t.attrs, Unsets(|t.attrs|))
    case AttrsStop(w) => Stop(w)
    case AttrsOk(rest, got, closed) =>
      var attrs := SlotValues(got);
      var bad := Checked(t.check, attrs);
      if bad.Some? then Stop(bad.value)
      else if closed then Tok(Token(t.xtok, attrs, None), LexState(rest, Some(t.selfEnd), false))
      else if t.content then ContentToken(t.xtok, attrs, rest)
      else Tok(Token(t.xtok, attrs, None), LexState(rest, None, false))
  }

  /** The first "]]>" becomes "</>", so that the lexer finds an end tag there. */
  function CloseCdata(t: Text): (r: Option<Text>)
    ensures r.Some? ==> Length(r.value) == Length(t)
  {
    match After(t, "]]>", 0, true)
    case Some(rest) => Some(Ch('<', Ch('/', Ch('>', rest))))
    case None =>
      if t.End? then None
      else
        match CloseCdata(t.rest)
        case None => None
        case Some(r) => Some(Ch(t.c, r))
  }

  /** procCdata, called with the text behind the '<'. */
  function ProcessCdata(t: Tag, text: Text): (r: Lexed)
    requires t.Cdata?
    ensures r.Tok? ==> Length(r.next.text) <= Length(text) && WellFormed(r.next)
  {
    match Word(SkipWS(text), "![CDATA[", true)
    case None => Stop(NoTag)
    case Some(body) =>
      match CloseCdata(body)
      case None => Stop(NoTag)
      case Some(rest) => Tok(Token(t.xtok, [], None), LexState(rest, None, false))
  }

  /** The first row of the tag table, from `i` on, whose name stands at the front. */
  function FindTag(tags: seq<Tag>, t: Text, i: nat): (k: nat)
    requires i <= |tags|
    ensures i <= k <= |tags|
    ensures k < |tags| ==> Word(t, tags[k].name, true).Some?
    decreases |tags| - i
  {
    if i == |tags| || Word(t, tags[i].name, true).Some? then i else FindTag(tags, t, i + 1)
  }

  function EndTag(tags: seq<Tag>, name: Text): (r: Lexed)
    ensures r.Tok? ==> Length(r.next.text) <= Length(name) && WellFormed(r.next)
  {
    var i := FindTag(tags, name, 0);
    if i == |tags| then Stop(NoTag)
    else
      var k := UpTo(name, '>');
      if k.rest.End? then Stop(Overrun)
      else Tok(Token(tags[i].end, [], None), LexState(k.rest.rest, None, false))
  }

  function StartTag(tags: seq<Tag>, name: Text): (r: Lexed)
    ensures r.Tok? ==> Length(r.next.text) <= Length(name) && WellFormed(r.next)
  {
    var i := FindTag(tags, name, 0);
    if i == |tags| then Stop(NoTag)
    else if tags[i].Cdata? then ProcessCdata(tags[i], name)
    else ProcessElement(tags[i], Word(name, tags[i].name, true).value)
  }

  /** sfccLex on the text behind a '<', with no end token pending. */
  function LexTag(tags: seq<Tag>, name: Text): (r: Lexed)
    ensures r.Tok? ==> Length(r.next.text) <= Length(name) && WellFormed(r.next)
  {
    if Head(name) == '/' then EndTag(tags, name.rest) else StartTag(tags, name)
  }

  /** One call of sfccLex. */
  function Lex(tags: seq<Tag>, st: LexState): (r: Lexed)
    requires WellFormed(st)
    ensures r.Tok? ==> WellFormed(r.next)
    ensures r.Tok? ==> Length(r.next.text) < Length(st.text) || (Length(r.next.text) <= Length(st.text) && st.pending.Some? && r.next.pending.None?)
    decreases Length(st.text)
  {
    var t := if st.nulled then st.text else SkipWS(st.text);
    if Head(t) != '<' then Stop(NoTag)
    else if st.pending.Some? then Tok(Token(st.pending.value, [], None), LexState(t, None, false))
    else if !st.nulled && After(t, "<!--", 0, true).Some? then
      match AfterSub(t, "-->")
      case None => Stop(Overrun)
      case Some(rest) => Lex(tags, LexState(rest, None, false))
    else LexTag(tags, t.rest)
  }

  /** All tokens that repeated calls of sfccLex return. */
  function Tokens(tags: seq<Tag>, st: LexState): List<Token>
    requires WellFormed(st)
    decreases Length(st.text), if st.pending.Some? then 1 else 0
  {
    match Lex(tags, st)
    case Stop(_) => Nil
    case Tok(t, next) => Cons(t, Tokens(tags, next))
  }
}
