/** pathToXml: the printer, appending to a string buffer. */
module PathWriter {
  import opened CText
  import opened CimTags
  import opened TagLookup
  import opened Markup
  import opened CimData
  import opened PathXml
  import opened StringBuffers

  // ----- the literals of the printer -----

  lemma NoValues(i: nat)
    requires IsPrinted(i)
    ensures OpenXml(i, []) == "<" + TagAt(i).name + ">"
  {
  }

  lemma OneValue(i: nat, v: string)
    requires IsPrinted(i) && |TagAt(i).attrs| > 0
    ensures OpenXml(i, [v]) == "<" + TagAt(i).name + " " + TagAt(i).attrs[0] + "=\"" + v + "\">"
  {
    var a := TagAt(i).attrs;
    assert AttrsXml(a, [v], 0) == AttrXml(a[0], v) + AttrsXml(a, [v], 1);
    assert "\"" + ">" == "\">";
  }

  lemma Xml3(p: Piece, q: Piece, r: Piece, m: List<Piece>)
    requires IsPiece(p) && IsPiece(q) && IsPiece(r) && ArePieces(m)
    ensures Xml(Pieces3(p, q, r, m)) == PieceXml(p) + PieceXml(q) + PieceXml(r) + Xml(m)
  {
    hide IsPiece, PieceXml;
    assert Xml(Cons(r, m)) == PieceXml(r) + Xml(m);
    assert Xml(Cons(q, Cons(r, m))) == PieceXml(q) + Xml(Cons(r, m));
  }

  lemma NewlineXml()
    ensures PieceXml(Newline) == "\n"
  {
  }

  lemma Line(p: Piece, m: List<Piece>)
    requires IsPiece(p) && ArePieces(m)
    ensures Xml(Cons(p, Cons(Newline, m))) == PieceXml(p) + "\n" + Xml(m)
  {
    hide PieceXml;
    NewlineXml();
    assert Xml(Cons(Newline, m)) == PieceXml(Newline) + Xml(m);
    assert Xml(Cons(p, Cons(Newline, m))) == PieceXml(p) + Xml(Cons(Newline, m));
    Moved(PieceXml(p), "\n", Xml(m));
  }

  lemma OpenPiece(i: nat, v: string)
    requires IsPiece(Open(i, [v]))
    ensures PieceXml(Open(i, [v])) == OpenXml(i, [v])
  {
  }

  /** A line that is one start tag. */
  lemma StartLine(i: nat, v: string, a: string, m: List<Piece>)
    requires ArePieces(m) && IsPiece(Open(i, [v])) && OpenXml(i, [v]) == a + v + "\">"
    ensures Xml(Cons(Open(i, [v]), Cons(Newline, m))) == a + v + "\">\n" + Xml(m)
  {
    hide PieceXml, Xml, OpenXml;
    OpenPiece(i, v);
    Line(Open(i, [v]), m);
    TagEnd();
    EndJoin(a + v, "\">", "\n", Xml(m));
  }

  lemma TagEnd()
    ensures "\">" + "\n" == "\">\n"
  {
  }

  lemma EndJoin(a: string, b: string, c: string, d: string)
    ensures a + b + c + d == a + (b + c) + d
  {
  }

  lemma LocalNameSpacePathOpen()
    ensures OpenXml(7, []) == "<LOCALNAMESPACEPATH>"
  {
    NoValues(7);
  }

  lemma NameSpacePathOpen()
    ensures OpenXml(10, []) == "<NAMESPACEPATH>"
  {
    NoValues(10);
  }

  lemma ValueReferenceOpen()
    ensures OpenXml(16, []) == "<VALUE.REFERENCE>"
  {
    NoValues(16);
  }

  lemma HostOpen()
    ensures OpenXml(20, []) == "<HOST>"
  {
    NoValues(20);
  }

  lemma InstancePathOpen()
    ensures OpenXml(23, []) == "<INSTANCEPATH>"
  {
    NoValues(23);
  }

  lemma LocalNameSpacePathClose()
    ensures CloseXml(7) == "</LOCALNAMESPACEPATH>"
  {
  }

  lemma NameSpacePathClose()
    ensures CloseXml(10) == "</NAMESPACEPATH>"
  {
  }

  lemma NameSpaceClose()
    ensures CloseXml(11) == "</NAMESPACE>"
  {
  }

  lemma ValueReferenceClose()
    ensures CloseXml(16) == "</VALUE.REFERENCE>"
  {
  }

  lemma HostClose()
    ensures CloseXml(20) == "</HOST>"
  {
  }

  lemma KeyValueClose()
    ensures CloseXml(21) == "</KEYVALUE>"
  {
  }

  lemma KeyBindingClose()
    ensures CloseXml(22) == "</KEYBINDING>"
  {
  }

  lemma InstancePathClose()
    ensures CloseXml(23) == "</INSTANCEPATH>"
  {
  }

  lemma InstanceNameClose()
    ensures CloseXml(24) == "</INSTANCENAME>"
  {
  }

  lemma NameSpaceOpen(v: string)
    ensures OpenXml(11, [v]) == "<NAMESPACE NAME=\"" + v + "\">"
  {
    OneValue(11, v);
    assert "<" + "NAMESPACE" + " " + "NAME" + "=\"" == "<NAMESPACE NAME=\"";
  }

  lemma KeyValueOpen(v: string)
    ensures OpenXml(21, [v]) == "<KEYVALUE VALUETYPE=\"" + v + "\">"
  {
    OneValue(21, v);
    assert "<" + "KEYVALUE" + " " + "VALUETYPE" + "=\"" == "<KEYVALUE VALUETYPE=\"";
  }

  lemma KeyBindingOpen(v: string)
    ensures OpenXml(22, [v]) == "<KEYBINDING NAME=\"" + v + "\">"
  {
    OneValue(22, v);
    assert "<" + "KEYBINDING" + " " + "NAME" + "=\"" == "<KEYBINDING NAME=\"";
  }

  lemma InstanceNameOpen(v: string)
    ensures OpenXml(24, [v]) == "<INSTANCENAME CLASSNAME=\"" + v + "\">"
  {
    OneValue(24, v);
    assert "<" + "INSTANCENAME" + " " + "CLASSNAME" + "=\"" == "<INSTANCENAME CLASSNAME=\"";
  }

  // ----- the pieces each call appends -----

  lemma RefOpenLiteral()
    ensures "<VALUE.REFERENCE>" + "<INSTANCEPATH>" + "\n" == "<VALUE.REFERENCE><INSTANCEPATH>\n"
  {
  }

  lemma RefOpenXml(m: List<Piece>)
    requires ArePieces(m)
    ensures Xml(Pieces3(Open(16, []), Open(23, []), Newline, m)) == "<VALUE.REFERENCE><INSTANCEPATH>\n" + Xml(m)
  {
    ValueReferenceOpen();
    InstancePathOpen();
    RefOpenLiteral();
    Xml3(Open(16, []), Open(23, []), Newline, m);
  }

  lemma HostLiteral()
    ensures "<NAMESPACEPATH>" + "<HOST>" == "<NAMESPACEPATH><HOST>" && "</HOST>" + "\n" == "</HOST>\n"
  {
  }

  lemma HostXml(m: List<Piece>)
    requires ArePieces(m)
    ensures Xml(Pieces3(Open(10, []), Content(20, [], "localhost"), Newline, m))
         == "<NAMESPACEPATH><HOST>" + "localhost" + "</HOST>\n" + Xml(m)
  {
    NameSpacePathOpen();
    HostOpen();
    HostClose();
    HostLiteral();
    Xml3(Open(10, []), Content(20, [], "localhost"), Newline, m);
    HostJoin("<NAMESPACEPATH>", "<HOST>", "localhost", "</HOST>", "\n");
  }

  lemma HostJoin(a: string, b: string, c: string, d: string, e: string)
    ensures a + (b + c + d) + e == (a + b) + c + (d + e)
  {
  }

  lemma LocalOpenLiteral()
    ensures "<LOCALNAMESPACEPATH>" + "\n" == "<LOCALNAMESPACEPATH>\n"
  {
  }

  lemma LocalOpenXml(m: List<Piece>)
    requires ArePieces(m)
    ensures Xml(Cons(Open(7, []), Cons(Newline, m))) == "<LOCALNAMESPACEPATH>\n" + Xml(m)
  {
    LocalNameSpacePathOpen();
    LocalOpenLiteral();
    Line(Open(7, []), m);
  }

  lemma NameSpaceLiteral()
    ensures "\">" + "</NAMESPACE>" + "\n" == "\"></NAMESPACE>\n"
  {
  }

  lemma NameSpaceXml(v: string, m: List<Piece>)
    requires ArePieces(m)
    ensures Xml(Pieces3(Open(11, [v]), Close(11), Newline, m)) == "<NAMESPACE NAME=\"" + v + "\"></NAMESPACE>\n" + Xml(m)
  {
    NameSpaceOpen(v);
    NameSpaceClose();
    NameSpaceLiteral();
    Xml3(Open(11, [v]), Close(11), Newline, m);
    NameSpaceJoin("<NAMESPACE NAME=\"", v, "\">", "</NAMESPACE>", "\n");
  }

  lemma NameSpaceJoin(a: string, b: string, c: string, d: string, e: string)
    ensures (a + b + c) + d + e == a + b + (c + d + e)
  {
  }

  lemma LocalCloseLiteral()
    ensures "</LOCALNAMESPACEPATH>" + "</NAMESPACEPATH>" + "\n" == "</LOCALNAMESPACEPATH></NAMESPACEPATH>\n"
  {
  }

  lemma LocalCloseXml(m: List<Piece>)
    requires ArePieces(m)
    ensures Xml(Pieces3(Close(7), Close(10), Newline, m)) == "</LOCALNAMESPACEPATH></NAMESPACEPATH>\n" + Xml(m)
  {
    LocalNameSpacePathClose();
    NameSpacePathClose();
    LocalCloseLiteral();
    Xml3(Close(7), Close(10), Newline, m);
  }

  lemma NameOpenXml(v: string, m: List<Piece>)
    requires ArePieces(m)
    ensures Xml(Cons(Open(24, [v]), m)) == "<INSTANCENAME CLASSNAME=\"" + v + "\">" + Xml(m)
  {
    InstanceNameOpen(v);
  }

  lemma RefCloseLiteral()
    ensures "</INSTANCENAME>" + "</INSTANCEPATH>" + "</VALUE.REFERENCE>" == "</INSTANCENAME></INSTANCEPATH></VALUE.REFERENCE>"
  {
  }

  lemma RefCloseXml(m: List<Piece>)
    requires ArePieces(m)
    ensures Xml(Pieces3(Close(24), Close(23), Close(16), m)) == "</INSTANCENAME></INSTANCEPATH></VALUE.REFERENCE>" + Xml(m)
  {
    InstanceNameClose();
    InstancePathClose();
    ValueReferenceClose();
    RefCloseLiteral();
    Xml3(Close(24), Close(23), Close(16), m);
  }

  lemma KeyOpenXml(v: string, m: List<Piece>)
    requires ArePieces(m)
    ensures Xml(Cons(Open(22, [v]), m)) == "<KEYBINDING NAME=\"" + v + "\">" + Xml(m)
  {
    KeyBindingOpen(v);
  }

  lemma KeyCloseLiteral()
    ensures "</KEYBINDING>" + "\n" == "</KEYBINDING>\n"
  {
  }

  lemma KeyCloseXml(m: List<Piece>)
    requires ArePieces(m)
    ensures Xml(Cons(Close(22), Cons(Newline, m))) == "</KEYBINDING>\n" + Xml(m)
  {
    KeyBindingClose();
    KeyCloseLiteral();
    Line(Close(22), m);
  }

  lemma KeyValueXml(t: string, c: string, m: List<Piece>)
    requires ArePieces(m)
    ensures Xml(Cons(Content(21, [t], c), m)) == "<KEYVALUE VALUETYPE=\"" + t + "\">" + c + "</KEYVALUE>" + Xml(m)
  {
    KeyValueOpen(t);
    KeyValueClose();
  }

  /** The text of a key: its name, the type of its value as DSP0201 calls it, and the value. */
  lemma PrintedKey(name: string, v: Scalar, m: List<Piece>)
    requires ArePieces(m)
    ensures var t := if v.Bool? then "boolean" else if v.Str? then "string" else "numeric";
            var c := match v case Bool(b) => (if b then "true" else "false") case Uint(_, n) => Dec(n) case Sint(_, i) => SignedDec(i) case Str(x) => x;
            Xml(KeysMarkup(Cons(Key(name, Plain(v)), Nil), m))
            == "<KEYBINDING NAME=\"" + name + "\">" + ("<KEYVALUE VALUETYPE=\"" + t + "\">" + c + "</KEYVALUE>" + ("</KEYBINDING>\n" + Xml(m)))
  {
    hide Xml;
    var m1 := Cons(Close(22), Cons(Newline, m));
    var m2 := Cons(Content(21, [KeyType(v)], CharsOf(v)), m1);
    assert KeysMarkup(Cons(Key(name, Plain(v)), Nil), m) == Cons(Open(22, [name]), m2);
    KeyOpenXml(name, m2);
    KeyValueXml(KeyType(v), CharsOf(v), m1);
    KeyCloseXml(m);
  }

  // ----- the printer -----

  /** The buffer is valid, and its block the old one or a new one. */
  twostate predicate Kept(sb: StringBuffer)
    reads sb, sb.hdl
  {
    sb.Valid() && (sb.hdl == old(sb.hdl) || fresh(sb.hdl))
  }

  method Append3Chars(sb: StringBuffer, a: string, b: Option<string>, c: string)
    requires sb.Valid()
    modifies sb, sb.hdl
    ensures Kept(sb) && sb.Contents() == old(sb.Contents()) + (a + OrEmpty(b) + c)
  {
    sb.AppendChars(Some(a));
    sb.AppendChars(b);
    sb.AppendChars(Some(c));
    Joined3(old(sb.Contents()), a, OrEmpty(b), c);
  }

  lemma Joined3(s: string, a: string, b: string, c: string)
    ensures s + a + b + c == s + (a + b + c)
  {
  }

  /** What is appended in front of `m` is the text of some pieces `l`. */
  twostate predicate Printed(sb: StringBuffer, new l: List<Piece>, new m: List<Piece>)
    requires ArePieces(l) && ArePieces(m)
    reads sb, sb.hdl
  {
    Kept(sb) && old(sb.len <= sb.hdl.Length) && sb.Contents() + Xml(m) == old(sb.Contents()) + Xml(l)
  }

  lemma Moved(s: string, a: string, x: string)
    ensures (s + a) + x == s + (a + x)
  {
  }

  method NameSpaceToXml(sb: StringBuffer, v: string, ghost m: List<Piece>)
    requires sb.Valid() && ArePieces(m)
    modifies sb, sb.hdl
    ensures Printed(sb, Pieces3(Open(11, [v]), Close(11), Newline, m), m)
  {
    hide Xml, ArePieces;
    NameSpaceXml(v, m);
    Append3Chars(sb, "<NAMESPACE NAME=\"", Some(v), "\"></NAMESPACE>\n");
    Moved(old(sb.Contents()), "<NAMESPACE NAME=\"" + v + "\"></NAMESPACE>\n", Xml(m));
  }

  /** The name space is cut at each slash. */
  method NameSpacesToXml(sb: StringBuffer, ns: Option<string>, ghost m: List<Piece>)
    requires sb.Valid() && ArePieces(m)
    modifies sb, sb.hdl
    ensures Printed(sb, NsMarkup(Components(ns), m), m)
  {
    hide Xml, ArePieces;
    if ns.None? { return; }
    ghost var goal := sb.Contents() + Xml(NsMarkup(Parts(ns.value), m));
    var p1 := ns.value;
    var p2 := Slash(p1, 0);
    while p2 < |p1|
      invariant Kept(sb) && p2 == Slash(p1, 0) && sb.Contents() + Xml(NsMarkup(Parts(p1), m)) == goal
      decreases |p1|
    {
      NameSpaceToXml(sb, p1[..p2], NsMarkup(Parts(p1[p2 + 1..]), m));
      p1 := p1[p2 + 1..];
      p2 := Slash(p1, 0);
    }
    NameSpaceToXml(sb, p1, m);
  }

  method AppendLiteral(sb: StringBuffer, a: string, ghost l: List<Piece>, ghost m: List<Piece>)
    requires sb.Valid() && ArePieces(l) && ArePieces(m) && Xml(l) == a + Xml(m)
    modifies sb, sb.hdl
    ensures Printed(sb, l, m)
  {
    hide Xml, ArePieces;
    sb.AppendChars(Some(a));
    Moved(old(sb.Contents()), a, Xml(m));
  }

  /** The path of a reference up to the name of its class. */
  method HostToXml(sb: StringBuffer, ns: Option<string>, ghost m: List<Piece>)
    requires sb.Valid() && ArePieces(m)
    modifies sb, sb.hdl
    ensures Printed(sb, HostMarkup(ns, m), m)
  {
    hide Xml, NsMarkup;
    ghost var m1 := Pieces3(Close(7), Close(10), Newline, m);
    ghost var m2 := NsMarkup(Components(ns), m1);
    ghost var m3 := Cons(Open(7, []), Cons(Newline, m2));
    HostToken(sb, m3);
    LocalOpenXml(m2);
    AppendLiteral(sb, "<LOCALNAMESPACEPATH>\n", m3, m2);
    NameSpacesToXml(sb, ns, m1);
    LocalCloseXml(m);
    AppendLiteral(sb, "</LOCALNAMESPACEPATH></NAMESPACEPATH>\n", m1, m);
  }

  method HostToken(sb: StringBuffer, ghost m: List<Piece>)
    requires sb.Valid() && ArePieces(m)
    modifies sb, sb.hdl
    ensures Printed(sb, Pieces3(Open(10, []), Content(20, [], "localhost"), Newline, m), m)
  {
    hide Xml, ArePieces;
    HostXml(m);
    Append3Chars(sb, "<NAMESPACEPATH><HOST>", Some("localhost"), "</HOST>\n");
    Moved(old(sb.Contents()), "<NAMESPACEPATH><HOST>" + "localhost" + "</HOST>\n", Xml(m));
  }

  method NameToken(sb: StringBuffer, cls: Option<string>, ghost m: List<Piece>)
    requires sb.Valid() && ArePieces(m)
    modifies sb, sb.hdl
    ensures Printed(sb, Cons(Open(24, [OrEmpty(cls)]), m), m)
  {
    hide Xml, ArePieces;
    NameOpenXml(OrEmpty(cls), m);
    Append3Chars(sb, "<INSTANCENAME CLASSNAME=\"", cls, "\">");
    Moved(old(sb.Contents()), "<INSTANCENAME CLASSNAME=\"" + OrEmpty(cls) + "\">", Xml(m));
  }

  method KeyToken(sb: StringBuffer, name: string, ghost m: List<Piece>)
    requires sb.Valid() && ArePieces(m)
    modifies sb, sb.hdl
    ensures Printed(sb, Cons(Open(22, [name]), m), m)
  {
    hide Xml, ArePieces;
    KeyOpenXml(name, m);
    Append3Chars(sb, "<KEYBINDING NAME=\"", Some(name), "\">");
    Moved(old(sb.Contents()), "<KEYBINDING NAME=\"" + name + "\">", Xml(m));
  }

  method Append5Chars(sb: StringBuffer, a: string, b: string, c: string, d: string, e: string)
    requires sb.Valid()
    modifies sb, sb.hdl
    ensures Kept(sb) && sb.Contents() == old(sb.Contents()) + (a + b + c + d + e)
  {
    Append3Chars(sb, a, Some(b), c);
    sb.AppendChars(Some(d));
    sb.AppendChars(Some(e));
    Joined3(old(sb.Contents()), a + b + c, d, e);
  }

  method KeyValueToXml(sb: StringBuffer, v: Scalar, ghost m: List<Piece>)
    requires sb.Valid() && ArePieces(m)
    modifies sb, sb.hdl
    ensures Printed(sb, ValueMarkup(Plain(v), m), m)
  {
    hide Xml, ArePieces, KeyType, CharsOf;
    var t, cv := KeyType(v), CharsOf(v);
    KeyValueXml(t, cv, m);
    Append5Chars(sb, "<KEYVALUE VALUETYPE=\"", t, "\">", cv, "</KEYVALUE>");
    Moved(old(sb.Contents()), "<KEYVALUE VALUETYPE=\"" + t + "\">" + cv + "</KEYVALUE>", Xml(m));
  }

  method RefToXml(sb: StringBuffer, ref: Path, ghost m: List<Piece>)
    requires sb.Valid() && ArePieces(m)
    modifies sb, sb.hdl
    ensures Printed(sb, RefMarkup(ref, m), m)
    decreases ref, 1
  {
    hide Xml, HostMarkup, KeysMarkup;
    ghost var m1 := Pieces3(Close(24), Close(23), Close(16), m);
    ghost var m2 := KeysMarkup(ref.keys, m1);
    ghost var m3 := Cons(Open(24, [OrEmpty(ref.cls)]), m2);
    ghost var m4 := HostMarkup(ref.ns, m3);
    assert RefMarkup(ref, m) == Pieces3(Open(16, []), Open(23, []), Newline, m4);
    RefOpenXml(m4);
    AppendLiteral(sb, "<VALUE.REFERENCE><INSTANCEPATH>\n", RefMarkup(ref, m), m4);
    HostToXml(sb, ref.ns, m3);
    NameToken(sb, ref.cls, m2);
    PathToXml(sb, ref, m1);
    RefCloseXml(m);
    AppendLiteral(sb, "</INSTANCENAME></INSTANCEPATH></VALUE.REFERENCE>", m1, m);
  }

  method KeyToXml(sb: StringBuffer, key: Key, ghost m: List<Piece>)
    requires sb.Valid() && ArePieces(m)
    modifies sb, sb.hdl
    ensures Printed(sb, KeysMarkup(Cons(key, Nil), m), m)
    decreases key, 0
  {
    hide Xml;
    ghost var m1 := Cons(Close(22), Cons(Newline, m));
    ghost var m2 := ValueMarkup(key.value, m1);
    assert KeysMarkup(Cons(key, Nil), m) == Cons(Open(22, [key.name]), m2);
    KeyToken(sb, key.name, m2);
    match key.value {
      case Plain(v) => KeyValueToXml(sb, v, m1);
      case Ref(p) => RefToXml(sb, p, m1);
    }
    KeyCloseXml(m);
    AppendLiteral(sb, "</KEYBINDING>\n", m1, m);
  }

  /** The keys in the order of the path's list. */
  method PathToXml(sb: StringBuffer, cop: Path, ghost m: List<Piece>)
    requires sb.Valid() && ArePieces(m)
    modifies sb, sb.hdl
    ensures Printed(sb, KeysMarkup(cop.keys, m), m)
    decreases cop, 0
  {
    hide Xml, ArePieces, ValueMarkup;
    ghost var goal := sb.Contents() + Xml(KeysMarkup(cop.keys, m));
    var keys := cop.keys;
    while keys.Cons?
      invariant Kept(sb) && (keys == cop.keys || keys < cop.keys)
      invariant sb.Contents() + Xml(KeysMarkup(keys, m)) == goal
      decreases keys
    {
      assert KeysMarkup(Cons(keys.head, Nil), KeysMarkup(keys.tail, m)) == KeysMarkup(keys, m);
      KeyToXml(sb, keys.head, KeysMarkup(keys.tail, m));
      keys := keys.tail;
    }
  }

  method NameLineToken(sb: StringBuffer, cls: Option<string>, ghost m: List<Piece>)
    requires sb.Valid() && ArePieces(m)
    modifies sb, sb.hdl
    ensures Printed(sb, Cons(Open(24, [OrEmpty(cls)]), Cons(Newline, m)), m)
  {
    hide Xml, ArePieces;
    NameLineXml(OrEmpty(cls), m);
    Append3Chars(sb, "<INSTANCENAME CLASSNAME=\"", cls, "\">\n");
    Moved(old(sb.Contents()), "<INSTANCENAME CLASSNAME=\"" + OrEmpty(cls) + "\">\n", Xml(m));
  }

  /** The whole element around a path's keys, into a new buffer. */
  method PrintPath(cop: Path) returns (sb: StringBuffer)
    ensures fresh(sb) && sb.Valid() && sb.Contents() == Xml(NameMarkup(cop, Nil))
  {
    hide KeysMarkup;
    sb := new StringBuffer(0);
    ghost var m1 := Cons(Close(24), Cons(Newline, Nil));
    ghost var m2 := KeysMarkup(cop.keys, m1);
    assert NameMarkup(cop, Nil) == Cons(Open(24, [OrEmpty(cop.cls)]), Cons(Newline, m2));
    NameLineToken(sb, cop.cls, m2);
    PathToXml(sb, cop, m1);
    NameEndXml();
    AppendLiteral(sb, "</INSTANCENAME>\n", m1, Nil);
    assert sb.Contents() + "" == sb.Contents();
  }

  lemma NameLineXml(v: string, m: List<Piece>)
    requires ArePieces(m)
    ensures Xml(Cons(Open(24, [v]), Cons(Newline, m))) == "<INSTANCENAME CLASSNAME=\"" + v + "\">\n" + Xml(m)
  {
    InstanceNameOpen(v);
    StartLine(24, v, "<INSTANCENAME CLASSNAME=\"", m);
  }

  lemma NameEndXml()
    ensures Xml(Cons(Close(24), Cons(Newline, Nil))) == "</INSTANCENAME>\n" + Xml(Nil)
  {
    InstanceNameClose();
    Line(Close(24), Nil);
    assert "</INSTANCENAME>" + "\n" == "</INSTANCENAME>\n";
  }
}
