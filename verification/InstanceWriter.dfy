/** addXmlInstance, addXmlValue and addXmlReference: the printer, appending to a string buffer. */
module InstanceWriter {
  import opened CText
  import opened CimTags
  import opened TagLookup
  import opened Markup
  import opened CimData
  import opened PathXml
  import opened Escaping
  import opened InstanceXml
  import opened StringBuffers
  import opened PathWriter

  // ----- literals -----

  lemma OpenLineXml(row: nat, lit: string, m: List<Piece>)
    requires IsPiece(Open(row, [])) && ArePieces(m) && lit == "<" + TagAt(row).name + ">" + "\n"
    ensures Xml(LineOf(Open(row, []), m)) == lit + Xml(m)
  {
    NoValues(row);
    Line(Open(row, []), m);
  }

  lemma CloseLineXml(row: nat, lit: string, m: List<Piece>)
    requires IsPrinted(row) && ArePieces(m) && lit == "</" + TagAt(row).name + ">" + "\n"
    ensures Xml(LineOf(Close(row), m)) == lit + Xml(m)
  {
    Line(Close(row), m);
  }

  method OpenLine(sb: StringBuffer, lit: string, ghost row: nat, ghost m: List<Piece>)
    requires sb.Valid() && IsPiece(Open(row, [])) && ArePieces(m) && lit == "<" + TagAt(row).name + ">" + "\n"
    modifies sb, sb.hdl
    ensures Printed(sb, LineOf(Open(row, []), m), m)
  {
    hide Xml, ArePieces;
    OpenLineXml(row, lit, m);
    AppendLiteral(sb, lit, LineOf(Open(row, []), m), m);
  }

  method CloseLine(sb: StringBuffer, lit: string, ghost row: nat, ghost m: List<Piece>)
    requires sb.Valid() && IsPrinted(row) && ArePieces(m) && lit == "</" + TagAt(row).name + ">" + "\n"
    modifies sb, sb.hdl
    ensures Printed(sb, LineOf(Close(row), m), m)
  {
    hide Xml, ArePieces;
    CloseLineXml(row, lit, m);
    AppendLiteral(sb, lit, LineOf(Close(row), m), m);
  }

  lemma ArrayLiterals()
    ensures "<VALUE.ARRAY>\n" == "<" + "VALUE.ARRAY" + ">" + "\n"
    ensures "</VALUE.ARRAY>\n" == "</" + "VALUE.ARRAY" + ">" + "\n"
  {
  }

  lemma ReferenceLiterals()
    ensures "<VALUE.REFERENCE>\n" == "<" + "VALUE.REFERENCE" + ">" + "\n"
    ensures "</VALUE.REFERENCE>\n" == "</" + "VALUE.REFERENCE" + ">" + "\n"
  {
  }

  lemma LocalPathLiterals()
    ensures "<LOCALINSTANCEPATH>\n" == "<" + "LOCALINSTANCEPATH" + ">" + "\n"
    ensures "</LOCALINSTANCEPATH>\n" == "</" + "LOCALINSTANCEPATH" + ">" + "\n"
  {
  }

  lemma LocalNsLiterals()
    ensures "<LOCALNAMESPACEPATH>\n" == "<" + "LOCALNAMESPACEPATH" + ">" + "\n"
    ensures "</LOCALNAMESPACEPATH>\n" == "</" + "LOCALNAMESPACEPATH" + ">" + "\n"
  {
  }

  lemma NameLiteral()
    ensures "</INSTANCENAME>\n" == "</" + "INSTANCENAME" + ">" + "\n"
  {
  }

  lemma InstanceLiteral()
    ensures "</INSTANCE>\n" == "</" + "INSTANCE" + ">" + "\n"
  {
  }

  lemma ValueLiterals()
    ensures "<VALUE>" == "<" + "VALUE" + ">"
    ensures "</VALUE>\n" == "</" + "VALUE" + ">" + "\n"
  {
  }

  lemma ValueLineXml(c: string, m: List<Piece>)
    requires ArePieces(m)
    ensures Xml(LineOf(Content(19, [], c), m)) == "<VALUE>" + c + "</VALUE>\n" + Xml(m)
  {
    NoValues(19);
    ValueLiterals();
    Line(Content(19, [], c), m);
    HostJoin("", "<VALUE>", c, "</VALUE>", "\n");
  }

  method ValueLine(sb: StringBuffer, c: string, ghost m: List<Piece>)
    requires sb.Valid() && ArePieces(m)
    modifies sb, sb.hdl
    ensures Printed(sb, LineOf(Content(19, [], c), m), m)
  {
    hide Xml, ArePieces;
    ValueLineXml(c, m);
    Append3Chars(sb, "<VALUE>", Some(c), "</VALUE>\n");
    Moved(old(sb.Contents()), "<VALUE>" + c + "</VALUE>\n", Xml(m));
  }

  // ----- references -----

  /** getNameSpaceComponents: one pass over the characters. `nsc` is the component read so far. */
  method NameSpaceList(ns: string) returns (l: List<string>)
    ensures l == NameComponents(ns)
  {
    hide NameComponents;
    var nsc := "";
    l := Nil;
    assert nsc + ns[0..] == ns;
    for i := 0 to |ns|
      invariant Free(nsc, '/') && CText.Append(l, NameComponents(nsc + ns[i..])) == NameComponents(ns)
    {
      NextCharacter(l, nsc, ns, i);
      if ns[i] == '/' {
        l := CText.Append(l, Cons(nsc, Nil));
        nsc := "";
      } else {
        nsc := nsc + [ns[i]];
      }
    }
    assert nsc + ns[|ns|..] == nsc;
    LastComponent(nsc);
    if nsc != "" {
      l := CText.Append(l, Cons(nsc, Nil));
    } else {
      AppendNil(l);
    }
  }

  lemma NextCharacter(l: List<string>, nsc: string, ns: string, i: nat)
    requires i < |ns| && Free(nsc, '/')
    ensures var done := CText.Append(l, NameComponents(nsc + ns[i..]));
            if ns[i] == '/' then done == CText.Append(CText.Append(l, Cons(nsc, Nil)), NameComponents("" + ns[i + 1..]))
            else Free(nsc + [ns[i]], '/') && done == CText.Append(l, NameComponents(nsc + [ns[i]] + ns[i + 1..]))
  {
    hide NameComponents;
    var rest := ns[i + 1..];
    assert ns[i..] == [ns[i]] + rest;
    if ns[i] == '/' {
      FirstComponent(nsc, rest);
      assert nsc + ns[i..] == nsc + "/" + rest;
      assert "" + rest == rest;
      AppendMore(l, nsc, NameComponents(rest));
    } else {
      assert nsc + ns[i..] == nsc + [ns[i]] + rest;
    }
  }

  lemma {:induction false} NoSlash(s: string, i: nat)
    requires i <= |s| && Free(s, '/')
    ensures Slash(s, i) == |s|
    decreases |s| - i
  {
    if i < |s| { NoSlash(s, i + 1); }
  }

  lemma {:induction false} SlashAt(a: string, rest: string, i: nat)
    requires i <= |a| && Free(a, '/')
    ensures Slash(a + "/" + rest, i) == |a|
    decreases |a| - i
  {
    if i < |a| { SlashAt(a, rest, i + 1); }
  }

  lemma LastComponent(a: string)
    requires Free(a, '/')
    ensures NameComponents(a) == if a == "" then Nil else Cons(a, Nil)
  {
    NoSlash(a, 0);
  }

  lemma FirstComponent(a: string, rest: string)
    requires Free(a, '/')
    ensures NameComponents(a + "/" + rest) == Cons(a, NameComponents(rest))
  {
    var s := a + "/" + rest;
    SlashAt(a, rest, 0);
    assert s[..|a|] == a && s[|a| + 1..] == rest;
  }

  /** addXmlNamespace */
  method AddXmlNamespace(sb: StringBuffer, ns: string, ghost m: List<Piece>)
    requires sb.Valid() && ArePieces(m)
    modifies sb, sb.hdl
    ensures Printed(sb, LocalNsMarkup(ns, m), m)
  {
    hide Xml, ArePieces, NsMarkup, NameComponents;
    LocalNsLiterals();
    ghost var m1 := LineOf(Close(7), m);
    var nsc := NameSpaceList(ns);
    OpenLine(sb, "<LOCALNAMESPACEPATH>\n", 7, NsMarkup(nsc, m1));
    AddNames(sb, nsc, m1);
    CloseLine(sb, "</LOCALNAMESPACEPATH>\n", 7, m);
  }

  method AddNames(sb: StringBuffer, nsc: List<string>, ghost m: List<Piece>)
    requires sb.Valid() && ArePieces(m)
    modifies sb, sb.hdl
    ensures Printed(sb, NsMarkup(nsc, m), m)
  {
    hide Xml, ArePieces;
    ghost var goal := sb.Contents() + Xml(NsMarkup(nsc, m));
    var l := nsc;
    while l.Cons?
      invariant Kept(sb) && sb.Contents() + Xml(NsMarkup(l, m)) == goal
      decreases l
    {
      NameSpaceToXml(sb, l.head, NsMarkup(l.tail, m));
      l := l.tail;
    }
  }

  method NameElement(sb: StringBuffer, cop: Path, ghost m: List<Piece>)
    requires sb.Valid() && ArePieces(m)
    modifies sb, sb.hdl
    ensures Printed(sb, NameMarkup(cop, m), m)
  {
    hide Xml, ArePieces, KeysMarkup;
    NameLiteral();
    ghost var m1 := LineOf(Close(24), m);
    assert NameMarkup(cop, m) == LineOf(Open(24, [OrEmpty(cop.cls)]), KeysMarkup(cop.keys, m1));
    NameLineToken(sb, cop.cls, KeysMarkup(cop.keys, m1));
    PathToXml(sb, cop, m1);
    CloseLine(sb, "</INSTANCENAME>\n", 24, m);
  }

  method AddXmlReference(sb: StringBuffer, cop: Path, ghost m: List<Piece>)
    requires sb.Valid() && ArePieces(m)
    modifies sb, sb.hdl
    ensures Printed(sb, ReferenceMarkup(cop, m), m)
  {
    hide Xml, ArePieces, NameMarkup, LocalNsMarkup;
    ReferenceLiterals();
    ghost var m1 := LineOf(Close(16), m);
    if cop.ns.Some? {
      LocalPathLiterals();
      ghost var m2 := LineOf(Close(8), m1);
      ghost var m3 := NameMarkup(cop, m2);
      ghost var m4 := LocalNsMarkup(cop.ns.value, m3);
      OpenLine(sb, "<VALUE.REFERENCE>\n", 16, LineOf(Open(8, []), m4));
      OpenLine(sb, "<LOCALINSTANCEPATH>\n", 8, m4);
      AddXmlNamespace(sb, cop.ns.value, m3);
      NameElement(sb, cop, m2);
      CloseLine(sb, "</LOCALINSTANCEPATH>\n", 8, m1);
    } else {
      OpenLine(sb, "<VALUE.REFERENCE>\n", 16, NameMarkup(cop, m1));
      NameElement(sb, cop, m1);
    }
    CloseLine(sb, "</VALUE.REFERENCE>\n", 16, m);
  }

  // ----- properties -----

  lemma AttrLiteral(v: string)
    ensures AttrXml("NAME", v) == " NAME=\"" + v + "\""
  {
    assert " " + "NAME" + "=\"" == " NAME=\"";
  }

  lemma OneAttr(names: seq<string>, v: string)
    requires |names| > 0
    ensures AttrsXml(names, [v], 0) == AttrXml(names[0], v)
  {
    assert AttrsXml(names, [v], 1) == "";
  }

  lemma TwoAttrs(names: seq<string>, v: string, w: string)
    requires |names| > 1
    ensures AttrsXml(names, [v, w], 0) == AttrXml(names[0], v) + AttrXml(names[1], w)
  {
    assert AttrsXml(names, [v, w], 2) == "";
    assert AttrsXml(names, [v, w], 1) == AttrXml(names[1], w) + AttrsXml(names, [v, w], 2);
  }

  function TypeText(typ: Option<string>): string {
    if typ.Some? then " " + "TYPE" + "=\"" + typ.value + "\"" else ""
  }

  function StartText(tag: string, arrayStr: string, name: string, typ: Option<string>): string {
    "<" + tag + arrayStr + (" NAME=\"" + name + "\"") + TypeText(typ) + ">\n"
  }

  function NameAndType(name: string, typ: Option<string>): seq<string> {
    if typ.Some? then [name, typ.value] else [name]
  }

  lemma StartXml(row: nat, tag: string, arrayStr: string, name: string, typ: Option<string>, m: List<Piece>)
    requires ArePieces(m) && IsPiece(Open(row, NameAndType(name, typ)))
    requires TagAt(row).name == tag + arrayStr && TagAt(row).attrs[0] == "NAME" && (typ.Some? ==> TagAt(row).attrs[1] == "TYPE")
    ensures Xml(LineOf(Open(row, NameAndType(name, typ)), m)) == StartText(tag, arrayStr, name, typ) + Xml(m)
  {
    hide Xml, ArePieces, AttrsXml, AttrXml;
    var vs := NameAndType(name, typ);
    AttrLiteral(name);
    if typ.Some? {
      TwoAttrs(TagAt(row).attrs, name, typ.value);
      TypeAttr(typ.value);
    } else {
      OneAttr(TagAt(row).attrs, name);
    }
    Line(Open(row, vs), m);
    StartJoin(tag, arrayStr, AttrXml("NAME", name), TypeText(typ), Xml(m));
  }

  lemma TypeAttr(t: string)
    ensures AttrXml("TYPE", t) == TypeText(Some(t))
  {
  }

  lemma StartJoin(tag: string, arr: string, a: string, b: string, x: string)
    ensures "<" + tag + arr + a + b + ">\n" + x == "<" + (tag + arr) + (a + b) + ">" + "\n" + x
    ensures "<" + tag + arr + a + ">\n" + x == "<" + (tag + arr) + a + ">" + "\n" + x
  {
    assert ">" + "\n" == ">\n";
  }

  method AppendStart(sb: StringBuffer, tag: string, arrayStr: string, name: string, typ: Option<string>)
    requires sb.Valid()
    modifies sb, sb.hdl
    ensures Kept(sb) && sb.Contents() == old(sb.Contents()) + StartText(tag, arrayStr, name, typ)
  {
    Append3Chars(sb, "<", Some(tag), arrayStr);
    Append3Chars(sb, " NAME=\"", Some(name), "\"");
    if typ.Some? {
      Append5Chars(sb, " ", "TYPE", "=\"", typ.value, "\"");
    }
    sb.AppendChars(Some(">\n"));
    Joined4(old(sb.Contents()), "<" + tag + arrayStr, " NAME=\"" + name + "\"", TypeText(typ), ">\n");
  }

  lemma Joined4(s: string, a: string, b: string, c: string, d: string)
    ensures s + a + b + c + d == s + (a + b + c + d)
    ensures c == "" ==> s + a + b + d == s + (a + b + c + d)
  {
  }

  /** A property's start tag: container tag and array suffix, name, and the type if there is one. */
  method StartProperty(sb: StringBuffer, tag: string, arrayStr: string, name: string, typ: Option<string>, ghost row: nat, ghost m: List<Piece>)
    requires sb.Valid() && ArePieces(m) && IsPiece(Open(row, NameAndType(name, typ)))
    requires TagAt(row).name == tag + arrayStr && TagAt(row).attrs[0] == "NAME" && (typ.Some? ==> TagAt(row).attrs[1] == "TYPE")
    modifies sb, sb.hdl
    ensures Printed(sb, LineOf(Open(row, NameAndType(name, typ)), m), m)
  {
    hide Xml, ArePieces, StartText;
    StartXml(row, tag, arrayStr, name, typ, m);
    AppendStart(sb, tag, arrayStr, name, typ);
    Moved(old(sb.Contents()), StartText(tag, arrayStr, name, typ), Xml(m));
  }

  method EndProperty(sb: StringBuffer, tag: string, arrayStr: string, ghost row: nat, ghost m: List<Piece>)
    requires sb.Valid() && ArePieces(m) && IsPiece(Close(row)) && TagAt(row).name == tag + arrayStr
    modifies sb, sb.hdl
    ensures Printed(sb, LineOf(Close(row), m), m)
  {
    hide Xml, ArePieces;
    ghost var c := sb.Contents();
    Append5Chars(sb, "</", tag, arrayStr, ">", "\n");
    Line(Close(row), m);
    EndJoin(c, tag, arrayStr, Xml(m));
  }

  lemma EndJoin(c: string, tag: string, arr: string, x: string)
    ensures c + ("</" + tag + arr + ">" + "\n") + x == c + ("</" + (tag + arr) + ">" + "\n" + x)
  {
  }

  lemma PropertyNames()
    ensures "PROPERTY" + "" == "PROPERTY"
    ensures "PROPERTY" + ".ARRAY" == "PROPERTY.ARRAY"
    ensures "PROPERTY.REFERENCE" + "" == "PROPERTY.REFERENCE"
  {
  }

  method ElementsToXml(sb: StringBuffer, values: List<Scalar>, ghost m: List<Piece>)
    requires sb.Valid() && ArePieces(m)
    modifies sb, sb.hdl
    ensures Printed(sb, ValuesMarkup(values, m), m)
  {
    hide Xml, ArePieces, ValueText;
    ghost var goal := sb.Contents() + Xml(ValuesMarkup(values, m));
    var l := values;
    while l.Cons?
      invariant Kept(sb) && sb.Contents() + Xml(ValuesMarkup(l, m)) == goal
      decreases l
    {
      ValueLine(sb, ValueText(l.head), ValuesMarkup(l.tail, m));
      l := l.tail;
    }
  }

  method ArrayToXml(sb: StringBuffer, values: List<Scalar>, ghost m: List<Piece>)
    requires sb.Valid() && ArePieces(m)
    modifies sb, sb.hdl
    ensures Printed(sb, ArrayMarkup(values, m), m)
  {
    hide Xml, ArePieces, ValuesMarkup;
    ArrayLiterals();
    ghost var m1 := LineOf(Close(14), m);
    OpenLine(sb, "<VALUE.ARRAY>\n", 14, ValuesMarkup(values, m1));
    ElementsToXml(sb, values, m1);
    CloseLine(sb, "</VALUE.ARRAY>\n", 14, m);
  }

  /** addXmlValue as it is called for the properties of an instance. */
  method AddXmlValue(sb: StringBuffer, p: Prop, ghost m: List<Piece>)
    requires sb.Valid() && ArePieces(m) && IsPropData(p.data)
    modifies sb, sb.hdl
    ensures Printed(sb, PropMarkup(p, m), m)
  {
    hide Xml, ArePieces, ArrayMarkup, ReferenceMarkup, TypeName, ValueText;
    if Skipped(p.data) { return; }
    PropertyNames();
    match p.data {
      case Simple(v) =>
        ScalarType(v);
        ghost var m1 := LineOf(Close(28), m);
        StartProperty(sb, "PROPERTY", "", p.name, Some(TypeName(TypeOf(v))), 28, LineOf(Content(19, [], ValueText(v)), m1));
        ValueLine(sb, ValueText(v), m1);
        EndProperty(sb, "PROPERTY", "", 28, m);
      case Array(t, values) =>
        ghost var m1 := LineOf(Close(27), m);
        StartProperty(sb, "PROPERTY", ".ARRAY", p.name, Some(TypeName(t)), 27, ArrayMarkup(values, m1));
        ArrayToXml(sb, values, m1);
        EndProperty(sb, "PROPERTY", ".ARRAY", 27, m);
      case RefTo(path) =>
        ghost var m1 := LineOf(Close(26), m);
        StartProperty(sb, "PROPERTY.REFERENCE", "", p.name, None, 26, ReferenceMarkup(path, m1));
        AddXmlReference(sb, path, m1);
        EndProperty(sb, "PROPERTY.REFERENCE", "", 26, m);
    }
  }

  /** The text of a property with one value. */
  lemma PrintedProperty(name: string, v: Scalar, m: List<Piece>)
    requires ArePieces(m) && IsScalar(v) && IsType(TypeOf(v))
    ensures var c := match v case Bool(b) => (if b then "true" else "false") case Uint(_, n) => Dec(n) case Sint(_, i) => SignedDec(i) case Str(x) => Escape(x);
            Xml(PropMarkup(Prop(name, Simple(v)), m))
            == "<PROPERTY" + (" NAME=\"" + name + "\"") + (" TYPE=\"" + TypeName(TypeOf(v)) + "\"") + ">\n"
             + ("<VALUE>" + c + "</VALUE>\n" + ("</PROPERTY>\n" + Xml(m)))
  {
    hide Xml, ArePieces, TypeName;
    var t := TypeName(TypeOf(v));
    var m1 := LineOf(Close(28), m);
    var m2 := LineOf(Content(19, [], ValueText(v)), m1);
    PropertyNames();
    StartXml(28, "PROPERTY", "", name, Some(t), m2);
    ValueLineXml(ValueText(v), m1);
    PropertyEnd();
    CloseLineXml(28, "</PROPERTY>\n", m);
    StartOfProperty(name, t);
  }

  lemma PropertyEnd()
    ensures "</PROPERTY>\n" == "</" + "PROPERTY" + ">" + "\n"
  {
  }

  lemma StartOfProperty(name: string, t: string)
    ensures StartText("PROPERTY", "", name, Some(t)) == "<PROPERTY" + (" NAME=\"" + name + "\"") + (" TYPE=\"" + t + "\"") + ">\n"
  {
    assert "<" + "PROPERTY" + "" == "<PROPERTY";
    assert " " + "TYPE" + "=\"" == " TYPE=\"";
  }

  method AddXmlProperties(sb: StringBuffer, props: List<Prop>, ghost m: List<Piece>)
    requires sb.Valid() && ArePieces(m) && ArePropsData(props)
    modifies sb, sb.hdl
    ensures Printed(sb, PropsMarkup(props, m), m)
  {
    hide Xml, ArePieces, PropMarkup, IsPropData;
    ghost var goal := sb.Contents() + Xml(PropsMarkup(props, m));
    var l := props;
    while l.Cons?
      invariant Kept(sb) && ArePropsData(l) && sb.Contents() + Xml(PropsMarkup(l, m)) == goal
      decreases l
    {
      AddXmlValue(sb, l.head, PropsMarkup(l.tail, m));
      l := l.tail;
    }
  }

  lemma InstanceLineXml(c: string, m: List<Piece>)
    requires ArePieces(m)
    ensures Xml(LineOf(Open(25, [c]), m)) == "<INSTANCE CLASSNAME=\"" + c + "\">\n" + Xml(m)
  {
    InstanceStart(c);
    StartLine(25, c, "<INSTANCE CLASSNAME=\"", m);
  }

  lemma InstanceStart(v: string)
    ensures OpenXml(25, [v]) == "<INSTANCE CLASSNAME=\"" + v + "\">"
  {
    OneValue(25, v);
    assert "<" + "INSTANCE" + " " + "CLASSNAME" + "=\"" == "<INSTANCE CLASSNAME=\"";
  }

  method InstanceLine(sb: StringBuffer, cls: Option<string>, ghost m: List<Piece>)
    requires sb.Valid() && ArePieces(m)
    modifies sb, sb.hdl
    ensures Printed(sb, LineOf(Open(25, [OrEmpty(cls)]), m), m)
  {
    hide Xml, ArePieces;
    InstanceLineXml(OrEmpty(cls), m);
    Append3Chars(sb, "<INSTANCE CLASSNAME=\"", cls, "\">\n");
    Moved(old(sb.Contents()), "<INSTANCE CLASSNAME=\"" + OrEmpty(cls) + "\">\n", Xml(m));
  }

  method AddXmlInstance(sb: StringBuffer, inst: Inst, ghost m: List<Piece>)
    requires sb.Valid() && ArePieces(m) && ArePropsData(inst.props)
    modifies sb, sb.hdl
    ensures Printed(sb, InstMarkup(inst, m), m)
  {
    hide Xml, ArePieces, PropsMarkup;
    InstanceLiteral();
    ghost var m1 := LineOf(Close(25), m);
    InstanceLine(sb, inst.cls, PropsMarkup(inst.props, m1));
    AddXmlProperties(sb, inst.props, m1);
    CloseLine(sb, "</INSTANCE>\n", 25, m);
  }
}
