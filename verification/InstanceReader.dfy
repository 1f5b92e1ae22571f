/** setInstProperties on the parser's output, and the whole way from an instance to text and back. */
module InstanceReader {
  import opened CText
  import opened Lexing
  import opened TokenCodes
  import opened Syntax
  import opened Grammar
  import opened CimTags
  import opened Markup
  import opened CimData
  import opened PathXml
  import opened InstanceXml
  import opened StringBuffers
  import opened PathWriter
  import opened InstanceWriter
  import opened ParserState
  import PathReader

  /** The elements of an array, each appended at the next position. */
  method ReadElements(t: Type, values: List<Value>) returns (r: Option<List<Scalar>>)
    ensures r == ReadValues(t, values)
  {
    var l, acc := values, Nil;
    ghost var goal := ReadValues(t, values);
    while l.Cons?
      invariant goal == (var rest := ReadValues(t, l); if rest.None? then None else Some(CText.Append(acc, rest.value)))
      decreases l
    {
      var v := l.head;
      if !v.data.Chars? || v.start.content.None? { return None; }
      var x := ReadData(t, v.start.content.value);
      if x.None? { return None; }
      if ReadValues(t, l.tail).Some? { AppendMore(acc, x.value, ReadValues(t, l.tail).value); }
      acc := CText.Append(acc, Cons(x.value, Nil));
      l := l.tail;
    }
    AppendNil(acc);
    return Some(acc);
  }

  method ReadPropertyData(p: Property) returns (d: Option<PropData>)
    requires IsProperty(p)
    ensures d.None? || Attr(p.start, 0).None? ==> ReadProp(p).None?
    ensures d.Some? && Attr(p.start, 0).Some? ==> ReadProp(p) == Some(Prop(Attr(p.start, 0).value, d.value))
    decreases p, 0
  {
    assert IsData(p.data);
    match p.data {
      case NoData =>
        d := if p.start.code == XTOK_PROPERTYREFERENCE then None else Some(Null);
      case Reference(r) =>
        var path := PathReader.ReadReference(r);
        d := if path.None? then None else Some(RefTo(path.value));
      case Many(a) =>
        if a.values.Nil? { return Some(Null); }
        var t := TypeNamed(Attr(p.start, 1));
        var vs := ReadElements(t, a.values);
        d := if vs.None? then None else Some(Array(t, vs.value));
      case One(v) =>
        d := ReadValueData(TypeNamed(Attr(p.start, 1)), v);
    }
  }

  method ReadValueData(t: Type, v: Value) returns (d: Option<PropData>)
    requires IsValue(v)
    ensures d == ReadSimple(t, One(v))
    decreases v
  {
    assert IsValueData(v.data);
    match v.data {
      case Embedded(_, inst, _) =>
        var i := BuildInstance(inst);
        d := if i.None? then None else Some(Embed(i.value));
      case Chars =>
        if v.start.content.None? || t.NullType? { return Some(Null); }
        var x := ReadData(t, v.start.content.value);
        d := if x.None? then None else Some(Simple(x.value));
    }
  }

  method SetInstProperties(l: List<Property>) returns (props: Option<List<Prop>>)
    requires AreProperties(l)
    ensures props == ReadProps(Nil, l)
    decreases l
  {
    var p, acc := l, Nil;
    while p.Cons?
      invariant (p == l || p < l) && AreProperties(p) && ReadProps(acc, p) == ReadProps(Nil, l)
      decreases p
    {
      var d := ReadPropertyData(p.head);
      if d.None? || Attr(p.head.start, 0).None? { return None; }
      acc := SetProp(acc, Prop(Attr(p.head.start, 0).value, d.value));
      p := p.tail;
    }
    return Some(acc);
  }

  method BuildInstance(i: Instance) returns (r: Option<Inst>)
    requires IsInstance(i)
    ensures r == ReadInst(i)
    decreases i
  {
    var props := SetInstProperties(i.props);
    r := if props.None? then None else Some(Inst(Attr(i.start, 0), props.value));
  }

  /** Lex and parse an INSTANCE element at the front of a text and build the instance. */
  method ReadInstance(text: string) returns (r: Option<Inst>)
    requires SevenBit(text)
    ensures match PInstance(Toks(Before(text, End)))
            case Halt => r.None?
            case Ok(i, _) => r == ReadInst(i)
  {
    TableValid();
    var parser := new Parser(Tags(), text);
    var i := parser.InstanceElement();
    if i.None? { return None; }
    r := BuildInstance(i.value);
  }

  /** An instance is printed, lexed in place, parsed and rebuilt: it comes back in normal form. */
  method ThereAndBack(i: Inst) returns (r: Option<Inst>)
    requires IsInst(i) && PrintableInst(i) && SevenBit(Xml(InstMarkup(i, Nil)))
    ensures r == Some(NormalInst(i))
  {
    var sb := new StringBuffer(0);
    AddXmlInstance(sb, i, Nil);
    assert sb.Contents() + "" == sb.Contents() && "" + Xml(InstMarkup(i, Nil)) == Xml(InstMarkup(i, Nil));
    InstanceRoundTrip(i, End);
    var text := sb.hdl[..sb.len];
    r := ReadInstance(text);
  }
}
