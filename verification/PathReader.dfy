/** createPath and getKeyValueTypePtr on the parser's output, and the whole way from an object path to text and back. */
module PathReader {
  import opened CText
  import opened Lexing
  import opened TokenCodes
  import opened Syntax
  import opened Grammar
  import opened CimTags
  import opened Markup
  import opened CimData
  import opened PathXml
  import opened StringBuffers
  import opened PathWriter
  import opened ParserState

  /** The bindings are added one after the other; a repeated name is dropped. */
  method AddBindings(bindings: List<KeyBinding>) returns (keys: Option<List<Key>>)
    requires AreKeys(bindings)
    ensures keys == KeysOf(Nil, bindings)
    decreases bindings
  {
    var b, acc := bindings, Nil;
    while b.Cons?
      invariant (b == bindings || b < bindings) && AreKeys(b) && KeysOf(acc, b) == KeysOf(Nil, bindings)
      decreases b
    {
      var key := ReadBinding(b.head);
      if key.None? { return None; }
      acc := AddKey(acc, key.value);
      b := b.tail;
    }
    return Some(acc);
  }

  method ReadBinding(b: KeyBinding) returns (key: Option<Key>)
    requires IsKeyBinding(b)
    ensures key == KeyOf(b)
    decreases b
  {
    assert IsKeyContent(b.content);
    if Attr(b.start, 0).None? { return None; }
    match b.content {
      case KeyValue(l) =>
        var v := ReadScalar(Attr(l.start, 0), l.start.content);
        if v.None? { return None; }
        return Some(Key(Attr(b.start, 0).value, Plain(v.value)));
      case KeyRef(r) =>
        var p := ReadReference(r);
        if p.None? { return None; }
        return Some(Key(Attr(b.start, 0).value, Ref(p.value)));
    }
  }

  /** The names of the NAMESPACE elements, each appended with a slash to what is there. */
  method JoinNames(names: List<Syntax.Leaf>) returns (ns: Option<string>)
    requires AreNames(names)
    ensures ns == Joined(names)
  {
    var l := names;
    ns := None;
    while l.Cons?
      invariant AreNames(l)
      invariant Joined(names) == if ns.None? then Joined(l) else if l.Nil? then ns else Some(ns.value + "/" + Joined(l).value)
      invariant ns.None? ==> l == names
      decreases l
    {
      var name := Attr(l.head.start, 0).value;
      ghost var done, rest := ns, Joined(l.tail);
      ns := Some(if ns.Some? then ns.value + "/" + name else name);
      if done.Some? && rest.Some? {
        assert done.value + "/" + (name + "/" + rest.value) == done.value + "/" + name + "/" + rest.value;
      }
      l := l.tail;
    }
  }

  method ReadReference(r: ValueRef) returns (p: Option<Path>)
    requires IsValueRef(r)
    ensures p == RefOf(r)
    decreases r
  {
    assert IsRefData(r.data);
    var name: InstanceName;
    var ns := Some("");
    match r.data {
      case InstancePath(_, path, n, _) =>
        assert IsLocalNsPath(path.local);
        ns := JoinNames(path.local.names);
        name := n;
      case LocalInstancePath(_, path, n, _) =>
        ns := JoinNames(path.names);
        name := n;
      case NameOnly(n) =>
        name := n;
    }
    assert IsInstanceName(name) && RefOf(r) == PathOf(ns, name);
    var keys := AddBindings(name.keys);
    if keys.None? { return None; }
    return Some(Path(ns, Attr(name.start, 0), keys.value));
  }

  method BuildPath(n: InstanceName) returns (p: Option<Path>)
    requires IsInstanceName(n)
    ensures p == CreatePath(n)
  {
    var keys := AddBindings(n.keys);
    if keys.None? { return None; }
    return Some(Path(None, Attr(n.start, 0), keys.value));
  }

  /** Lex and parse an INSTANCENAME element at the front of a text and build its path. */
  method ReadPath(text: string) returns (p: Option<Path>)
    requires SevenBit(text)
    ensures match PInstanceName(Toks(Before(text, End)))
            case Halt => p.None?
            case Ok(n, _) => p == CreatePath(n)
  {
    TableValid();
    var parser := new Parser(Tags(), text);
    var n := parser.InstanceNameElement();
    if n.None? { return None; }
    p := BuildPath(n.value);
  }

  /** A path is printed, lexed in place, parsed and rebuilt: it comes back in normal form. */
  method ThereAndBack(cop: Path) returns (p: Option<Path>)
    requires IsPath(cop) && Printable(cop) && SevenBit(Xml(NameMarkup(cop, Nil)))
    ensures p == Some(Normal(cop).(ns := None))
  {
    var sb := PrintPath(cop);
    PathRoundTrip(cop, End);
    var text := sb.hdl[..sb.len];
    p := ReadPath(text);
  }
}
