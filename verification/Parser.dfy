/** The recursive-descent parser of grammar.c: one token of pushback in `ct` and `dontLex`, filled by the lexer. */
module ParserState {
  import opened CText
  import opened Lexing
  import opened TokenCodes
  import opened Syntax
  import opened Grammar
  import opened XmlParser

  /** `acc` in front of what a loop still parses. */
  function Prefixed<T>(acc: List<T>, p: Parsed<List<T>>): Parsed<List<T>> {
    match p
    case Halt => Halt
    case Ok(l, k) => Ok(CText.Append(acc, l), k)
  }

  const NO_TOKEN := Token(0, [], None)

  /** The static parser state. A result of None means that the process has ended. */
  class Parser {
    const tags: seq<Tag>
    const lexer: XmlBuffer
    var ct: Token
    var dontLex: bool
    /** The lexer has returned no token; it is not called again. */
    var dead: bool

    ghost predicate Valid()
      reads this, lexer, lexer.base
    {
      ValidTags(tags) && if dead then ct == NO_TOKEN else lexer.Valid()
    }

    /** The next localLex does not call a lexer that has failed. */
    ghost predicate Ready()
      reads this, lexer, lexer.base
    {
      Valid() && (dead ==> dontLex)
    }

    /** The tokens still to come, the one pushed back included. */
    ghost function Stream(): List<Token>
      requires Valid()
      reads this, lexer, lexer.base
    {
      if dead then Nil
      else if dontLex then Cons(ct, Tokens(tags, lexer.State()))
      else Tokens(tags, lexer.State())
    }

    /** A parsing function has done what `p` says and left the pushback empty. */
    ghost predicate Done<T>(p: Parsed<T>, r: Option<T>)
      reads this, lexer, lexer.base
    {
      match p
      case Halt => r.None?
      case Ok(t, k) => r == Some(t) && Ready() && !dontLex && Stream() == k
    }

    /** The same, with a token pushed back. */
    ghost predicate Looked<T>(p: Parsed<T>, r: Option<T>)
      reads this, lexer, lexer.base
    {
      match p
      case Halt => r.None?
      case Ok(t, k) => r == Some(t) && Ready() && dontLex && Stream() == k
    }

    constructor (tags: seq<Tag>, text: string)
      requires ValidTags(tags) && SevenBit(text)
      ensures Ready() && !dontLex && Stream() == Tokens(tags, LexState(Before(text, End), None, false))
      ensures fresh(lexer) && fresh(lexer.base)
    {
      this.tags := tags;
      lexer := new XmlBuffer(text);
      ct := NO_TOKEN;
      dontLex := false;
      dead := false;
    }

    method LocalLex()
      requires Ready()
      modifies this, lexer, lexer.base
      ensures Valid() && !dontLex
      ensures match old(Stream())
              case Nil => dead
              case Cons(t, k) => !dead && ct == t && Stream() == k
    {
      if dontLex {
        dontLex := false;
        return;
      }
      ghost var next := Lex(tags, lexer.State());
      var p, ok := lexer.SfccLex(tags);
      if ok {
        ct := lexer.ReadToken(p, next.token);
      } else {
        ct, dead := NO_TOKEN, true;
      }
    }

    /** Read a token and push it back. */
    method Peek()
      requires Ready()
      modifies this, lexer, lexer.base
      ensures Ready() && dontLex && Stream() == old(Stream())
      ensures match Stream() case Nil => ct.code == 0 case Cons(t, _) => ct == t
    {
      LocalLex();
      dontLex := true;
    }

    /** Read a token that must have this code. */
    method Expect(code: int) returns (r: Option<Token>)
      requires Ready() && code != 0
      modifies this, lexer, lexer.base
      ensures Done(Take(old(Stream()), code), r)
    {
      LocalLex();
      r := if ct.code == code then Some(ct) else None;
    }

    /** host, nameSpace or keyValue */
    method LeafElement(x: int, z: int) returns (r: Option<Leaf>)
      requires Ready() && x != 0 && z != 0
      modifies this, lexer, lexer.base
      ensures Done(PLeaf(old(Stream()), x, z), r)
    {
      var s := Expect(x);
      if s.None? { return None; }
      var e := Expect(z);
      if e.None? { return None; }
      return Some(Leaf(s.value, e.value));
    }

    method NameSpaces() returns (r: Option<List<Leaf>>)
      requires Ready()
      modifies this, lexer, lexer.base
      ensures Looked(PNames(old(Stream())), r)
    {
      ghost var goal := PNames(Stream());
      var acc := Nil;
      Peek();
      while ct.code == XTOK_NAMESPACE
        invariant Ready() && dontLex && Prefixed(acc, PNames(Stream())) == goal
        invariant match Stream() case Nil => ct.code == 0 case Cons(t, _) => ct == t
        decreases Size(Stream())
      {
        var n := LeafElement(XTOK_NAMESPACE, ZTOK_NAMESPACE);
        if n.None? { return None; }
        if Attr(n.value.start, 0).None? { return None; }
        ghost var more := PNames(Stream());
        if more.Ok? {
          AppendMore(acc, n.value, more.tree);
        }
        acc := CText.Append(acc, Cons(n.value, Nil));
        Peek();
      }
      AppendNil(acc);
      return Some(acc);
    }

    method LocalNameSpacePath() returns (r: Option<LocalNsPath>)
      requires Ready()
      modifies this, lexer, lexer.base
      ensures Done(PLocal(old(Stream())), r)
    {
      var s := Expect(XTOK_LOCALNAMESPACEPATH);
      if s.None? { return None; }
      var names := NameSpaces();
      if names.None? { return None; }
      var e := Expect(ZTOK_LOCALNAMESPACEPATH);
      if e.None? { return None; }
      return Some(LocalNsPath(s.value, names.value, e.value));
    }

    method NameSpacePath() returns (r: Option<NsPath>)
      requires Ready()
      modifies this, lexer, lexer.base
      ensures Done(PNsPath(old(Stream())), r)
    {
      var s := Expect(XTOK_NAMESPACEPATH);
      if s.None? { return None; }
      var h := LeafElement(XTOK_HOST, ZTOK_HOST);
      if h.None? { return None; }
      var l := LocalNameSpacePath();
      if l.None? { return None; }
      var e := Expect(ZTOK_NAMESPACEPATH);
      if e.None? { return None; }
      return Some(NsPath(s.value, h.value, l.value, e.value));
    }

    method InstanceNameElement() returns (r: Option<InstanceName>)
      requires Ready()
      modifies this, lexer, lexer.base
      ensures Done(PInstanceName(old(Stream())), r)
      decreases Size(Stream()), 0
    {
      var s := Expect(XTOK_INSTANCENAME);
      if s.None? { return None; }
      var keys := KeyBindings();
      if keys.None? { return None; }
      var e := Expect(ZTOK_INSTANCENAME);
      if e.None? { return None; }
      return Some(InstanceName(s.value, keys.value, e.value));
    }

    method KeyBindings() returns (r: Option<List<KeyBinding>>)
      requires Ready()
      modifies this, lexer, lexer.base
      ensures Looked(PKeys(old(Stream())), r)
      decreases Size(Stream()), 1
    {
      ghost var goal, size := PKeys(Stream()), Size(Stream());
      var acc := Nil;
      Peek();
      while ct.code == XTOK_KEYBINDING
        invariant Ready() && dontLex && Prefixed(acc, PKeys(Stream())) == goal && Size(Stream()) <= size
        invariant match Stream() case Nil => ct.code == 0 case Cons(t, _) => ct == t
        decreases Size(Stream())
      {
        var x := KeyBindingElement();
        if x.None? { return None; }
        ghost var more := PKeys(Stream());
        if more.Ok? {
          AppendMore(acc, x.value, more.tree);
        }
        acc := CText.Append(acc, Cons(x.value, Nil));
        Peek();
      }
      AppendNil(acc);
      return Some(acc);
    }

    method KeyBindingElement() returns (r: Option<KeyBinding>)
      requires Ready()
      modifies this, lexer, lexer.base
      ensures Done(PKeyBinding(old(Stream())), r)
      decreases Size(Stream()), 0
    {
      var s := Expect(XTOK_KEYBINDING);
      if s.None? { return None; }
      var c := KeyBindingContent();
      if c.None? { return None; }
      var e := Expect(ZTOK_KEYBINDING);
      if e.None? { return None; }
      return Some(KeyBinding(s.value, c.value, e.value));
    }

    method KeyBindingContent() returns (r: Option<KeyContent>)
      requires Ready()
      modifies this, lexer, lexer.base
      ensures Done(PKeyContent(old(Stream())), r)
      decreases Size(Stream()), 1
    {
      Peek();
      if ct.code == XTOK_KEYVALUE {
        var l := LeafElement(XTOK_KEYVALUE, ZTOK_KEYVALUE);
        if l.None? { return None; }
        return Some(KeyValue(l.value));
      } else if ct.code == XTOK_VALUEREFERENCE {
        var v := ValueReference();
        if v.None? { return None; }
        return Some(KeyRef(v.value));
      }
      return None;
    }

    method ValueReference() returns (r: Option<ValueRef>)
      requires Ready()
      modifies this, lexer, lexer.base
      ensures Done(PValueRef(old(Stream())), r)
      decreases Size(Stream()), 0
    {
      var s := Expect(XTOK_VALUEREFERENCE);
      if s.None? { return None; }
      var d := ValueReferenceData();
      if d.None? { return None; }
      var e := Expect(ZTOK_VALUEREFERENCE);
      if e.None? { return None; }
      return Some(ValueRef(s.value, d.value, e.value));
    }

    method ValueReferenceData() returns (r: Option<RefData>)
      requires Ready()
      modifies this, lexer, lexer.base
      ensures Done(PRefData(old(Stream())), r)
      decreases Size(Stream()), 1
    {
      Peek();
      if ct.code == XTOK_INSTANCEPATH {
        r := InstancePathElement();
      } else if ct.code == XTOK_LOCALINSTANCEPATH {
        r := LocalInstancePathElement();
      } else if ct.code == XTOK_INSTANCENAME {
        var n := InstanceNameElement();
        if n.None? { return None; }
        return Some(NameOnly(n.value));
      } else {
        return None;
      }
    }

    method InstancePathElement() returns (r: Option<RefData>)
      requires Ready() && Next(Stream(), XTOK_INSTANCEPATH)
      modifies this, lexer, lexer.base
      ensures Done(PRefData(old(Stream())), r)
      decreases Size(Stream()), 0
    {
      var s := Expect(XTOK_INSTANCEPATH);
      if s.None? { return None; }
      var p := NameSpacePath();
      if p.None? { return None; }
      var n := InstanceNameElement();
      if n.None? { return None; }
      var e := Expect(ZTOK_INSTANCEPATH);
      if e.None? { return None; }
      return Some(InstancePath(s.value, p.value, n.value, e.value));
    }

    method LocalInstancePathElement() returns (r: Option<RefData>)
      requires Ready() && Next(Stream(), XTOK_LOCALINSTANCEPATH)
      modifies this, lexer, lexer.base
      ensures Done(PRefData(old(Stream())), r)
      decreases Size(Stream()), 0
    {
      var s := Expect(XTOK_LOCALINSTANCEPATH);
      if s.None? { return None; }
      var p := LocalNameSpacePath();
      if p.None? { return None; }
      var n := InstanceNameElement();
      if n.None? { return None; }
      var e := Expect(ZTOK_LOCALINSTANCEPATH);
      if e.None? { return None; }
      return Some(LocalInstancePath(s.value, p.value, n.value, e.value));
    }

    method ValueElement() returns (r: Option<Value>)
      requires Ready()
      modifies this, lexer, lexer.base
      ensures Done(PValue(old(Stream())), r)
      decreases Size(Stream()), 0
    {
      var s := Expect(XTOK_VALUE);
      if s.None? { return None; }
      var d := ValueContent();
      if d.None? { return None; }
      var e := Expect(ZTOK_VALUE);
      if e.None? { return None; }
      return Some(Value(s.value, d.value, e.value));
    }

    /** valueData: the end tag is pushed back, or an embedded instance is read. */
    method ValueContent() returns (r: Option<ValueData>)
      requires Ready()
      modifies this, lexer, lexer.base
      ensures match PValueData(old(Stream()))
              case Halt => r.None?
              case Ok(d, k) => r == Some(d) && Ready() && Stream() == k && (dontLex <==> d.Chars?)
      decreases Size(Stream()), 0
    {
      Peek();
      if ct.code == ZTOK_VALUE {
        return Some(Chars);
      }
      var o := Expect(XTOK_CDATA);
      if o.None? { return None; }
      var i := InstanceElement();
      if i.None? { return None; }
      var c := Expect(ZTOK_CDATA);
      if c.None? { return None; }
      return Some(Embedded(o.value, i.value, c.value));
    }

    method Values() returns (r: Option<List<Value>>)
      requires Ready()
      modifies this, lexer, lexer.base
      ensures Looked(PValues(old(Stream())), r)
      decreases Size(Stream()), 1
    {
      ghost var goal, size := PValues(Stream()), Size(Stream());
      var acc := Nil;
      Peek();
      while ct.code == XTOK_VALUE
        invariant Ready() && dontLex && Prefixed(acc, PValues(Stream())) == goal && Size(Stream()) <= size
        invariant match Stream() case Nil => ct.code == 0 case Cons(t, _) => ct == t
        decreases Size(Stream())
      {
        var x := ValueElement();
        if x.None? { return None; }
        ghost var more := PValues(Stream());
        if more.Ok? {
          AppendMore(acc, x.value, more.tree);
        }
        acc := CText.Append(acc, Cons(x.value, Nil));
        Peek();
      }
      AppendNil(acc);
      return Some(acc);
    }

    method ValueArrayElement() returns (r: Option<ValueArray>)
      requires Ready()
      modifies this, lexer, lexer.base
      ensures Done(PValueArray(old(Stream())), r)
      decreases Size(Stream()), 0
    {
      var s := Expect(XTOK_VALUEARRAY);
      if s.None? { return None; }
      var v := Values();
      if v.None? { return None; }
      var e := Expect(ZTOK_VALUEARRAY);
      if e.None? { return None; }
      return Some(ValueArray(s.value, v.value, e.value));
    }

    /** The optional data of a qualifier or property, behind one token of look-ahead. */
    method DataPart(a: Allowed) returns (r: Option<Data>)
      requires Ready()
      modifies this, lexer, lexer.base
      ensures match PData(old(Stream()), a)
              case Halt => r.None?
              case Ok(d, k) => r == Some(d) && Ready() && Stream() == k && (dontLex <==> d.NoData?)
      decreases Size(Stream()), 1
    {
      Peek();
      if a.one && ct.code == XTOK_VALUE {
        var v := ValueElement();
        if v.None? { return None; }
        return Some(One(v.value));
      } else if a.many && ct.code == XTOK_VALUEARRAY {
        var v := ValueArrayElement();
        if v.None? { return None; }
        return Some(Many(v.value));
      } else if a.ref && ct.code == XTOK_VALUEREFERENCE {
        var v := ValueReference();
        if v.None? { return None; }
        return Some(Reference(v.value));
      }
      return Some(NoData);
    }

    method QualifierElement() returns (r: Option<Qualifier>)
      requires Ready()
      modifies this, lexer, lexer.base
      ensures Done(PQualifier(old(Stream())), r)
      decreases Size(Stream()), 0
    {
      var s := Expect(XTOK_QUALIFIER);
      if s.None? { return None; }
      var d := DataPart(IN_QUALIFIER);
      if d.None? { return None; }
      var e := Expect(ZTOK_QUALIFIER);
      if e.None? { return None; }
      return Some(Qualifier(s.value, d.value, e.value));
    }

    method Qualifiers() returns (r: Option<List<Qualifier>>)
      requires Ready()
      modifies this, lexer, lexer.base
      ensures Looked(PQualifiers(old(Stream())), r)
      decreases Size(Stream()), 1
    {
      ghost var goal, size := PQualifiers(Stream()), Size(Stream());
      var acc := Nil;
      Peek();
      while ct.code == XTOK_QUALIFIER
        invariant Ready() && dontLex && Prefixed(acc, PQualifiers(Stream())) == goal && Size(Stream()) <= size
        invariant match Stream() case Nil => ct.code == 0 case Cons(t, _) => ct == t
        decreases Size(Stream())
      {
        var x := QualifierElement();
        if x.None? { return None; }
        ghost var more := PQualifiers(Stream());
        if more.Ok? {
          AppendMore(acc, x.value, more.tree);
        }
        acc := CText.Append(acc, Cons(x.value, Nil));
        Peek();
      }
      AppendNil(acc);
      return Some(acc);
    }

    /** property, propertyArray and propertyReference */
    method PropertyAs(x: int, a: Allowed, z: int) returns (r: Option<Property>)
      requires Ready() && x != 0 && z != 0
      modifies this, lexer, lexer.base
      ensures Done(PPropertyAs(old(Stream()), x, a, z), r)
      decreases Size(Stream()), 0
    {
      var s := Expect(x);
      if s.None? { return None; }
      var q := Qualifiers();
      if q.None? { return None; }
      var d := DataPart(a);
      if d.None? { return None; }
      var e := Expect(z);
      if e.None? { return None; }
      return Some(Property(s.value, q.value, d.value, e.value));
    }

    method GenProperty() returns (r: Option<Property>)
      requires Ready()
      modifies this, lexer, lexer.base
      ensures Done(PProperty(old(Stream())), r)
      decreases Size(Stream()), 1
    {
      Peek();
      if ct.code == XTOK_PROPERTY {
        r := PropertyAs(XTOK_PROPERTY, IN_PROPERTY, ZTOK_PROPERTY);
      } else if ct.code == XTOK_PROPERTYARRAY {
        r := PropertyAs(XTOK_PROPERTYARRAY, IN_ARRAY, ZTOK_PROPERTYARRAY);
      } else if ct.code == XTOK_PROPERTYREFERENCE {
        r := PropertyAs(XTOK_PROPERTYREFERENCE, IN_REFERENCE, ZTOK_PROPERTYREFERENCE);
      } else {
        r := None;
      }
    }

    method Properties() returns (r: Option<List<Property>>)
      requires Ready()
      modifies this, lexer, lexer.base
      ensures Looked(PProperties(old(Stream())), r)
      decreases Size(Stream()), 2
    {
      ghost var goal, size := PProperties(Stream()), Size(Stream());
      var acc := Nil;
      Peek();
      while ct.code == XTOK_PROPERTY || ct.code == XTOK_PROPERTYARRAY || ct.code == XTOK_PROPERTYREFERENCE
        invariant Ready() && dontLex && Prefixed(acc, PProperties(Stream())) == goal && Size(Stream()) <= size
        invariant match Stream() case Nil => ct.code == 0 case Cons(t, _) => ct == t
        decreases Size(Stream())
      {
        var x := GenProperty();
        if x.None? { return None; }
        ghost var more := PProperties(Stream());
        if more.Ok? {
          AppendMore(acc, x.value, more.tree);
        }
        acc := CText.Append(acc, Cons(x.value, Nil));
        Peek();
      }
      AppendNil(acc);
      return Some(acc);
    }

    method InstanceElement() returns (r: Option<Instance>)
      requires Ready()
      modifies this, lexer, lexer.base
      ensures Done(PInstance(old(Stream())), r)
      decreases Size(Stream()), 0
    {
      var s := Expect(XTOK_INSTANCE);
      if s.None? { return None; }
      var q := Qualifiers();
      if q.None? { return None; }
      var p := Properties();
      if p.None? { return None; }
      var e := Expect(ZTOK_INSTANCE);
      if e.None? { return None; }
      return Some(Instance(s.value, q.value, p.value, e.value));
    }
  }
}
