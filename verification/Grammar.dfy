/** The recursive descent of grammar.c as functions on the tokens still to come, and their agreement with the grammar:
    a parse succeeds with tree `t` and remaining tokens `k` exactly when `t` is a tree of the grammar and the
    input is the tokens of `t` followed by `k`. */
module Grammar {
  import opened CText
  import opened Lexing
  import opened TokenCodes
  import opened Syntax

  /** A tree and the tokens behind it, or the end of the process: parseError, or a null pointer. */
  datatype Parsed<+T> = Ok(tree: T, rest: List<Token>) | Halt {
    predicate IsFailure() { Halt? }
    function PropagateFailure<U>(): Parsed<U>
      requires Halt?
    {
      Halt
    }
    function Extract(): (T, List<Token>)
      requires Ok?
    {
      (tree, rest)
    }
  }

  predicate Next(ts: List<Token>, code: int) { ts.Cons? && ts.head.code == code }

  function Take(ts: List<Token>, code: int): (r: Parsed<Token>)
    ensures r.Ok? ==> Size(r.rest) < Size(ts)
  {
    if Next(ts, code) then Ok(ts.head, ts.tail) else Halt
  }

  function PLeaf(ts: List<Token>, x: int, z: int): (r: Parsed<Leaf>)
    ensures r.Ok? ==> Size(r.rest) < Size(ts)
    ensures r.Ok? ==> IsLeaf(r.tree, x, z) && ts == LeafToks(r.tree, r.rest)
  {
    var (s, r1) :- Take(ts, x);
    var (e, r2) :- Take(r1, z);
    Ok(Leaf(s, e), r2)
  }

  function PNames(ts: List<Token>): (r: Parsed<List<Leaf>>)
    ensures r.Ok? ==> Size(r.rest) <= Size(ts)
    ensures r.Ok? ==> AreNames(r.tree) && ts == NamesToks(r.tree, r.rest)
    decreases Size(ts)
  {
    if !Next(ts, XTOK_NAMESPACE) then Ok(Nil, ts)
    else
      var (n, r1) :- PLeaf(ts, XTOK_NAMESPACE, ZTOK_NAMESPACE);
      if Attr(n.start, 0).None? then Halt
      else
        var (t, r2) :- PNames(r1);
        Ok(Cons(n, t), r2)
  }

  function PLocal(ts: List<Token>): (r: Parsed<LocalNsPath>)
    ensures r.Ok? ==> Size(r.rest) < Size(ts)
    ensures r.Ok? ==> IsLocalNsPath(r.tree) && ts == LocalToks(r.tree, r.rest)
  {
    var (s, r1) :- Take(ts, XTOK_LOCALNAMESPACEPATH);
    var (names, r2) :- PNames(r1);
    var (e, r3) :- Take(r2, ZTOK_LOCALNAMESPACEPATH);
    Ok(LocalNsPath(s, names, e), r3)
  }

  function PNsPath(ts: List<Token>): (r: Parsed<NsPath>)
    ensures r.Ok? ==> Size(r.rest) < Size(ts)
    ensures r.Ok? ==> IsNsPath(r.tree) && ts == NsPathToks(r.tree, r.rest)
  {
    var (s, r1) :- Take(ts, XTOK_NAMESPACEPATH);
    var (h, r2) :- PLeaf(r1, XTOK_HOST, ZTOK_HOST);
    var (l, r3) :- PLocal(r2);
    var (e, r4) :- Take(r3, ZTOK_NAMESPACEPATH);
    Ok(NsPath(s, h, l, e), r4)
  }

  function PInstanceName(ts: List<Token>): (r: Parsed<InstanceName>)
    ensures r.Ok? ==> Size(r.rest) < Size(ts)
    ensures r.Ok? ==> IsInstanceName(r.tree) && ts == InstanceNameToks(r.tree, r.rest)
    decreases Size(ts), 0
  {
    var (s, r1) :- Take(ts, XTOK_INSTANCENAME);
    var (keys, r2) :- PKeys(r1);
    var (e, r3) :- Take(r2, ZTOK_INSTANCENAME);
    Ok(InstanceName(s, keys, e), r3)
  }

  function PKeys(ts: List<Token>): (r: Parsed<List<KeyBinding>>)
    ensures r.Ok? ==> Size(r.rest) <= Size(ts)
    ensures r.Ok? ==> AreKeys(r.tree) && ts == KeysToks(r.tree, r.rest)
    decreases Size(ts), 1
  {
    if !Next(ts, XTOK_KEYBINDING) then Ok(Nil, ts)
    else
      var (b, r1) :- PKeyBinding(ts);
      var (t, r2) :- PKeys(r1);
      Ok(Cons(b, t), r2)
  }

  function PKeyBinding(ts: List<Token>): (r: Parsed<KeyBinding>)
    ensures r.Ok? ==> Size(r.rest) < Size(ts)
    ensures r.Ok? ==> IsKeyBinding(r.tree) && ts == KeyBindingToks(r.tree, r.rest)
    decreases Size(ts), 0
  {
    var (s, r1) :- Take(ts, XTOK_KEYBINDING);
    var (c, r2) :- PKeyContent(r1);
    var (e, r3) :- Take(r2, ZTOK_KEYBINDING);
    Ok(KeyBinding(s, c, e), r3)
  }

  function PKeyContent(ts: List<Token>): (r: Parsed<KeyContent>)
    ensures r.Ok? ==> Size(r.rest) < Size(ts)
    ensures r.Ok? ==> IsKeyContent(r.tree) && ts == KeyContentToks(r.tree, r.rest)
    decreases Size(ts), 1
  {
    if Next(ts, XTOK_KEYVALUE) then
      var (l, r1) :- PLeaf(ts, XTOK_KEYVALUE, ZTOK_KEYVALUE);
      Ok(KeyValue(l), r1)
    else if Next(ts, XTOK_VALUEREFERENCE) then
      var (v, r1) :- PValueRef(ts);
      Ok(KeyRef(v), r1)
    else Halt
  }

  function PValueRef(ts: List<Token>): (r: Parsed<ValueRef>)
    ensures r.Ok? ==> Size(r.rest) < Size(ts)
    ensures r.Ok? ==> IsValueRef(r.tree) && ts == ValueRefToks(r.tree, r.rest)
    decreases Size(ts), 0
  {
    var (s, r1) :- Take(ts, XTOK_VALUEREFERENCE);
    var (d, r2) :- PRefData(r1);
    var (e, r3) :- Take(r2, ZTOK_VALUEREFERENCE);
    Ok(ValueRef(s, d, e), r3)
  }

  function PRefData(ts: List<Token>): (r: Parsed<RefData>)
    ensures r.Ok? ==> Size(r.rest) < Size(ts)
    ensures r.Ok? ==> IsRefData(r.tree) && ts == RefDataToks(r.tree, r.rest)
    decreases Size(ts), 1
  {
    if Next(ts, XTOK_INSTANCEPATH) then
      var s, r1 := ts.head, ts.tail;
      var (p, r2) :- PNsPath(r1);
      var (n, r3) :- PInstanceName(r2);
      var (e, r4) :- Take(r3, ZTOK_INSTANCEPATH);
      Ok(InstancePath(s, p, n, e), r4)
    else if Next(ts, XTOK_LOCALINSTANCEPATH) then
      var s, r1 := ts.head, ts.tail;
      var (p, r2) :- PLocal(r1);
      var (n, r3) :- PInstanceName(r2);
      var (e, r4) :- Take(r3, ZTOK_LOCALINSTANCEPATH);
      Ok(LocalInstancePath(s, p, n, e), r4)
    else if Next(ts, XTOK_INSTANCENAME) then
      var (n, r1) :- PInstanceName(ts);
      Ok(NameOnly(n), r1)
    else Halt
  }

  function PValue(ts: List<Token>): (r: Parsed<Value>)
    ensures r.Ok? ==> Size(r.rest) < Size(ts)
    ensures r.Ok? ==> IsValue(r.tree) && ts == ValueToks(r.tree, r.rest)
    decreases Size(ts), 0
  {
    var (s, r1) :- Take(ts, XTOK_VALUE);
    var (d, r2) :- PValueData(r1);
    var (e, r3) :- Take(r2, ZTOK_VALUE);
    Ok(Value(s, d, e), r3)
  }

  function PValueData(ts: List<Token>): (r: Parsed<ValueData>)
    ensures r.Ok? ==> Size(r.rest) <= Size(ts)
    ensures r.Ok? ==> IsValueData(r.tree) && ts == ValueDataToks(r.tree, r.rest)
    decreases Size(ts), 0
  {
    if Next(ts, ZTOK_VALUE) then Ok(Chars, ts)
    else
      var (o, r1) :- Take(ts, XTOK_CDATA);
      var (i, r2) :- PInstance(r1);
      var (c, r3) :- Take(r2, ZTOK_CDATA);
      Ok(Embedded(o, i, c), r3)
  }

  function PValues(ts: List<Token>): (r: Parsed<List<Value>>)
    ensures r.Ok? ==> Size(r.rest) <= Size(ts)
    ensures r.Ok? ==> AreValues(r.tree) && ts == ValuesToks(r.tree, r.rest)
    decreases Size(ts), 1
  {
    if !Next(ts, XTOK_VALUE) then Ok(Nil, ts)
    else
      var (v, r1) :- PValue(ts);
      var (t, r2) :- PValues(r1);
      Ok(Cons(v, t), r2)
  }

  function PValueArray(ts: List<Token>): (r: Parsed<ValueArray>)
    ensures r.Ok? ==> Size(r.rest) < Size(ts)
    ensures r.Ok? ==> IsValueArray(r.tree) && ts == ValueArrayToks(r.tree, r.rest)
    decreases Size(ts), 0
  {
    var (s, r1) :- Take(ts, XTOK_VALUEARRAY);
    var (vs, r2) :- PValues(r1);
    var (e, r3) :- Take(r2, ZTOK_VALUEARRAY);
    Ok(ValueArray(s, vs, e), r3)
  }

  /** Which kinds of data may follow in a place. */
  datatype Allowed = Allowed(one: bool, many: bool, ref: bool)

  const IN_QUALIFIER := Allowed(true, true, false)
  const IN_PROPERTY := Allowed(true, false, false)
  const IN_ARRAY := Allowed(false, true, false)
  const IN_REFERENCE := Allowed(false, false, true)

  predicate Fits(d: Data, a: Allowed) {
    match d
    case NoData => true
    case One(_) => a.one
    case Many(_) => a.many
    case Reference(_) => a.ref
  }

  function PData(ts: List<Token>, a: Allowed): (r: Parsed<Data>)
    ensures r.Ok? ==> Size(r.rest) <= Size(ts)
    ensures r.Ok? ==> IsData(r.tree) && Fits(r.tree, a) && ts == DataToks(r.tree, r.rest)
    decreases Size(ts), 1
  {
    if a.one && Next(ts, XTOK_VALUE) then
      var (v, r1) :- PValue(ts);
      Ok(One(v), r1)
    else if a.many && Next(ts, XTOK_VALUEARRAY) then
      var (v, r1) :- PValueArray(ts);
      Ok(Many(v), r1)
    else if a.ref && Next(ts, XTOK_VALUEREFERENCE) then
      var (v, r1) :- PValueRef(ts);
      Ok(Reference(v), r1)
    else Ok(NoData, ts)
  }

  function PQualifier(ts: List<Token>): (r: Parsed<Qualifier>)
    ensures r.Ok? ==> Size(r.rest) < Size(ts)
    ensures r.Ok? ==> IsQualifier(r.tree) && ts == QualifierToks(r.tree, r.rest)
    decreases Size(ts), 0
  {
    var (s, r1) :- Take(ts, XTOK_QUALIFIER);
    var (d, r2) :- PData(r1, IN_QUALIFIER);
    var (e, r3) :- Take(r2, ZTOK_QUALIFIER);
    Ok(Qualifier(s, d, e), r3)
  }

  function PQualifiers(ts: List<Token>): (r: Parsed<List<Qualifier>>)
    ensures r.Ok? ==> Size(r.rest) <= Size(ts)
    ensures r.Ok? ==> AreQualifiers(r.tree) && ts == QualifiersToks(r.tree, r.rest)
    decreases Size(ts), 1
  {
    if !Next(ts, XTOK_QUALIFIER) then Ok(Nil, ts)
    else
      var (q, r1) :- PQualifier(ts);
      var (t, r2) :- PQualifiers(r1);
      Ok(Cons(q, t), r2)
  }

  function PPropertyAs(ts: List<Token>, x: int, a: Allowed, z: int): (r: Parsed<Property>)
    ensures r.Ok? ==> Size(r.rest) < Size(ts)
    ensures r.Ok? ==> AreQualifiers(r.tree.quals) && IsData(r.tree.data) && Fits(r.tree.data, a) && r.tree.start.code == x && r.tree.end.code == z && ts == PropertyToks(r.tree, r.rest)
    decreases Size(ts), 0
  {
    var (s, r1) :- Take(ts, x);
    var (q, r2) :- PQualifiers(r1);
    var (d, r3) :- PData(r2, a);
    var (e, r4) :- Take(r3, z);
    Ok(Property(s, q, d, e), r4)
  }

  function PProperty(ts: List<Token>): (r: Parsed<Property>)
    ensures r.Ok? ==> Size(r.rest) < Size(ts)
    ensures r.Ok? ==> IsProperty(r.tree) && ts == PropertyToks(r.tree, r.rest)
    decreases Size(ts), 1
  {
    if Next(ts, XTOK_PROPERTY) then PPropertyAs(ts, XTOK_PROPERTY, IN_PROPERTY, ZTOK_PROPERTY)
    else if Next(ts, XTOK_PROPERTYARRAY) then PPropertyAs(ts, XTOK_PROPERTYARRAY, IN_ARRAY, ZTOK_PROPERTYARRAY)
    else PPropertyAs(ts, XTOK_PROPERTYREFERENCE, IN_REFERENCE, ZTOK_PROPERTYREFERENCE)
  }

  predicate NextProperty(ts: List<Token>) {
    Next(ts, XTOK_PROPERTY) || Next(ts, XTOK_PROPERTYARRAY) || Next(ts, XTOK_PROPERTYREFERENCE)
  }

  function PProperties(ts: List<Token>): (r: Parsed<List<Property>>)
    ensures r.Ok? ==> Size(r.rest) <= Size(ts)
    ensures r.Ok? ==> AreProperties(r.tree) && ts == PropertiesToks(r.tree, r.rest)
    decreases Size(ts), 2
  {
    if !NextProperty(ts) then Ok(Nil, ts)
    else
      var (p, r1) :- PProperty(ts);
      var (t, r2) :- PProperties(r1);
      Ok(Cons(p, t), r2)
  }

  function PInstance(ts: List<Token>): (r: Parsed<Instance>)
    ensures r.Ok? ==> Size(r.rest) < Size(ts)
    ensures r.Ok? ==> IsInstance(r.tree) && ts == InstanceToks(r.tree, r.rest)
    decreases Size(ts), 0
  {
    var (s, r1) :- Take(ts, XTOK_INSTANCE);
    var (q, r2) :- PQualifiers(r1);
    var (p, r3) :- PProperties(r2);
    var (e, r4) :- Take(r3, ZTOK_INSTANCE);
    Ok(Instance(s, q, p, e), r4)
  }

  // ----- completeness: the tokens of every tree are accepted, with that tree and nothing more -----

  lemma {:induction false} AllNames(l: List<Leaf>, k: List<Token>)
    requires AreNames(l) && !Next(k, XTOK_NAMESPACE)
    ensures PNames(NamesToks(l, k)) == Ok(l, k)
  {
    if l.Cons? { AllNames(l.tail, k); }
  }

  lemma AllLocals(p: LocalNsPath, k: List<Token>)
    requires IsLocalNsPath(p)
    ensures PLocal(LocalToks(p, k)) == Ok(p, k)
  {
    AllNames(p.names, Cons(p.end, k));
  }

  lemma AllNsPaths(p: NsPath, k: List<Token>)
    requires IsNsPath(p)
    ensures PNsPath(NsPathToks(p, k)) == Ok(p, k)
  {
    AllLocals(p.local, Cons(p.end, k));
  }

  lemma {:induction false} AllInstanceNames(n: InstanceName, k: List<Token>)
    requires IsInstanceName(n)
    ensures PInstanceName(InstanceNameToks(n, k)) == Ok(n, k)
  {
    AllKeys(n.keys, Cons(n.end, k));
  }

  lemma {:induction false} AllKeys(l: List<KeyBinding>, k: List<Token>)
    requires AreKeys(l) && !Next(k, XTOK_KEYBINDING)
    ensures PKeys(KeysToks(l, k)) == Ok(l, k)
  {
    if l.Cons? {
      AllKeyBindings(l.head, KeysToks(l.tail, k));
      AllKeys(l.tail, k);
    }
  }

  lemma {:induction false} AllKeyBindings(b: KeyBinding, k: List<Token>)
    requires IsKeyBinding(b)
    ensures PKeyBinding(KeyBindingToks(b, k)) == Ok(b, k)
  {
    if b.content.KeyRef? {
      AllValueRefs(b.content.ref, Cons(b.end, k));
    }
  }

  lemma {:induction false} AllValueRefs(r: ValueRef, k: List<Token>)
    requires IsValueRef(r)
    ensures PValueRef(ValueRefToks(r, k)) == Ok(r, k)
  {
    AllRefData(r.data, Cons(r.end, k));
  }

  lemma {:induction false} AllRefData(d: RefData, k: List<Token>)
    requires IsRefData(d)
    ensures PRefData(RefDataToks(d, k)) == Ok(d, k)
  {
    match d
    case InstancePath(s, p, n, e) =>
      AllNsPaths(p, InstanceNameToks(n, Cons(e, k)));
      AllInstanceNames(n, Cons(e, k));
    case LocalInstancePath(s, p, n, e) =>
      AllLocals(p, InstanceNameToks(n, Cons(e, k)));
      AllInstanceNames(n, Cons(e, k));
    case NameOnly(n) =>
      AllInstanceNames(n, k);
  }

  lemma {:induction false} AllValues(v: Value, k: List<Token>)
    requires IsValue(v)
    ensures PValue(ValueToks(v, k)) == Ok(v, k)
  {
    match v.data
    case Chars =>
    case Embedded(o, i, c) => AllInstances(i, Cons(c, Cons(v.end, k)));
  }

  lemma {:induction false} AllValueLists(l: List<Value>, k: List<Token>)
    requires AreValues(l) && !Next(k, XTOK_VALUE)
    ensures PValues(ValuesToks(l, k)) == Ok(l, k)
  {
    if l.Cons? {
      AllValues(l.head, ValuesToks(l.tail, k));
      AllValueLists(l.tail, k);
    }
  }

  /** Data is followed by an end tag, which starts no data. */
  predicate EndsData(k: List<Token>) {
    !Next(k, XTOK_VALUE) && !Next(k, XTOK_VALUEARRAY) && !Next(k, XTOK_VALUEREFERENCE)
  }

  lemma {:induction false} AllData(d: Data, a: Allowed, k: List<Token>)
    requires IsData(d) && Fits(d, a) && EndsData(k)
    ensures PData(DataToks(d, k), a) == Ok(d, k)
  {
    match d
    case NoData =>
    case One(v) => AllValues(v, k);
    case Many(v) => AllValueLists(v.values, Cons(v.end, k));
    case Reference(r) => AllValueRefs(r, k);
  }

  lemma {:induction false} AllQualifiers(q: Qualifier, k: List<Token>)
    requires IsQualifier(q)
    ensures PQualifier(QualifierToks(q, k)) == Ok(q, k)
  {
    AllData(q.data, IN_QUALIFIER, Cons(q.end, k));
  }

  lemma {:induction false} AllQualifierLists(l: List<Qualifier>, k: List<Token>)
    requires AreQualifiers(l) && !Next(k, XTOK_QUALIFIER)
    ensures PQualifiers(QualifiersToks(l, k)) == Ok(l, k)
  {
    if l.Cons? {
      AllQualifiers(l.head, QualifiersToks(l.tail, k));
      AllQualifierLists(l.tail, k);
    }
  }

  lemma DataIsNoQualifier(d: Data, k: List<Token>)
    requires IsData(d) && !Next(k, XTOK_QUALIFIER)
    ensures !Next(DataToks(d, k), XTOK_QUALIFIER)
  {
    match d
    case NoData =>
    case One(v) => assert IsValue(v);
    case Many(v) => assert IsValueArray(v);
    case Reference(r) => assert IsValueRef(r);
  }

  lemma PropertiesAreNoQualifier(l: List<Property>, k: List<Token>)
    requires AreProperties(l) && !Next(k, XTOK_QUALIFIER)
    ensures !Next(PropertiesToks(l, k), XTOK_QUALIFIER)
  {
    if l.Cons? {
      assert PropertiesToks(l, k) == PropertyToks(l.head, PropertiesToks(l.tail, k));
    }
  }

  lemma {:induction false} AllProperties(p: Property, k: List<Token>)
    requires IsProperty(p)
    ensures PProperty(PropertyToks(p, k)) == Ok(p, k)
  {
    var k1 := Cons(p.end, k);
    DataIsNoQualifier(p.data, k1);
    AllQualifierLists(p.quals, DataToks(p.data, k1));
    AllData(p.data, if p.start.code == XTOK_PROPERTY then IN_PROPERTY else if p.start.code == XTOK_PROPERTYARRAY then IN_ARRAY else IN_REFERENCE, k1);
  }

  lemma {:induction false} AllPropertyLists(l: List<Property>, k: List<Token>)
    requires AreProperties(l) && !NextProperty(k)
    ensures PProperties(PropertiesToks(l, k)) == Ok(l, k)
  {
    if l.Cons? {
      AllProperties(l.head, PropertiesToks(l.tail, k));
      AllPropertyLists(l.tail, k);
    }
  }

  lemma {:induction false} AllInstances(i: Instance, k: List<Token>)
    requires IsInstance(i)
    ensures PInstance(InstanceToks(i, k)) == Ok(i, k)
  {
    var k1 := Cons(i.end, k);
    PropertiesAreNoQualifier(i.props, k1);
    AllQualifierLists(i.quals, PropertiesToks(i.props, k1));
    AllPropertyLists(i.props, k1);
  }

  // ----- parser equals grammar -----

  lemma InstanceGrammar(ts: List<Token>, i: Instance, k: List<Token>)
    ensures PInstance(ts) == Ok(i, k) <==> IsInstance(i) && ts == InstanceToks(i, k)
  {
    if IsInstance(i) { AllInstances(i, k); }
  }

  lemma InstanceNameGrammar(ts: List<Token>, n: InstanceName, k: List<Token>)
    ensures PInstanceName(ts) == Ok(n, k) <==> IsInstanceName(n) && ts == InstanceNameToks(n, k)
  {
    if IsInstanceName(n) { AllInstanceNames(n, k); }
  }

  lemma ValueRefGrammar(ts: List<Token>, r: ValueRef, k: List<Token>)
    ensures PValueRef(ts) == Ok(r, k) <==> IsValueRef(r) && ts == ValueRefToks(r, k)
  {
    if IsValueRef(r) { AllValueRefs(r, k); }
  }

  /** No input is the tokens of two trees: the grammar is unambiguous. */
  lemma Unambiguous(i: Instance, k: List<Token>, i': Instance, k': List<Token>)
    requires IsInstance(i) && IsInstance(i') && InstanceToks(i, k) == InstanceToks(i', k')
    ensures i == i' && k == k'
  {
    AllInstances(i, k);
    AllInstances(i', k');
  }

  ghost predicate Derives(ts: List<Token>, i: Instance, k: List<Token>) {
    IsInstance(i) && ts == InstanceToks(i, k)
  }

  /** Exactly the inputs that start with no tree's tokens are refused. */
  lemma Refused(ts: List<Token>)
    ensures PInstance(ts).Halt? <==> forall i, k :: !Derives(ts, i, k)
  {
    forall i, k | Derives(ts, i, k) ensures PInstance(ts).Ok? {
      AllInstances(i, k);
    }
    if PInstance(ts).Ok? {
      assert Derives(ts, PInstance(ts).tree, PInstance(ts).rest);
    }
  }
}
