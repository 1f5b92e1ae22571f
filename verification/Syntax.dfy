/** Parse trees of the instance, property, value and reference grammar of grammar.c, and the tokens they stand for. */
module Syntax {
  import opened CText
  import opened Lexing
  import opened TokenCodes

  /** An element whose content is not an element: HOST, NAMESPACE or KEYVALUE. */
  datatype Leaf = Leaf(start: Token, end: Token)

  datatype LocalNsPath = LocalNsPath(start: Token, names: List<Leaf>, end: Token)

  datatype NsPath = NsPath(start: Token, host: Leaf, local: LocalNsPath, end: Token)

  datatype InstanceName = InstanceName(start: Token, keys: List<KeyBinding>, end: Token)

  datatype KeyBinding = KeyBinding(start: Token, content: KeyContent, end: Token)

  datatype KeyContent = KeyValue(leaf: Leaf) | KeyRef(ref: ValueRef)

  datatype ValueRef = ValueRef(start: Token, data: RefData, end: Token)

  datatype RefData =
    | InstancePath(start: Token, path: NsPath, name: InstanceName, end: Token)
    | LocalInstancePath(start: Token, local: LocalNsPath, name: InstanceName, end: Token)
    | NameOnly(name: InstanceName)

  datatype Value = Value(start: Token, data: ValueData, end: Token)

  datatype ValueData = Chars | Embedded(open: Token, inst: Instance, close: Token)

  datatype ValueArray = ValueArray(start: Token, values: List<Value>, end: Token)

  datatype Qualifier = Qualifier(start: Token, data: Data, end: Token)

  /** What a qualifier or a property holds. */
  datatype Data = NoData | One(value: Value) | Many(items: ValueArray) | Reference(ref: ValueRef)

  datatype Property = Property(start: Token, quals: List<Qualifier>, data: Data, end: Token)

  datatype Instance = Instance(start: Token, quals: List<Qualifier>, props: List<Property>, end: Token)

  /** The attribute at position `i` of the tag's attribute table. */
  function Attr(t: Token, i: nat): Option<string> {
    if i < |t.attrs| then t.attrs[i] else None
  }

  // ----- the grammar: which trees there are -----

  predicate IsLeaf(l: Leaf, x: int, z: int) { l.start.code == x && l.end.code == z }

  /** A NAMESPACE without a name is none: the C code takes the length of the missing name. */
  predicate AreNames(l: List<Leaf>) {
    match l
    case Nil => true
    case Cons(n, t) => IsLeaf(n, XTOK_NAMESPACE, ZTOK_NAMESPACE) && Attr(n.start, 0).Some? && AreNames(t)
  }

  predicate IsLocalNsPath(p: LocalNsPath) {
    p.start.code == XTOK_LOCALNAMESPACEPATH && AreNames(p.names) && p.end.code == ZTOK_LOCALNAMESPACEPATH
  }

  predicate IsNsPath(p: NsPath) {
    && p.start.code == XTOK_NAMESPACEPATH && IsLeaf(p.host, XTOK_HOST, ZTOK_HOST)
    && IsLocalNsPath(p.local) && p.end.code == ZTOK_NAMESPACEPATH
  }

  predicate IsInstanceName(n: InstanceName) {
    n.start.code == XTOK_INSTANCENAME && AreKeys(n.keys) && n.end.code == ZTOK_INSTANCENAME
  }

  predicate AreKeys(l: List<KeyBinding>) {
    match l
    case Nil => true
    case Cons(k, t) => IsKeyBinding(k) && AreKeys(t)
  }

  predicate IsKeyBinding(k: KeyBinding) {
    k.start.code == XTOK_KEYBINDING && IsKeyContent(k.content) && k.end.code == ZTOK_KEYBINDING
  }

  predicate IsKeyContent(c: KeyContent) {
    match c
    case KeyValue(l) => IsLeaf(l, XTOK_KEYVALUE, ZTOK_KEYVALUE)
    case KeyRef(r) => IsValueRef(r)
  }

  predicate IsValueRef(r: ValueRef) {
    r.start.code == XTOK_VALUEREFERENCE && IsRefData(r.data) && r.end.code == ZTOK_VALUEREFERENCE
  }

  predicate IsRefData(d: RefData) {
    match d
    case InstancePath(s, p, n, e) => s.code == XTOK_INSTANCEPATH && IsNsPath(p) && IsInstanceName(n) && e.code == ZTOK_INSTANCEPATH
    case LocalInstancePath(s, p, n, e) =>
      s.code == XTOK_LOCALINSTANCEPATH && IsLocalNsPath(p) && IsInstanceName(n) && e.code == ZTOK_LOCALINSTANCEPATH
    case NameOnly(n) => IsInstanceName(n)
  }

  predicate IsValue(v: Value) {
    v.start.code == XTOK_VALUE && IsValueData(v.data) && v.end.code == ZTOK_VALUE
  }

  predicate IsValueData(d: ValueData) {
    match d
    case Chars => true
    case Embedded(o, i, c) => o.code == XTOK_CDATA && IsInstance(i) && c.code == ZTOK_CDATA
  }

  predicate AreValues(l: List<Value>) {
    match l
    case Nil => true
    case Cons(v, t) => IsValue(v) && AreValues(t)
  }

  predicate IsValueArray(a: ValueArray) {
    a.start.code == XTOK_VALUEARRAY && AreValues(a.values) && a.end.code == ZTOK_VALUEARRAY
  }

  predicate IsData(d: Data) {
    match d
    case NoData => true
    case One(v) => IsValue(v)
    case Many(a) => IsValueArray(a)
    case Reference(r) => IsValueRef(r)
  }

  predicate IsQualifier(q: Qualifier) {
    && q.start.code == XTOK_QUALIFIER && IsData(q.data) && !q.data.Reference? && q.end.code == ZTOK_QUALIFIER
  }

  predicate AreQualifiers(l: List<Qualifier>) {
    match l
    case Nil => true
    case Cons(q, t) => IsQualifier(q) && AreQualifiers(t)
  }

  predicate IsProperty(p: Property) {
    && AreQualifiers(p.quals) && IsData(p.data)
    && (|| (p.start.code == XTOK_PROPERTY && (p.data.NoData? || p.data.One?) && p.end.code == ZTOK_PROPERTY)
        || (p.start.code == XTOK_PROPERTYARRAY && (p.data.NoData? || p.data.Many?) && p.end.code == ZTOK_PROPERTYARRAY)
        || (p.start.code == XTOK_PROPERTYREFERENCE && (p.data.NoData? || p.data.Reference?) && p.end.code == ZTOK_PROPERTYREFERENCE))
  }

  predicate AreProperties(l: List<Property>) {
    match l
    case Nil => true
    case Cons(p, t) => IsProperty(p) && AreProperties(t)
  }

  predicate IsInstance(i: Instance) {
    i.start.code == XTOK_INSTANCE && AreQualifiers(i.quals) && AreProperties(i.props) && i.end.code == ZTOK_INSTANCE
  }

  // ----- the tokens a tree stands for, followed by `k` -----

  function LeafToks(l: Leaf, k: List<Token>): List<Token> { Cons(l.start, Cons(l.end, k)) }

  function NamesToks(l: List<Leaf>, k: List<Token>): List<Token> {
    match l
    case Nil => k
    case Cons(n, t) => LeafToks(n, NamesToks(t, k))
  }

  function LocalToks(p: LocalNsPath, k: List<Token>): List<Token> {
    Cons(p.start, NamesToks(p.names, Cons(p.end, k)))
  }

  function NsPathToks(p: NsPath, k: List<Token>): List<Token> {
    Cons(p.start, LeafToks(p.host, LocalToks(p.local, Cons(p.end, k))))
  }

  function InstanceNameToks(n: InstanceName, k: List<Token>): List<Token> {
    Cons(n.start, KeysToks(n.keys, Cons(n.end, k)))
  }

  function KeysToks(l: List<KeyBinding>, k: List<Token>): List<Token> {
    match l
    case Nil => k
    case Cons(b, t) => KeyBindingToks(b, KeysToks(t, k))
  }

  function KeyBindingToks(b: KeyBinding, k: List<Token>): List<Token> {
    Cons(b.start, KeyContentToks(b.content, Cons(b.end, k)))
  }

  function KeyContentToks(c: KeyContent, k: List<Token>): List<Token> {
    match c
    case KeyValue(l) => LeafToks(l, k)
    case KeyRef(r) => ValueRefToks(r, k)
  }

  function ValueRefToks(r: ValueRef, k: List<Token>): List<Token> {
    Cons(r.start, RefDataToks(r.data, Cons(r.end, k)))
  }

  function RefDataToks(d: RefData, k: List<Token>): List<Token> {
    match d
    case InstancePath(s, p, n, e) => Cons(s, NsPathToks(p, InstanceNameToks(n, Cons(e, k))))
    case LocalInstancePath(s, p, n, e) => Cons(s, LocalToks(p, InstanceNameToks(n, Cons(e, k))))
    case NameOnly(n) => InstanceNameToks(n, k)
  }

  function ValueToks(v: Value, k: List<Token>): List<Token> {
    Cons(v.start, ValueDataToks(v.data, Cons(v.end, k)))
  }

  function ValueDataToks(d: ValueData, k: List<Token>): List<Token> {
    match d
    case Chars => k
    case Embedded(o, i, c) => Cons(o, InstanceToks(i, Cons(c, k)))
  }

  function ValuesToks(l: List<Value>, k: List<Token>): List<Token> {
    match l
    case Nil => k
    case Cons(v, t) => ValueToks(v, ValuesToks(t, k))
  }

  function ValueArrayToks(a: ValueArray, k: List<Token>): List<Token> {
    Cons(a.start, ValuesToks(a.values, Cons(a.end, k)))
  }

  function DataToks(d: Data, k: List<Token>): List<Token> {
    match d
    case NoData => k
    case One(v) => ValueToks(v, k)
    case Many(a) => ValueArrayToks(a, k)
    case Reference(r) => ValueRefToks(r, k)
  }

  function QualifierToks(q: Qualifier, k: List<Token>): List<Token> {
    Cons(q.start, DataToks(q.data, Cons(q.end, k)))
  }

  function QualifiersToks(l: List<Qualifier>, k: List<Token>): List<Token> {
    match l
    case Nil => k
    case Cons(q, t) => QualifierToks(q, QualifiersToks(t, k))
  }

  function PropertyToks(p: Property, k: List<Token>): List<Token> {
    Cons(p.start, QualifiersToks(p.quals, DataToks(p.data, Cons(p.end, k))))
  }

  function PropertiesToks(l: List<Property>, k: List<Token>): List<Token> {
    match l
    case Nil => k
    case Cons(p, t) => PropertyToks(p, PropertiesToks(t, k))
  }

  function InstanceToks(i: Instance, k: List<Token>): List<Token> {
    Cons(i.start, QualifiersToks(i.quals, PropertiesToks(i.props, Cons(i.end, k))))
  }
}
