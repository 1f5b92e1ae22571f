/** Object paths as XML: what pathToXml prints, what createPath makes of the parsed text, and the round trip. */
module PathXml {
  import opened CText
  import opened Lexing
  import opened TokenCodes
  import opened Syntax
  import opened Grammar
  import opened CimTags
  import opened TagLookup
  import opened Markup
  import opened CimData

  // ----- name spaces -----

  /** Index of the first '/' from `i` on. */
  function Slash(s: string, i: nat): (k: nat)
    requires i <= |s|
    ensures i <= k <= |s| && (k < |s| ==> s[k] == '/') && forall j :: i <= j < k ==> s[j] != '/'
    decreases |s| - i
  {
    if i < |s| && s[i] != '/' then Slash(s, i + 1) else i
  }

  /** The components of a name space: what stands between slashes, nothing left out. */
  function Parts(s: string): List<string>
    decreases |s|
  {
    var i := Slash(s, 0);
    if i == |s| then Cons(s, Nil) else Cons(s[..i], Parts(s[i + 1..]))
  }

  function Components(ns: Option<string>): List<string> {
    if ns.Some? then Parts(ns.value) else Nil
  }

  /** The parser's joined NAMESPACE names; none if there is no such element. */
  function Joined(l: List<Syntax.Leaf>): Option<string>
    requires AreNames(l)
  {
    match l
    case Nil => None
    case Cons(n, t) =>
      var name := Attr(n.start, 0).value;
      match Joined(t)
      case None => Some(name)
      case Some(r) => Some(name + "/" + r)
  }

  // ----- printing -----

  function OrEmpty(s: Option<string>): string { if s.Some? then s.value else "" }

  function NsMarkup(parts: List<string>, m: List<Piece>): (r: List<Piece>)
    requires ArePieces(m)
    ensures ArePieces(r)
  {
    match parts
    case Nil => m
    case Cons(n, t) => Pieces3(Open(11, [n]), Close(11), Newline, NsMarkup(t, m))
  }

  /** pathToXml */
  function KeysMarkup(keys: List<Key>, m: List<Piece>): (r: List<Piece>)
    requires ArePieces(m)
    ensures ArePieces(r)
    decreases keys, 1
  {
    match keys
    case Nil => m
    case Cons(key, t) =>
      Cons(Open(22, [key.name]), ValueMarkup(key.value, Cons(Close(22), Cons(Newline, KeysMarkup(t, m)))))
  }

  function ValueMarkup(v: KeyVal, m: List<Piece>): (r: List<Piece>)
    requires ArePieces(m)
    ensures ArePieces(r)
    decreases v, 0
  {
    match v
    case Plain(s) => Cons(Content(21, [KeyType(s)], CharsOf(s)), m)
    case Ref(p) => RefMarkup(p, m)
  }

  function RefMarkup(p: Path, m: List<Piece>): (r: List<Piece>)
    requires ArePieces(m)
    ensures ArePieces(r)
    decreases p, 1
  {
    Pieces3(Open(16, []), Open(23, []), Newline, HostMarkup(p.ns, InnerMarkup(p, Cons(Close(23), Cons(Close(16), m)))))
  }

  function InnerMarkup(p: Path, m: List<Piece>): (r: List<Piece>)
    requires ArePieces(m)
    ensures ArePieces(r)
    decreases p, 0
  {
    Cons(Open(24, [OrEmpty(p.cls)]), KeysMarkup(p.keys, Cons(Close(24), m)))
  }

  function HostMarkup(ns: Option<string>, m: List<Piece>): (r: List<Piece>)
    requires ArePieces(m)
    ensures ArePieces(r)
  {
    Pieces3(Open(10, []), Content(20, [], "localhost"), Newline,
      Cons(Open(7, []), Cons(Newline, NsMarkup(Components(ns), Pieces3(Close(7), Close(10), Newline, m)))))
  }

  /** The INSTANCENAME element the client puts around a path's keys. */
  function NameMarkup(p: Path, m: List<Piece>): (r: List<Piece>)
    requires ArePieces(m)
    ensures ArePieces(r)
  {
    Cons(Open(24, [OrEmpty(p.cls)]), Cons(Newline, KeysMarkup(p.keys, Cons(Close(24), Cons(Newline, m)))))
  }

  // ----- the parse tree of the printed text -----

  function Opened(row: nat, vs: seq<string>): Token
    requires IsPrinted(row)
  {
    Token(TagAt(row).xtok, Values(|TagAt(row).attrs|, vs), None)
  }

  function Closed(row: nat): Token
    requires IsPrinted(row)
  {
    Token(TagAt(row).end, [], None)
  }

  function NsTree(parts: List<string>): (r: List<Syntax.Leaf>) {
    match parts
    case Nil => Nil
    case Cons(n, t) => Cons(Syntax.Leaf(Opened(11, [n]), Closed(11)), NsTree(t))
  }

  function KeysTree(keys: List<Key>): List<KeyBinding>
    decreases keys, 1
  {
    match keys
    case Nil => Nil
    case Cons(key, t) => Cons(KeyBinding(Opened(22, [key.name]), ValueTree(key.value), Closed(22)), KeysTree(t))
  }

  function ValueTree(v: KeyVal): KeyContent
    decreases v, 0
  {
    match v
    case Plain(s) => KeyValue(Syntax.Leaf(Opened(21, [KeyType(s)]).(content := Some(Trim(CharsOf(s)))), Closed(21)))
    case Ref(p) => KeyRef(RefTree(p))
  }

  function RefTree(p: Path): ValueRef
    decreases p, 1
  {
    ValueRef(Opened(16, []), InstancePath(Opened(23, []), HostTree(p.ns), NameTree(p), Closed(23)), Closed(16))
  }

  function HostTree(ns: Option<string>): NsPath {
    NsPath(Opened(10, []), Syntax.Leaf(Opened(20, []).(content := Some(Trim("localhost"))), Closed(20)),
           LocalNsPath(Opened(7, []), NsTree(Components(ns)), Closed(7)), Closed(10))
  }

  function NameTree(p: Path): InstanceName
    decreases p, 0
  {
    InstanceName(Opened(24, [OrEmpty(p.cls)]), KeysTree(p.keys), Closed(24))
  }

  lemma {:induction false} NsMarkupToks(parts: List<string>, m: List<Piece>, k: List<Token>)
    requires ArePieces(m)
    ensures XmlToks(NsMarkup(parts, m), k) == NamesToks(NsTree(parts), XmlToks(m, k))
    ensures AreNames(NsTree(parts))
  {
    if parts.Cons? {
      NsMarkupToks(parts.tail, m, k);
      Toks3(Open(11, [parts.head]), Close(11), Newline, NsMarkup(parts.tail, m), k);
    }
  }

  lemma HostMarkupToks(ns: Option<string>, m: List<Piece>, k: List<Token>)
    requires ArePieces(m)
    ensures XmlToks(HostMarkup(ns, m), k) == NsPathToks(HostTree(ns), XmlToks(m, k))
    ensures IsNsPath(HostTree(ns))
  {
    var m1 := Pieces3(Close(7), Close(10), Newline, m);
    var m2 := NsMarkup(Components(ns), m1);
    Toks3(Close(7), Close(10), Newline, m, k);
    NsMarkupToks(Components(ns), m1, k);
    Toks3(Open(10, []), Content(20, [], "localhost"), Newline, Cons(Open(7, []), Cons(Newline, m2)), k);
  }

  lemma {:induction false} KeysMarkupToks(keys: List<Key>, m: List<Piece>, k: List<Token>)
    requires ArePieces(m)
    ensures XmlToks(KeysMarkup(keys, m), k) == KeysToks(KeysTree(keys), XmlToks(m, k))
    ensures AreKeys(KeysTree(keys))
    decreases keys, 1
  {
    if keys.Cons? {
      ValueMarkupToks(keys.head.value, Cons(Close(22), Cons(Newline, KeysMarkup(keys.tail, m))), k);
      KeysMarkupToks(keys.tail, m, k);
    }
  }

  lemma {:induction false} ValueMarkupToks(v: KeyVal, m: List<Piece>, k: List<Token>)
    requires ArePieces(m)
    ensures XmlToks(ValueMarkup(v, m), k) == KeyContentToks(ValueTree(v), XmlToks(m, k))
    ensures IsKeyContent(ValueTree(v))
    decreases v, 0
  {
    if v.Ref? { RefMarkupToks(v.path, m, k); }
  }

  lemma {:induction false} InnerMarkupToks(p: Path, m: List<Piece>, k: List<Token>)
    requires ArePieces(m)
    ensures XmlToks(InnerMarkup(p, m), k) == InstanceNameToks(NameTree(p), XmlToks(m, k))
    ensures IsInstanceName(NameTree(p))
    decreases p, 0
  {
    KeysMarkupToks(p.keys, Cons(Close(24), m), k);
  }

  lemma {:induction false} RefMarkupToks(p: Path, m: List<Piece>, k: List<Token>)
    requires ArePieces(m)
    ensures XmlToks(RefMarkup(p, m), k) == ValueRefToks(RefTree(p), XmlToks(m, k))
    ensures IsValueRef(RefTree(p))
    decreases p, 1
  {
    hide HostMarkup, InnerMarkup, HostTree, NameTree, IsNsPath, IsInstanceName;
    var m1 := Cons(Close(23), Cons(Close(16), m));
    var m2 := InnerMarkup(p, m1);
    InnerMarkupToks(p, m1, k);
    HostMarkupToks(p.ns, m2, k);
    Toks3(Open(16, []), Open(23, []), Newline, HostMarkup(p.ns, m2), k);
  }

  // ----- text the lexer gives back -----

  /** Names without a quote, string values without a '<'. */
  predicate Printable(p: Path) {
    && Free(OrEmpty(p.cls), '"') && Free(OrEmpty(p.ns), '"') && PrintableKeys(p.keys)
  }

  predicate PrintableKeys(keys: List<Key>) {
    match keys
    case Nil => true
    case Cons(key, t) => Free(key.name, '"') && PrintableValue(key.value) && PrintableKeys(t)
  }

  predicate PrintableValue(v: KeyVal) {
    match v
    case Plain(s) => s.Str? ==> Free(s.s, '<')
    case Ref(p) => Printable(p)
  }

  predicate AllFree(l: List<string>, c: char) {
    match l
    case Nil => true
    case Cons(s, t) => Free(s, c) && AllFree(t, c)
  }

  lemma {:induction false} PartsFree(s: string, c: char)
    requires Free(s, c)
    ensures AllFree(Parts(s), c)
    decreases |s|
  {
    var i := Slash(s, 0);
    if i < |s| { PartsFree(s[i + 1..], c); }
  }

  /** The parts are what stands between the slashes: none of them holds one. */
  lemma {:induction false} PartsWhole(s: string)
    ensures Parts(s).Cons? && AllFree(Parts(s), '/')
    decreases |s|
  {
    var i := Slash(s, 0);
    if i < |s| { PartsWhole(s[i + 1..]); }
  }

  /** The reference printed for a key is that of an instance path on the local host. */
  lemma ShapeOfReference(p: Path)
    ensures var d := RefTree(p).data;
            d.InstancePath? && d.path.host.start.content == Some("localhost") && d.path.local.names == NsTree(Components(p.ns)) && d.name == NameTree(p)
  {
    TrimExact("localhost");
  }

  lemma {:induction false} NsReadable(parts: List<string>, m: List<Piece>)
    requires ArePieces(m) && AllFree(parts, '"') && AllReadable(m)
    ensures AllReadable(NsMarkup(parts, m))
  {
    if parts.Cons? { NsReadable(parts.tail, m); }
  }

  lemma HostReadable(ns: Option<string>, m: List<Piece>)
    requires ArePieces(m) && Free(OrEmpty(ns), '"') && AllReadable(m)
    ensures AllReadable(HostMarkup(ns, m))
  {
    if ns.Some? { PartsFree(ns.value, '"'); }
    var m1 := Pieces3(Close(7), Close(10), Newline, m);
    assert AllReadable(m1);
    NsReadable(Components(ns), m1);
    assert AllReadable(Cons(Open(7, []), Cons(Newline, NsMarkup(Components(ns), m1))));
  }

  lemma CharsReadable(v: Scalar)
    requires v.Str? ==> Free(v.s, '<')
    ensures Free(CharsOf(v), '<') && Free(KeyType(v), '"')
  {
  }

  lemma {:induction false} KeysReadable(keys: List<Key>, m: List<Piece>)
    requires ArePieces(m) && PrintableKeys(keys) && AllReadable(m)
    ensures AllReadable(KeysMarkup(keys, m))
    decreases keys, 1
  {
    if keys.Cons? {
      KeysReadable(keys.tail, m);
      var m1 := Cons(Close(22), Cons(Newline, KeysMarkup(keys.tail, m)));
      assert AllReadable(m1);
      match keys.head.value
      case Plain(v) => CharsReadable(v);
      case Ref(p) => RefReadable(p, m1);
    }
  }

  lemma {:induction false} RefReadable(p: Path, m: List<Piece>)
    requires ArePieces(m) && Printable(p) && AllReadable(m)
    ensures AllReadable(RefMarkup(p, m))
    decreases p, 1
  {
    var m1 := Cons(Close(23), Cons(Close(16), m));
    assert AllReadable(Cons(Close(24), m1));
    KeysReadable(p.keys, Cons(Close(24), m1));
    HostReadable(p.ns, InnerMarkup(p, m1));
  }

  // ----- createPath and getKeyValueTypePtr -----

  predicate HasKey(keys: List<Key>, name: string) {
    match keys
    case Nil => false
    case Cons(k, t) => SameNoCase(k.name, name) || HasKey(t, name)
  }

  /** CMAddKey: a name that is there already is left as it is. */
  function AddKey(keys: List<Key>, key: Key): List<Key> {
    match keys
    case Nil => Cons(key, Nil)
    case Cons(k, t) => if SameNoCase(k.name, key.name) then keys else Cons(k, AddKey(t, key))
  }

  /** None: a missing name or value is used, or a number that was not read. */
  function KeyOf(b: KeyBinding): Option<Key>
    requires IsKeyBinding(b)
    decreases b
  {
    assert IsKeyContent(b.content);
    if Attr(b.start, 0).None? then None
    else
      match b.content
      case KeyValue(l) =>
        var v := ReadScalar(Attr(l.start, 0), l.start.content);
        if v.None? then None else Some(Key(Attr(b.start, 0).value, Plain(v.value)))
      case KeyRef(r) =>
        var p := RefOf(r);
        if p.None? then None else Some(Key(Attr(b.start, 0).value, Ref(p.value)))
  }

  function RefOf(r: ValueRef): Option<Path>
    requires IsValueRef(r)
    decreases r
  {
    assert IsRefData(r.data);
    match r.data
    case InstancePath(_, p, n, _) => assert IsLocalNsPath(p.local); PathOf(Joined(p.local.names), n)
    case LocalInstancePath(_, p, n, _) => PathOf(Joined(p.names), n)
    case NameOnly(n) => PathOf(Some(""), n)
  }

  function PathOf(ns: Option<string>, n: InstanceName): Option<Path>
    requires IsInstanceName(n)
    decreases n
  {
    var keys := KeysOf(Nil, n.keys);
    if keys.None? then None else Some(Path(ns, Attr(n.start, 0), keys.value))
  }

  function KeysOf(acc: List<Key>, l: List<KeyBinding>): Option<List<Key>>
    requires AreKeys(l)
    decreases l
  {
    match l
    case Nil => Some(acc)
    case Cons(b, t) =>
      var k := KeyOf(b);
      if k.None? then None else KeysOf(AddKey(acc, k.value), t)
  }

  function CreatePath(n: InstanceName): Option<Path>
    requires IsInstanceName(n)
  {
    PathOf(None, n)
  }

  // ----- the round trip -----

  /** Keys with names that differ from each other and from those before them. */
  predicate Fresh(acc: List<Key>, keys: List<Key>) {
    match keys
    case Nil => true
    case Cons(k, t) => !HasKey(acc, k.name) && !HasKey(t, k.name) && Fresh(acc, t)
  }

  predicate Unique(keys: List<Key>) { Fresh(Nil, keys) }

  /** A path as the C code holds it: the keys were added one by one, and each value fits its type. */
  predicate IsPath(p: Path) { Unique(p.keys) && ArePathKeys(p.keys) }

  predicate ArePathKeys(keys: List<Key>) {
    match keys
    case Nil => true
    case Cons(k, t) => IsKeyVal(k.value) && ArePathKeys(t)
  }

  predicate IsKeyVal(v: KeyVal) {
    match v
    case Plain(s) => IsScalar(s)
    case Ref(p) => IsPath(p)
  }

  /** A path, its keys and its references after the way through XML. A missing class name becomes empty. */
  function Normal(p: Path): Path { Path(p.ns, Some(OrEmpty(p.cls)), NormalKeys(p.keys)) }

  function NormalKeys(keys: List<Key>): List<Key> {
    match keys
    case Nil => Nil
    case Cons(k, t) => Cons(Key(k.name, NormalValue(k.value)), NormalKeys(t))
  }

  function NormalValue(v: KeyVal): KeyVal {
    match v
    case Plain(s) => Plain(NormalScalar(s))
    case Ref(p) => Ref(Normal(p))
  }

  lemma {:induction false} SplitJoin(s: string)
    ensures AreNames(NsTree(Parts(s))) && Joined(NsTree(Parts(s))) == Some(s)
    decreases |s|
  {
    var i := Slash(s, 0);
    if i < |s| {
      SplitJoin(s[i + 1..]);
      assert s == s[..i] + "/" + s[i + 1..];
    } else {
      assert NsTree(Parts(s)).tail == Nil;
    }
  }

  lemma {:induction false} HasKeyAppend(acc: List<Key>, k: Key, name: string)
    ensures HasKey(CText.Append(acc, Cons(k, Nil)), name) <==> HasKey(acc, name) || SameNoCase(k.name, name)
  {
    if acc.Cons? { HasKeyAppend(acc.tail, k, name); }
  }

  lemma {:induction false} AddNewKey(acc: List<Key>, k: Key)
    requires !HasKey(acc, k.name)
    ensures AddKey(acc, k) == CText.Append(acc, Cons(k, Nil))
  {
    if acc.Cons? { AddNewKey(acc.tail, k); }
  }

  /** `k` may join the keys before a list in which its name does not occur. */
  lemma {:induction false} FreshMore(acc: List<Key>, k: Key, keys: List<Key>)
    requires Fresh(acc, keys) && !HasKey(keys, k.name)
    ensures Fresh(CText.Append(acc, Cons(k, Nil)), keys)
  {
    if keys.Cons? {
      HasKeyAppend(acc, k, keys.head.name);
      FreshMore(acc, k, keys.tail);
    }
  }

  lemma {:induction false} KeysBuilt(acc: List<Key>, keys: List<Key>)
    requires Fresh(acc, keys) && ArePathKeys(keys)
    ensures AreKeys(KeysTree(keys)) && KeysOf(acc, KeysTree(keys)) == Some(CText.Append(acc, NormalKeys(keys)))
    decreases keys, 1
  {
    match keys
    case Nil =>
      AppendNil(acc);
    case Cons(key, t) =>
      var k := Key(key.name, NormalValue(key.value));
      ValueBuilt(key);
      AddNewKey(acc, k);
      FreshMore(acc, k, t);
      KeysBuilt(CText.Append(acc, Cons(k, Nil)), t);
      AppendMore(acc, k, NormalKeys(t));
  }

  lemma {:induction false} ValueBuilt(key: Key)
    requires IsKeyVal(key.value)
    ensures var b := KeyBinding(Opened(22, [key.name]), ValueTree(key.value), Closed(22));
            IsKeyBinding(b) && KeyOf(b) == Some(Key(key.name, NormalValue(key.value)))
    decreases key, 0
  {
    match key.value
    case Plain(v) => PlainBuilt(key.name, v);
    case Ref(p) =>
      RefBuilt(p);
      RefKeyBuilt(key.name, p);
  }

  lemma PlainBuilt(name: string, v: Scalar)
    requires IsScalar(v)
    ensures var b := KeyBinding(Opened(22, [name]), ValueTree(Plain(v)), Closed(22));
            IsKeyBinding(b) && KeyOf(b) == Some(Key(name, Plain(NormalScalar(v))))
  {
    hide ReadScalar, NormalScalar, CharsOf, KeyType;
    ScalarRead(v);
  }

  lemma RefKeyBuilt(name: string, p: Path)
    requires IsValueRef(RefTree(p)) && RefOf(RefTree(p)) == Some(Normal(p))
    ensures var b := KeyBinding(Opened(22, [name]), ValueTree(Ref(p)), Closed(22));
            IsKeyBinding(b) && KeyOf(b) == Some(Key(name, Ref(Normal(p))))
  {
    hide RefTree, RefOf, IsValueRef, Normal;
  }

  lemma {:induction false} RefBuilt(p: Path)
    requires IsPath(p)
    ensures IsValueRef(RefTree(p)) && RefOf(RefTree(p)) == Some(Normal(p))
    decreases p, 1
  {
    hide NameTree, HostTree, PathOf, IsInstanceName, IsNsPath, Joined;
    NameBuilt(p.ns, p);
    HostBuilt(p.ns);
  }

  lemma {:induction false} NameBuilt(ns: Option<string>, p: Path)
    requires IsPath(p)
    ensures IsInstanceName(NameTree(p)) && PathOf(ns, NameTree(p)) == Some(Normal(p).(ns := ns))
    decreases p, 0
  {
    KeysBuilt(Nil, p.keys);
  }

  lemma HostBuilt(ns: Option<string>)
    ensures IsNsPath(HostTree(ns)) && IsLocalNsPath(HostTree(ns).local) && Joined(HostTree(ns).local.names) == ns
  {
    if ns.Some? { SplitJoin(ns.value); }
  }

  /** Printing a path's keys inside an INSTANCENAME element, lexing, parsing and rebuilding gives the path in normal
      form; the text behind is left to be read. */
  lemma PathRoundTrip(p: Path, k: Text)
    requires IsPath(p) && Printable(p)
    ensures PInstanceName(Toks(Before(Xml(NameMarkup(p, Nil)), k))) == Ok(NameTree(p), Toks(k))
    ensures IsInstanceName(NameTree(p)) && CreatePath(NameTree(p)) == Some(Normal(p).(ns := None))
  {
    NameRead(p, k);
    AllInstanceNames(NameTree(p), Toks(k));
    NameBuilt(None, p);
  }

  lemma NameRead(p: Path, k: Text)
    requires Printable(p)
    ensures IsInstanceName(NameTree(p)) && Toks(Before(Xml(NameMarkup(p, Nil)), k)) == InstanceNameToks(NameTree(p), Toks(k))
  {
    hide Toks, KeysMarkup, Xml, PrintableKeys, KeysTree, AreKeys, Before;
    var m := LineOf(Close(24), Nil);
    LineReadable(Close(24), Nil);
    KeysReadable(p.keys, m);
    LineReadable(Open(24, [OrEmpty(p.cls)]), KeysMarkup(p.keys, m));
    ReadXml(NameMarkup(p, Nil), k);
    LineToks(Close(24), Nil, Toks(k));
    KeysMarkupToks(p.keys, m, Toks(k));
    LineToks(Open(24, [OrEmpty(p.cls)]), KeysMarkup(p.keys, m), Toks(k));
  }

  // ----- which paths come back unchanged -----

  /** Every class has a name, no boolean key is true, integers are 64 bits wide and signed exactly when negative, and no string starts
      or ends with a blank. */
  predicate IsExactPath(p: Path) { p.cls.Some? && AreExact(p.keys) }

  predicate AreExact(keys: List<Key>) {
    match keys
    case Nil => true
    case Cons(k, t) => (match k.value case Plain(v) => IsExact(v) case Ref(p) => IsExactPath(p)) && AreExact(t)
  }

  lemma {:induction false} ExactPaths(p: Path)
    ensures Normal(p) == p <==> IsExactPath(p)
  {
    ExactKeys(p.keys);
  }

  lemma {:induction false} ExactKeys(keys: List<Key>)
    ensures NormalKeys(keys) == keys <==> AreExact(keys)
  {
    if keys.Cons? {
      ExactKeys(keys.tail);
      match keys.head.value
      case Plain(v) => ExactScalars(v);
      case Ref(p) => ExactPaths(p);
    }
  }

  /** Paths stay well formed as keys are added. */
  lemma {:induction false} AddKeyFresh(acc: List<Key>, keys: List<Key>, k: Key)
    requires Fresh(acc, keys) && !HasKey(acc, k.name)
    ensures Fresh(acc, AddKey(keys, k))
  {
    if keys.Cons? && !SameNoCase(keys.head.name, k.name) {
      AddKeyFresh(acc, keys.tail, k);
      AddedKey(keys.tail, k, keys.head.name);
    }
  }

  lemma {:induction false} AddedKey(keys: List<Key>, k: Key, name: string)
    ensures HasKey(AddKey(keys, k), name) ==> HasKey(keys, name) || SameNoCase(k.name, name)
  {
    if keys.Cons? { AddedKey(keys.tail, k, name); }
  }

  /** What createPath builds is a path again. */
  lemma {:induction false} BuiltKeys(acc: List<Key>, l: List<KeyBinding>)
    requires AreKeys(l) && Unique(acc) && ArePathKeys(acc) && KeysOf(acc, l).Some?
    ensures Unique(KeysOf(acc, l).value) && ArePathKeys(KeysOf(acc, l).value)
    decreases l
  {
    if l.Cons? {
      var k := KeyOf(l.head).value;
      assert IsKeyContent(l.head.content);
      match l.head.content {
        case KeyValue(_) => ReadScalarFits(Attr(l.head.content.leaf.start, 0), l.head.content.leaf.start.content);
        case KeyRef(r) => BuiltPaths(r);
      }
      AddKeyFresh(Nil, acc, k);
      AddKeyFits(acc, k);
      BuiltKeys(AddKey(acc, k), l.tail);
    }
  }

  lemma {:induction false} BuiltPaths(r: ValueRef)
    requires IsValueRef(r) && RefOf(r).Some?
    ensures IsPath(RefOf(r).value)
    decreases r
  {
    assert IsRefData(r.data);
    match r.data
    case InstancePath(_, p, n, _) => BuiltPath(Joined(p.local.names), n);
    case LocalInstancePath(_, p, n, _) => BuiltPath(Joined(p.names), n);
    case NameOnly(n) => BuiltPath(Some(""), n);
  }

  lemma {:induction false} BuiltPath(ns: Option<string>, n: InstanceName)
    requires IsInstanceName(n) && PathOf(ns, n).Some?
    ensures IsPath(PathOf(ns, n).value)
    decreases n
  {
    BuiltKeys(Nil, n.keys);
  }

  lemma {:induction false} AddKeyFits(keys: List<Key>, k: Key)
    requires ArePathKeys(keys) && IsKeyVal(k.value)
    ensures ArePathKeys(AddKey(keys, k))
  {
    if keys.Cons? { AddKeyFits(keys.tail, k); }
  }

  lemma ReadScalarFits(t: Option<string>, v: Option<string>)
    ensures ReadScalar(t, v).Some? ==> IsScalar(ReadScalar(t, v).value)
  {
  }

  /** A second way through XML changes nothing more. */
  lemma {:induction false} NormalIsExact(p: Path)
    ensures IsExactPath(Normal(p))
  {
    NormalKeysExact(p.keys);
  }

  lemma {:induction false} NormalKeysExact(keys: List<Key>)
    ensures AreExact(NormalKeys(keys))
  {
    if keys.Cons? {
      NormalKeysExact(keys.tail);
      match keys.head.value
      case Plain(v) => NormalScalarExact(v);
      case Ref(p) => NormalIsExact(p);
    }
  }

  lemma NormalScalarExact(v: Scalar)
    ensures IsExact(NormalScalar(v))
  {
  }
}
