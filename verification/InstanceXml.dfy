/** Instances as XML: what addXmlInstance prints, what setInstProperties makes of the parsed text, and the round trip. */
module InstanceXml {
  import opened CText
  import opened Lexing
  import opened TokenCodes
  import opened Syntax
  import opened Grammar
  import opened CimTags
  import opened TagLookup
  import opened Markup
  import opened CimData
  import opened PathXml
  import opened Escaping

  /** CMPI_null, the types of property values modelled here, and the others. */
  datatype Type = NullType | BoolType | UintType(bits: nat) | SintType(bits: nat) | StringType | OtherType

  datatype Inst = Inst(cls: Option<string>, props: List<Prop>)

  datatype Prop = Prop(name: string, data: PropData)

  datatype PropData =
    | Null
    | Simple(v: Scalar)
    | Array(typ: Type, values: List<Scalar>)
    | RefTo(path: Path)
    | Embed(inst: Inst)

  function TypeOf(v: Scalar): Type {
    match v
    case Bool(_) => BoolType
    case Uint(bits, _) => UintType(bits)
    case Sint(bits, _) => SintType(bits)
    case Str(_) => StringType
  }

  predicate IsType(t: Type) {
    match t
    case UintType(bits) => IsWidth(bits)
    case SintType(bits) => IsWidth(bits)
    case BoolType => true
    case StringType => true
    case _ => false
  }

  /** cmpiToXmlType */
  function TypeName(t: Type): string
    requires IsType(t)
  {
    match t
    case BoolType => "boolean"
    case UintType(8) => "uint8"
    case UintType(16) => "uint16"
    case UintType(32) => "uint32"
    case UintType(_) => "uint64"
    case SintType(8) => "sint8"
    case SintType(16) => "sint16"
    case SintType(32) => "sint32"
    case SintType(_) => "sint64"
    case StringType => "string"
  }

  /** xmlToCmpiType: the first row of the type table with this name. */
  function TypeNamed(s: Option<string>): Type {
    if s.None? then NullType
    else if SameNoCase(s.value, "boolean") then BoolType
    else if SameNoCase(s.value, "char16") || SameNoCase(s.value, "real32") || SameNoCase(s.value, "real64") then OtherType
    else if SameNoCase(s.value, "uint8") then UintType(8)
    else if SameNoCase(s.value, "uint16") then UintType(16)
    else if SameNoCase(s.value, "uint32") then UintType(32)
    else if SameNoCase(s.value, "uint64") then UintType(64)
    else if SameNoCase(s.value, "sint8") then SintType(8)
    else if SameNoCase(s.value, "sint16") then SintType(16)
    else if SameNoCase(s.value, "sint32") then SintType(32)
    else if SameNoCase(s.value, "sint64") then SintType(64)
    else if SameNoCase(s.value, "string") then StringType
    else if SameNoCase(s.value, "datetime") || SameNoCase(s.value, "reference") || SameNoCase(s.value, "instance") then OtherType
    else NullType
  }

  lemma UintNames(bits: nat)
    requires IsWidth(bits)
    ensures TypeNamed(Some(TypeName(UintType(bits)))) == UintType(bits) && Free(TypeName(UintType(bits)), '"')
  {
    var n := TypeName(UintType(bits));
    assert Lower(n[0]) == 'u' && Lower(n[4]) == n[4];
  }

  lemma Unlike(a: string, b: string, i: nat)
    requires |a| != |b| || (i < |a| && Lower(a[i]) != Lower(b[i]))
    ensures !SameNoCase(a, b)
  {
  }

  /** No name in the table before the signed types starts with 's'. */
  lemma NotUnsigned(n: string)
    requires n != "" && Lower(n[0]) == 's'
    ensures TypeNamed(Some(n)) == if SameNoCase(n, "sint8") then SintType(8) else if SameNoCase(n, "sint16") then SintType(16) else if SameNoCase(n, "sint32") then SintType(32) else if SameNoCase(n, "sint64") then SintType(64) else if SameNoCase(n, "string") then StringType else NullType
  {
    hide SameNoCase;
    Unlike(n, "boolean", 0);
    Unlike(n, "char16", 0);
    Unlike(n, "real32", 0);
    Unlike(n, "real64", 0);
    Unlike(n, "uint8", 0);
    Unlike(n, "uint16", 0);
    Unlike(n, "uint32", 0);
    Unlike(n, "uint64", 0);
    Unlike(n, "datetime", 0);
    Unlike(n, "reference", 0);
    Unlike(n, "instance", 0);
  }

  lemma SintNames(bits: nat)
    requires IsWidth(bits)
    ensures TypeNamed(Some(TypeName(SintType(bits)))) == SintType(bits) && Free(TypeName(SintType(bits)), '"')
  {
    hide TypeNamed;
    var n := TypeName(SintType(bits));
    NotUnsigned(n);
    assert Lower(n[0]) == 's' && Lower(n[4]) == n[4];
  }

  lemma StringName()
    ensures TypeNamed(Some("string")) == StringType
  {
    hide TypeNamed, SameNoCase;
    NotUnsigned("string");
    Unlike("string", "sint8", 0);
    Unlike("string", "sint16", 1);
    Unlike("string", "sint32", 1);
    Unlike("string", "sint64", 1);
    SameName("string");
  }

  lemma SameName(n: string)
    ensures SameNoCase(n, n)
  {
  }

  lemma TypeNames(t: Type)
    requires IsType(t)
    ensures TypeNamed(Some(TypeName(t))) == t && Free(TypeName(t), '"')
  {
    match t
    case UintType(bits) => UintNames(bits);
    case SintType(bits) => SintNames(bits);
    case BoolType =>
    case StringType => StringName();
  }

  // ----- printing -----

  /** The text of a property value or array element; strings are escaped. */
  function ValueText(v: Scalar): string { if v.Str? then Escape(v.s) else CharsOf(v) }

  /** addXmlValue prints nothing for a null value and for an empty array. */
  predicate Skipped(d: PropData) { d.Null? || (d.Array? && d.values.Nil?) }

  /** getNameSpaceComponents: the text behind the last slash is left out if it is empty. */
  function NameComponents(s: string): List<string>
    decreases |s|
  {
    var i := Slash(s, 0);
    if i == |s| then if s == "" then Nil else Cons(s, Nil) else Cons(s[..i], NameComponents(s[i + 1..]))
  }

  function ValuesMarkup(vs: List<Scalar>, m: List<Piece>): (r: List<Piece>)
    requires ArePieces(m)
    ensures ArePieces(r)
  {
    match vs
    case Nil => m
    case Cons(v, t) => LineOf(Content(19, [], ValueText(v)), ValuesMarkup(t, m))
  }

  function LocalNsMarkup(ns: string, m: List<Piece>): (r: List<Piece>)
    requires ArePieces(m)
    ensures ArePieces(r)
  {
    LineOf(Open(7, []), NsMarkup(NameComponents(ns), LineOf(Close(7), m)))
  }

  /** addXmlReference; no host name is ever known. */
  function ReferenceMarkup(p: Path, m: List<Piece>): (r: List<Piece>)
    requires ArePieces(m)
    ensures ArePieces(r)
  {
    LineOf(Open(16, []),
      if p.ns.None? then NameMarkup(p, LineOf(Close(16), m))
      else LineOf(Open(8, []), LocalNsMarkup(p.ns.value, NameMarkup(p, LineOf(Close(8), LineOf(Close(16), m))))))
  }

  /** addXmlValue for a property of an instance. */
  function PropMarkup(p: Prop, m: List<Piece>): (r: List<Piece>)
    requires ArePieces(m) && IsPropData(p.data)
    ensures ArePieces(r)
  {
    match p.data
    case Null => m
    case Simple(v) => LineOf(Open(28, [p.name, TypeName(TypeOf(v))]), LineOf(Content(19, [], ValueText(v)), LineOf(Close(28), m)))
    case Array(t, vs) =>
      if vs.Nil? then m
      else LineOf(Open(27, [p.name, TypeName(t)]), ArrayMarkup(vs, LineOf(Close(27), m)))
    case RefTo(path) => LineOf(Open(26, [p.name]), ReferenceMarkup(path, LineOf(Close(26), m)))
  }

  function ArrayMarkup(vs: List<Scalar>, m: List<Piece>): (r: List<Piece>)
    requires ArePieces(m)
    ensures ArePieces(r)
  {
    LineOf(Open(14, []), ValuesMarkup(vs, LineOf(Close(14), m)))
  }

  function PropsMarkup(l: List<Prop>, m: List<Piece>): (r: List<Piece>)
    requires ArePieces(m) && ArePropsData(l)
    ensures ArePieces(r)
  {
    match l
    case Nil => m
    case Cons(p, t) => PropMarkup(p, PropsMarkup(t, m))
  }

  /** addXmlInstance */
  function InstMarkup(i: Inst, m: List<Piece>): (r: List<Piece>)
    requires ArePieces(m) && ArePropsData(i.props)
    ensures ArePieces(r)
  {
    LineOf(Open(25, [OrEmpty(i.cls)]), PropsMarkup(i.props, LineOf(Close(25), m)))
  }

  // ----- well-formed instances -----

  predicate AreScalars(vs: List<Scalar>, t: Type) {
    match vs
    case Nil => true
    case Cons(v, r) => IsScalar(v) && TypeOf(v) == t && AreScalars(r, t)
  }

  /** A value of a type modelled here, other than an embedded instance. */
  predicate IsPropData(d: PropData) {
    match d
    case Null => true
    case Simple(v) => IsScalar(v)
    case Array(t, vs) => IsType(t) && AreScalars(vs, t)
    case RefTo(p) => IsPath(p)
    case Embed(_) => false
  }

  predicate ArePropsData(l: List<Prop>) {
    match l
    case Nil => true
    case Cons(p, t) => IsPropData(p.data) && ArePropsData(t)
  }

  predicate HasProp(l: List<Prop>, name: string) {
    match l
    case Nil => false
    case Cons(p, t) => SameNoCase(p.name, name) || HasProp(t, name)
  }

  predicate FreshProps(acc: List<Prop>, l: List<Prop>) {
    match l
    case Nil => true
    case Cons(p, t) => !HasProp(acc, p.name) && !HasProp(t, p.name) && FreshProps(acc, t)
  }

  /** The properties were added one by one. */
  predicate IsInst(i: Inst) { ArePropsData(i.props) && FreshProps(Nil, i.props) }

  /** Names without a quote, and references that can be printed. */
  predicate PrintableProps(l: List<Prop>) {
    match l
    case Nil => true
    case Cons(p, t) => Free(p.name, '"') && (p.data.RefTo? ==> Printable(p.data.path)) && PrintableProps(t)
  }

  predicate PrintableInst(i: Inst) { Free(OrEmpty(i.cls), '"') && PrintableProps(i.props) }

  // ----- the parse tree of the printed text -----

  function ValueTreeOf(v: Scalar): Value {
    Value(Opened(19, []).(content := Some(Trim(ValueText(v)))), Chars, Closed(19))
  }

  function ValuesTree(vs: List<Scalar>): List<Value> {
    match vs
    case Nil => Nil
    case Cons(v, t) => Cons(ValueTreeOf(v), ValuesTree(t))
  }

  function ReferenceTree(p: Path): ValueRef {
    ValueRef(Opened(16, []),
      if p.ns.None? then NameOnly(NameTree(p))
      else LocalInstancePath(Opened(8, []), LocalNsPath(Opened(7, []), NsTree(NameComponents(p.ns.value)), Closed(7)), NameTree(p), Closed(8)),
      Closed(16))
  }

  function PropTree(p: Prop): Property
    requires IsPropData(p.data) && !Skipped(p.data)
  {
    match p.data
    case Simple(v) => Property(Opened(28, [p.name, TypeName(TypeOf(v))]), Nil, One(ValueTreeOf(v)), Closed(28))
    case Array(t, vs) => Property(Opened(27, [p.name, TypeName(t)]), Nil, Many(ValueArray(Opened(14, []), ValuesTree(vs), Closed(14))), Closed(27))
    case RefTo(path) => Property(Opened(26, [p.name]), Nil, Reference(ReferenceTree(path)), Closed(26))
  }

  function PropsTree(l: List<Prop>): List<Property>
    requires ArePropsData(l)
  {
    match l
    case Nil => Nil
    case Cons(p, t) => if Skipped(p.data) then PropsTree(t) else Cons(PropTree(p), PropsTree(t))
  }

  function InstTree(i: Inst): Instance
    requires ArePropsData(i.props)
  {
    Instance(Opened(25, [OrEmpty(i.cls)]), Nil, PropsTree(i.props), Closed(25))
  }

  // ----- printed text is the tokens of its tree -----

  lemma ValueToksOf(v: Scalar, m: List<Piece>, k: List<Token>)
    requires ArePieces(m)
    ensures XmlToks(LineOf(Content(19, [], ValueText(v)), m), k) == ValueToks(ValueTreeOf(v), XmlToks(m, k)) && IsValue(ValueTreeOf(v))
  {
    hide ValueText;
    LineToks(Content(19, [], ValueText(v)), m, k);
  }

  lemma {:induction false} ValuesToksOf(vs: List<Scalar>, m: List<Piece>, k: List<Token>)
    requires ArePieces(m)
    ensures XmlToks(ValuesMarkup(vs, m), k) == ValuesToks(ValuesTree(vs), XmlToks(m, k)) && AreValues(ValuesTree(vs))
  {
    if vs.Cons? {
      ValueToksOf(vs.head, ValuesMarkup(vs.tail, m), k);
      ValuesToksOf(vs.tail, m, k);
    }
  }

  lemma ArrayToksOf(vs: List<Scalar>, m: List<Piece>, k: List<Token>)
    requires ArePieces(m)
    ensures var a := ValueArray(Opened(14, []), ValuesTree(vs), Closed(14));
            XmlToks(ArrayMarkup(vs, m), k) == ValueArrayToks(a, XmlToks(m, k)) && IsValueArray(a)
  {
    hide ValuesMarkup, ValuesTree;
    var m1 := LineOf(Close(14), m);
    LineToks(Close(14), m, k);
    ValuesToksOf(vs, m1, k);
    LineToks(Open(14, []), ValuesMarkup(vs, m1), k);
  }

  lemma LocalNsToksOf(ns: string, m: List<Piece>, k: List<Token>)
    requires ArePieces(m)
    ensures var l := LocalNsPath(Opened(7, []), NsTree(NameComponents(ns)), Closed(7));
            XmlToks(LocalNsMarkup(ns, m), k) == LocalToks(l, XmlToks(m, k)) && IsLocalNsPath(l)
  {
    hide NsMarkup, NsTree;
    var m1 := LineOf(Close(7), m);
    LineToks(Close(7), m, k);
    NsMarkupToks(NameComponents(ns), m1, k);
    LineToks(Open(7, []), NsMarkup(NameComponents(ns), m1), k);
  }

  lemma NameToksOf(p: Path, m: List<Piece>, k: List<Token>)
    requires ArePieces(m)
    ensures XmlToks(NameMarkup(p, m), k) == InstanceNameToks(NameTree(p), XmlToks(m, k)) && IsInstanceName(NameTree(p))
  {
    hide KeysMarkup, KeysTree;
    var m1 := LineOf(Close(24), m);
    LineToks(Close(24), m, k);
    KeysMarkupToks(p.keys, m1, k);
    LineToks(Open(24, [OrEmpty(p.cls)]), KeysMarkup(p.keys, m1), k);
  }

  lemma ReferenceToksOf(p: Path, m: List<Piece>, k: List<Token>)
    requires ArePieces(m)
    ensures XmlToks(ReferenceMarkup(p, m), k) == ValueRefToks(ReferenceTree(p), XmlToks(m, k)) && IsValueRef(ReferenceTree(p))
  {
    hide NameMarkup, NameTree, LocalNsMarkup, NsTree, IsInstanceName, IsLocalNsPath;
    var m1 := LineOf(Close(16), m);
    LineToks(Close(16), m, k);
    if p.ns.None? {
      NameToksOf(p, m1, k);
      LineToks(Open(16, []), NameMarkup(p, m1), k);
    } else {
      var m2 := LineOf(Close(8), m1);
      var m3 := NameMarkup(p, m2);
      LineToks(Close(8), m1, k);
      NameToksOf(p, m2, k);
      LocalNsToksOf(p.ns.value, m3, k);
      LineToks(Open(8, []), LocalNsMarkup(p.ns.value, m3), k);
      LineToks(Open(16, []), LineOf(Open(8, []), LocalNsMarkup(p.ns.value, m3)), k);
    }
  }

  lemma PropToksOf(p: Prop, m: List<Piece>, k: List<Token>)
    requires ArePieces(m) && IsPropData(p.data) && !Skipped(p.data)
    ensures XmlToks(PropMarkup(p, m), k) == PropertyToks(PropTree(p), XmlToks(m, k)) && IsProperty(PropTree(p))
  {
    match p.data
    case Simple(v) => SimpleToksOf(p.name, v, m, k);
    case Array(t, vs) => ArrayPropToksOf(p.name, t, vs, m, k);
    case RefTo(path) => RefPropToksOf(p.name, path, m, k);
  }

  lemma SimpleToksOf(name: string, v: Scalar, m: List<Piece>, k: List<Token>)
    requires ArePieces(m) && IsScalar(v)
    ensures var p := Prop(name, Simple(v));
            XmlToks(PropMarkup(p, m), k) == PropertyToks(PropTree(p), XmlToks(m, k)) && IsProperty(PropTree(p))
  {
    hide TypeName, ValueText, ValueTreeOf, ValueToks, IsValue;
    var m1 := LineOf(Close(28), m);
    var m2 := LineOf(Content(19, [], ValueText(v)), m1);
    LineToks(Close(28), m, k);
    ValueToksOf(v, m1, k);
    LineToks(Open(28, [name, TypeName(TypeOf(v))]), m2, k);
  }

  lemma ArrayPropToksOf(name: string, t: Type, vs: List<Scalar>, m: List<Piece>, k: List<Token>)
    requires ArePieces(m) && IsPropData(Array(t, vs)) && vs.Cons?
    ensures var p := Prop(name, Array(t, vs));
            XmlToks(PropMarkup(p, m), k) == PropertyToks(PropTree(p), XmlToks(m, k)) && IsProperty(PropTree(p))
  {
    hide TypeName, ArrayMarkup, ValuesTree, IsValueArray, ValueArrayToks;
    var m1 := LineOf(Close(27), m);
    LineToks(Close(27), m, k);
    ArrayToksOf(vs, m1, k);
    LineToks(Open(27, [name, TypeName(t)]), ArrayMarkup(vs, m1), k);
  }

  lemma RefPropToksOf(name: string, path: Path, m: List<Piece>, k: List<Token>)
    requires ArePieces(m) && IsPath(path)
    ensures var p := Prop(name, RefTo(path));
            XmlToks(PropMarkup(p, m), k) == PropertyToks(PropTree(p), XmlToks(m, k)) && IsProperty(PropTree(p))
  {
    hide ReferenceMarkup, ReferenceTree, IsValueRef, ValueRefToks;
    var m1 := LineOf(Close(26), m);
    LineToks(Close(26), m, k);
    ReferenceToksOf(path, m1, k);
    LineToks(Open(26, [name]), ReferenceMarkup(path, m1), k);
  }

  lemma {:induction false} PropsToksOf(l: List<Prop>, m: List<Piece>, k: List<Token>)
    requires ArePieces(m) && ArePropsData(l)
    ensures XmlToks(PropsMarkup(l, m), k) == PropertiesToks(PropsTree(l), XmlToks(m, k)) && AreProperties(PropsTree(l))
  {
    hide PropTree, PropertyToks, IsProperty;
    if l.Cons? {
      PropsToksOf(l.tail, m, k);
      if !Skipped(l.head.data) { PropToksOf(l.head, PropsMarkup(l.tail, m), k); }
    }
  }

  lemma InstToksOf(i: Inst, m: List<Piece>, k: List<Token>)
    requires ArePieces(m) && ArePropsData(i.props)
    ensures XmlToks(InstMarkup(i, m), k) == InstanceToks(InstTree(i), XmlToks(m, k)) && IsInstance(InstTree(i))
  {
    hide PropsMarkup, PropsTree;
    var m1 := LineOf(Close(25), m);
    LineToks(Close(25), m, k);
    PropsToksOf(i.props, m1, k);
    LineToks(Open(25, [OrEmpty(i.cls)]), PropsMarkup(i.props, m1), k);
  }

  // ----- text the lexer gives back -----

  lemma TextReadable(v: Scalar)
    ensures Free(ValueText(v), '<')
  {
    if v.Str? { EscapedClean(v.s, '<'); }
  }

  lemma {:induction false} ValuesReadable(vs: List<Scalar>, m: List<Piece>)
    requires ArePieces(m) && AllReadable(m)
    ensures AllReadable(ValuesMarkup(vs, m))
  {
    if vs.Cons? {
      ValuesReadable(vs.tail, m);
      TextReadable(vs.head);
      LineReadable(Content(19, [], ValueText(vs.head)), ValuesMarkup(vs.tail, m));
    }
  }

  lemma {:induction false} ComponentsFree(s: string, c: char)
    requires Free(s, c)
    ensures AllFree(NameComponents(s), c)
    decreases |s|
  {
    var i := Slash(s, 0);
    if i < |s| { ComponentsFree(s[i + 1..], c); }
  }

  lemma NameReadable(p: Path, m: List<Piece>)
    requires ArePieces(m) && AllReadable(m) && Printable(p)
    ensures AllReadable(NameMarkup(p, m))
  {
    var m1 := LineOf(Close(24), m);
    LineReadable(Close(24), m);
    KeysReadable(p.keys, m1);
    LineReadable(Open(24, [OrEmpty(p.cls)]), KeysMarkup(p.keys, m1));
  }

  lemma ReferenceReadable(p: Path, m: List<Piece>)
    requires ArePieces(m) && AllReadable(m) && Printable(p)
    ensures AllReadable(ReferenceMarkup(p, m))
  {
    hide NameMarkup, NsMarkup, KeysMarkup;
    var m1 := LineOf(Close(16), m);
    LineReadable(Close(16), m);
    if p.ns.None? {
      NameReadable(p, m1);
      LineReadable(Open(16, []), NameMarkup(p, m1));
    } else {
      var m2 := LineOf(Close(8), m1);
      var m3 := NameMarkup(p, m2);
      LineReadable(Close(8), m1);
      NameReadable(p, m2);
      LocalNsReadable(p.ns.value, m3);
      LineReadable(Open(8, []), LocalNsMarkup(p.ns.value, m3));
      LineReadable(Open(16, []), LineOf(Open(8, []), LocalNsMarkup(p.ns.value, m3)));
    }
  }

  lemma LocalNsReadable(ns: string, m: List<Piece>)
    requires ArePieces(m) && AllReadable(m) && Free(ns, '"')
    ensures AllReadable(LocalNsMarkup(ns, m))
  {
    LineReadable(Close(7), m);
    ComponentsFree(ns, '"');
    NsReadable(NameComponents(ns), LineOf(Close(7), m));
    LineReadable(Open(7, []), NsMarkup(NameComponents(ns), LineOf(Close(7), m)));
  }

  lemma OpenReadable(row: nat, vs: seq<string>)
    requires Quotable(vs)
    ensures Readable(Open(row, vs))
  {
  }

  lemma LinesReadable(name: string, t: string, c: string, m: List<Piece>)
    requires ArePieces(m) && AllReadable(m) && Free(name, '"') && Free(t, '"') && Free(c, '<')
    ensures AllReadable(LineOf(Open(28, [name, t]), LineOf(Content(19, [], c), LineOf(Close(28), m))))
  {
    hide Free;
    CloseReadable(28, m);
    ContentReadable(19, c, LineOf(Close(28), m));
    OpenReadable(28, [name, t]);
    LineReadable(Open(28, [name, t]), LineOf(Content(19, [], c), LineOf(Close(28), m)));
  }

  lemma SimpleReadable(name: string, v: Scalar, m: List<Piece>)
    requires ArePieces(m) && AllReadable(m) && IsScalar(v) && Free(name, '"')
    ensures AllReadable(PropMarkup(Prop(name, Simple(v)), m))
  {
    hide TypeName, ValueText, AllReadable, Free;
    ScalarType(v);
    TypeNames(TypeOf(v));
    TextReadable(v);
    LinesReadable(name, TypeName(TypeOf(v)), ValueText(v), m);
  }

  lemma ScalarType(v: Scalar)
    requires IsScalar(v)
    ensures IsType(TypeOf(v))
  {
  }

  lemma CloseReadable(row: nat, m: List<Piece>)
    requires IsPiece(Close(row)) && ArePieces(m) && AllReadable(m)
    ensures AllReadable(LineOf(Close(row), m))
  {
  }

  lemma ContentReadable(row: nat, c: string, m: List<Piece>)
    requires IsPiece(Content(row, [], c)) && ArePieces(m) && AllReadable(m) && Free(c, '<')
    ensures AllReadable(LineOf(Content(row, [], c), m))
  {
  }

  lemma ArrayReadable(vs: List<Scalar>, m: List<Piece>)
    requires ArePieces(m) && AllReadable(m)
    ensures AllReadable(ArrayMarkup(vs, m))
  {
    LineReadable(Close(14), m);
    ValuesReadable(vs, LineOf(Close(14), m));
    LineReadable(Open(14, []), ValuesMarkup(vs, LineOf(Close(14), m)));
  }

  lemma PropReadable(p: Prop, m: List<Piece>)
    requires ArePieces(m) && AllReadable(m) && IsPropData(p.data) && Free(p.name, '"') && (p.data.RefTo? ==> Printable(p.data.path))
    ensures AllReadable(PropMarkup(p, m))
  {
    hide ReferenceMarkup, ArrayMarkup, TypeName, ValueText, Free;
    match p.data
    case Null =>
    case Simple(v) => SimpleReadable(p.name, v, m);
    case Array(t, vs) =>
      TypeNames(t);
      LineReadable(Close(27), m);
      ArrayReadable(vs, LineOf(Close(27), m));
      if vs.Cons? { LineReadable(Open(27, [p.name, TypeName(t)]), ArrayMarkup(vs, LineOf(Close(27), m))); }
    case RefTo(path) =>
      LineReadable(Close(26), m);
      ReferenceReadable(path, LineOf(Close(26), m));
      LineReadable(Open(26, [p.name]), ReferenceMarkup(path, LineOf(Close(26), m)));
  }

  lemma {:induction false} PropsReadable(l: List<Prop>, m: List<Piece>)
    requires ArePieces(m) && AllReadable(m) && ArePropsData(l) && PrintableProps(l)
    ensures AllReadable(PropsMarkup(l, m))
  {
    if l.Cons? {
      PropsReadable(l.tail, m);
      PropReadable(l.head, PropsMarkup(l.tail, m));
    }
  }

  // ----- setInstProperties -----

  /** __setProperty, or __addProperty for a new name. A null property keeps its null state. */
  function SetProp(l: List<Prop>, p: Prop): List<Prop> {
    match l
    case Nil => Cons(p, Nil)
    case Cons(h, t) =>
      if !SameNoCase(h.name, p.name) then Cons(h, SetProp(t, p))
      else if h.data.Null? then l
      else Cons(Prop(h.name, p.data), t)
  }

  /** str2CMPIValue on trimmed content; strings are unescaped. */
  function ReadData(t: Type, c: string): Option<Scalar> {
    match t
    case BoolType => Some(Bool(!SameNoCase(c, "false")))
    case UintType(bits) => ReadUint(bits, c)
    case SintType(bits) => ReadSint(bits, c)
    case StringType => Some(Str(Unescape(c)))
    case _ => None
  }

  function ReadValues(t: Type, l: List<Value>): Option<List<Scalar>> {
    match l
    case Nil => Some(Nil)
    case Cons(v, r) =>
      if !v.data.Chars? || v.start.content.None? then None
      else
        var x := ReadData(t, v.start.content.value);
        var xs := ReadValues(t, r);
        if x.None? || xs.None? then None else Some(Cons(x.value, xs.value))
  }

  /** None: a missing name or reference is used, a number is not read, or the type is not modelled. */
  function ReadProp(p: Property): Option<Prop>
    requires IsProperty(p)
    decreases p
  {
    assert IsData(p.data);
    var d :=
      if p.start.code == XTOK_PROPERTY then ReadSimple(TypeNamed(Attr(p.start, 1)), p.data)
      else if p.start.code == XTOK_PROPERTYARRAY then ReadArray(TypeNamed(Attr(p.start, 1)), p.data)
      else ReadReference(p.data);
    if Attr(p.start, 0).None? || d.None? then None else Some(Prop(Attr(p.start, 0).value, d.value))
  }

  function ReadReference(d: Data): Option<PropData>
    requires IsData(d) && (d.NoData? || d.Reference?)
  {
    match d
    case Reference(r) =>
      var path := RefOf(r);
      if path.None? then None else Some(RefTo(path.value))
    case _ => None
  }

  function ReadSimple(t: Type, d: Data): Option<PropData>
    requires IsData(d) && (d.NoData? || d.One?)
    decreases d
  {
    if d.NoData? then Some(Null)
    else
      assert IsValue(d.value);
      assert IsValueData(d.value.data);
      match d.value.data
      case Embedded(_, inst, _) =>
        var i := ReadInst(inst);
        if i.None? then None else Some(Embed(i.value))
      case Chars =>
        if d.value.start.content.None? || t.NullType? then Some(Null)
        else
          var v := ReadData(t, d.value.start.content.value);
          if v.None? then None else Some(Simple(v.value))
  }

  function ReadArray(t: Type, d: Data): Option<PropData>
    requires d.NoData? || d.Many?
  {
    if d.NoData? || d.items.values.Nil? then Some(Null)
    else
      var vs := ReadValues(t, d.items.values);
      if vs.None? then None else Some(Array(t, vs.value))
  }

  function ReadProps(acc: List<Prop>, l: List<Property>): Option<List<Prop>>
    requires AreProperties(l)
    decreases l
  {
    match l
    case Nil => Some(acc)
    case Cons(p, t) =>
      var x := ReadProp(p);
      if x.None? then None else ReadProps(SetProp(acc, x.value), t)
  }

  function ReadInst(i: Instance): Option<Inst>
    requires IsInstance(i)
    decreases i
  {
    var props := ReadProps(Nil, i.props);
    if props.None? then None else Some(Inst(Attr(i.start, 0), props.value))
  }

  // ----- the round trip -----

  function NormalText(v: Scalar): Scalar { if v.Str? then Str(Trim(v.s)) else v }

  function NormalTexts(vs: List<Scalar>): List<Scalar> {
    match vs
    case Nil => Nil
    case Cons(v, t) => Cons(NormalText(v), NormalTexts(t))
  }

  /** A name space without its last slash; the empty one is lost. */
  function CutNs(s: string): Option<string> {
    if s == "" then None else if s[|s| - 1] == '/' then Some(s[..|s| - 1]) else Some(s)
  }

  function NormalRef(p: Path): Path {
    Normal(p).(ns := if p.ns.None? then Some("") else CutNs(p.ns.value))
  }

  function NormalData(d: PropData): PropData {
    match d
    case Simple(v) => Simple(NormalText(v))
    case Array(t, vs) => Array(t, NormalTexts(vs))
    case RefTo(p) => RefTo(NormalRef(p))
    case _ => d
  }

  /** Properties after the way through XML: the null ones and the empty arrays are gone. */
  function NormalProps(l: List<Prop>): List<Prop> {
    match l
    case Nil => Nil
    case Cons(p, t) => if Skipped(p.data) then NormalProps(t) else Cons(Prop(p.name, NormalData(p.data)), NormalProps(t))
  }

  function NormalInst(i: Inst): Inst { Inst(Some(OrEmpty(i.cls)), NormalProps(i.props)) }

  lemma TextRead(v: Scalar)
    requires IsScalar(v)
    ensures ReadData(TypeOf(v), Trim(ValueText(v))) == Some(NormalText(v))
  {
    match v
    case Bool(b) =>
      TrimNumber(CharsOf(v));
      Unlike("true", "false", 0);
    case Uint(bits, n) => UintPropertyRead(bits, n);
    case Sint(bits, i) => SintPropertyRead(bits, i);
    case Str(s) => EscapeTrim(s);
  }

  lemma {:induction false} TextsRead(vs: List<Scalar>, t: Type)
    requires AreScalars(vs, t)
    ensures ReadValues(t, ValuesTree(vs)) == Some(NormalTexts(vs))
  {
    hide ReadData, ValueText;
    if vs.Cons? {
      TextRead(vs.head);
      TextsRead(vs.tail, t);
    }
  }

  lemma CutMore(a: string, rest: string)
    ensures CutNs(a + "/" + rest) == if CutNs(rest).None? then Some(a) else Some(a + "/" + CutNs(rest).value)
  {
    var s := a + "/" + rest;
    if rest == "" {
      assert s[..|s| - 1] == a;
    } else {
      assert s[|s| - 1] == rest[|rest| - 1];
      assert s[..|s| - 1] == a + "/" + rest[..|rest| - 1];
    }
  }

  lemma {:induction false} ComponentsWhole(s: string)
    ensures AllFree(NameComponents(s), '/')
    decreases |s|
  {
    var i := Slash(s, 0);
    if i < |s| { ComponentsWhole(s[i + 1..]); }
  }

  /** The reference printed for a property is that of a local instance path, or only a name where there is no name space. */
  lemma ShapeOfReference(p: Path)
    ensures var d := ReferenceTree(p).data;
            d.name == NameTree(p)
            && if p.ns.None? then d.NameOnly? else d.LocalInstancePath? && d.local.names == NsTree(NameComponents(p.ns.value))
  {
  }

  lemma {:induction false} ComponentsJoin(s: string)
    ensures AreNames(NsTree(NameComponents(s))) && Joined(NsTree(NameComponents(s))) == CutNs(s)
    decreases |s|
  {
    var i := Slash(s, 0);
    if i < |s| {
      ComponentsJoin(s[i + 1..]);
      JoinMore(s, i);
    } else if s != "" {
      assert NsTree(NameComponents(s)).tail == Nil;
    }
  }

  lemma ComponentsStep(s: string, i: nat)
    requires i == Slash(s, 0) < |s|
    ensures NameComponents(s) == Cons(s[..i], NameComponents(s[i + 1..]))
  {
  }

  lemma JoinMore(s: string, i: nat)
    requires i == Slash(s, 0) < |s|
    requires var l := NsTree(NameComponents(s[i + 1..])); AreNames(l) && Joined(l) == CutNs(s[i + 1..])
    ensures var l := NsTree(NameComponents(s)); AreNames(l) && Joined(l) == CutNs(s)
  {
    hide CutNs, NameComponents, NsTree, Joined, AreNames;
    var rest := s[i + 1..];
    CutMore(s[..i], rest);
    assert s == s[..i] + "/" + rest;
    ComponentsStep(s, i);
    JoinNs(s[..i], NameComponents(rest));
  }

  lemma JoinNs(n: string, parts: List<string>)
    requires AreNames(NsTree(parts))
    ensures var l, j := NsTree(Cons(n, parts)), Joined(NsTree(parts));
            AreNames(l) && Joined(l) == if j.None? then Some(n) else Some(n + "/" + j.value)
  {
  }

  lemma ReferenceRead(p: Path)
    requires IsPath(p)
    ensures IsValueRef(ReferenceTree(p)) && RefOf(ReferenceTree(p)) == Some(NormalRef(p))
  {
    KeysBuilt(Nil, p.keys);
    if p.ns.Some? {
      ComponentsJoin(p.ns.value);
      assert IsLocalNsPath(ReferenceTree(p).data.local);
    }
  }

  lemma PropRead(p: Prop)
    requires IsPropData(p.data) && !Skipped(p.data)
    ensures IsProperty(PropTree(p)) && ReadProp(PropTree(p)) == Some(Prop(p.name, NormalData(p.data)))
  {
    hide TypeName, TypeNamed, ReferenceTree, IsValueRef, RefOf, ReadData, ValueText, NormalText;
    PropToksOf(p, Nil, Nil);
    match p.data
    case Simple(v) =>
      TypeNames(TypeOf(v));
      TextRead(v);
    case Array(t, vs) =>
      TypeNames(t);
      TextsRead(vs, t);
    case RefTo(path) =>
      ReferenceRead(path);
  }

  lemma {:induction false} HasPropAppend(acc: List<Prop>, p: Prop, name: string)
    ensures HasProp(CText.Append(acc, Cons(p, Nil)), name) <==> HasProp(acc, name) || SameNoCase(p.name, name)
  {
    if acc.Cons? { HasPropAppend(acc.tail, p, name); }
  }

  lemma {:induction false} SetNewProp(acc: List<Prop>, p: Prop)
    requires !HasProp(acc, p.name)
    ensures SetProp(acc, p) == CText.Append(acc, Cons(p, Nil))
  {
    if acc.Cons? { SetNewProp(acc.tail, p); }
  }

  lemma {:induction false} FreshPropsMore(acc: List<Prop>, p: Prop, l: List<Prop>)
    requires FreshProps(acc, l) && !HasProp(l, p.name)
    ensures FreshProps(CText.Append(acc, Cons(p, Nil)), l)
  {
    if l.Cons? {
      HasPropAppend(acc, p, l.head.name);
      FreshPropsMore(acc, p, l.tail);
    }
  }

  lemma {:induction false} PropsRead(acc: List<Prop>, l: List<Prop>)
    requires ArePropsData(l) && FreshProps(acc, l)
    ensures AreProperties(PropsTree(l)) && ReadProps(acc, PropsTree(l)) == Some(CText.Append(acc, NormalProps(l)))
    decreases l
  {
    hide PropTree, ReadProp, IsProperty, NormalData, IsPropData;
    match l
    case Nil => AppendNil(acc);
    case Cons(p, t) =>
      if Skipped(p.data) {
        PropsRead(acc, t);
      } else {
        var x := Prop(p.name, NormalData(p.data));
        PropRead(p);
        SetNewProp(acc, x);
        FreshPropsMore(acc, x, t);
        PropsRead(CText.Append(acc, Cons(x, Nil)), t);
        AppendMore(acc, x, NormalProps(t));
      }
  }

  /** Printing an instance, lexing, parsing and rebuilding gives it back in normal form; the text behind is left to be read. */
  lemma InstanceRoundTrip(i: Inst, k: Text)
    requires IsInst(i) && PrintableInst(i)
    ensures PInstance(Toks(Before(Xml(InstMarkup(i, Nil)), k))) == Ok(InstTree(i), Toks(k))
    ensures IsInstance(InstTree(i)) && ReadInst(InstTree(i)) == Some(NormalInst(i))
  {
    var m := LineOf(Close(25), Nil);
    LineReadable(Close(25), Nil);
    PropsReadable(i.props, m);
    LineReadable(Open(25, [OrEmpty(i.cls)]), PropsMarkup(i.props, m));
    ReadXml(InstMarkup(i, Nil), k);
    InstToksOf(i, Nil, Toks(k));
    AllInstances(InstTree(i), Toks(k));
    PropsRead(Nil, i.props);
  }

  // ----- which instances come back unchanged -----

  predicate AreTrimmed(vs: List<Scalar>) {
    match vs
    case Nil => true
    case Cons(v, t) => (v.Str? ==> IsTrimmed(v.s)) && AreTrimmed(t)
  }

  predicate IsExactData(d: PropData) {
    match d
    case Simple(v) => v.Str? ==> IsTrimmed(v.s)
    case Array(_, vs) => vs.Cons? && AreTrimmed(vs)
    case RefTo(p) => p.ns.Some? && p.ns.value != "" && p.ns.value[|p.ns.value| - 1] != '/' && IsExactPath(p)
    case _ => false
  }

  predicate AreExactProps(l: List<Prop>) {
    match l
    case Nil => true
    case Cons(p, t) => IsExactData(p.data) && AreExactProps(t)
  }

  /** Exactly the instances with a class name, without null properties and empty arrays, whose strings have no blanks
      at their ends and whose references are exact and have a name space that is not empty and ends in no slash. */
  predicate IsExactInst(i: Inst) { i.cls.Some? && AreExactProps(i.props) }

  lemma {:induction false} ExactTexts(vs: List<Scalar>)
    ensures NormalTexts(vs) == vs <==> AreTrimmed(vs)
  {
    if vs.Cons? {
      if vs.head.Str? { TrimExact(vs.head.s); }
      ExactTexts(vs.tail);
    }
  }

  lemma ExactDatas(d: PropData)
    requires IsPropData(d) && !Skipped(d)
    ensures NormalData(d) == d <==> IsExactData(d)
  {
    match d
    case Simple(v) => if v.Str? { TrimExact(v.s); }
    case Array(_, vs) => ExactTexts(vs);
    case RefTo(p) => ExactPaths(p);
  }

  lemma {:induction false} NormalShorter(l: List<Prop>)
    ensures Size(NormalProps(l)) <= Size(l)
  {
    if l.Cons? { NormalShorter(l.tail); }
  }

  lemma {:induction false} ExactProps(l: List<Prop>)
    requires ArePropsData(l)
    ensures NormalProps(l) == l <==> AreExactProps(l)
  {
    if l.Cons? {
      ExactProps(l.tail);
      NormalShorter(l.tail);
      if !Skipped(l.head.data) { ExactDatas(l.head.data); }
    }
  }

  lemma ExactInstances(i: Inst)
    requires IsInst(i)
    ensures NormalInst(i) == i <==> IsExactInst(i)
  {
    ExactProps(i.props);
  }
}
