/** What properties written by others are read as: any spelling of a type or truth value, any number, missing values, and
    repeated names. */
module PropertyReading {
  import opened CText
  import opened Lexing
  import opened TokenCodes
  import opened Syntax
  import opened CimData
  import opened PathXml
  import opened InstanceXml
  import opened Escaping
  import opened KeyReading

  // ----- types -----

  /** The names of the types, as DSP0201 has them. */
  lemma NamesOfTypes()
    ensures TypeName(BoolType) == "boolean" && TypeName(StringType) == "string"
    ensures TypeName(UintType(8)) == "uint8" && TypeName(UintType(16)) == "uint16" && TypeName(UintType(32)) == "uint32" && TypeName(UintType(64)) == "uint64"
    ensures TypeName(SintType(8)) == "sint8" && TypeName(SintType(16)) == "sint16" && TypeName(SintType(32)) == "sint32" && TypeName(SintType(64)) == "sint64"
  {
  }

  /** Names are looked up without regard to case. */
  lemma TypeSpelling(a: string, b: string)
    requires SameNoCase(a, b)
    ensures TypeNamed(Some(a)) == TypeNamed(Some(b))
  {
    hide SameNoCase;
    SameBoth(a, b, "boolean");
    SameBoth(a, b, "char16");
    SameBoth(a, b, "real32");
    SameBoth(a, b, "real64");
    SameBoth(a, b, "uint8");
    SameBoth(a, b, "uint16");
    SameBoth(a, b, "uint32");
    SameBoth(a, b, "uint64");
    SameBoth(a, b, "sint8");
    SameBoth(a, b, "sint16");
    SameBoth(a, b, "sint32");
    SameBoth(a, b, "sint64");
    SameBoth(a, b, "string");
    SameBoth(a, b, "datetime");
    SameBoth(a, b, "reference");
    SameBoth(a, b, "instance");
  }

  lemma TypeOfName(name: string, t: Type)
    requires IsType(t) && SameNoCase(name, TypeName(t))
    ensures TypeNamed(Some(name)) == t
  {
    hide TypeNamed, TypeName, SameNoCase;
    TypeSpelling(name, TypeName(t));
    TypeNames(t);
  }

  // ----- one value -----

  /** A PROPERTY with a name, some spelling of a type, and characters. */
  predicate IsSimple(p: Property, name: string, t: Type, c: string) {
    && IsProperty(p) && p.start.code == XTOK_PROPERTY && Attr(p.start, 0) == Some(name)
    && IsType(t) && Attr(p.start, 1).Some? && SameNoCase(Attr(p.start, 1).value, TypeName(t))
    && p.data.One? && p.data.value.data.Chars? && p.data.value.start.content == Some(c)
  }

  lemma SimpleRead(p: Property, name: string, t: Type, c: string)
    requires IsSimple(p, name, t, c)
    ensures ReadProp(p) == if ReadData(t, c).None? then None else Some(Prop(name, Simple(ReadData(t, c).value)))
  {
    hide ReadData, TypeNamed, TypeName, SameNoCase;
    TypeOfName(Attr(p.start, 1).value, t);
  }

  /** A truth value is false exactly where "false" is written, in any spelling. */
  lemma BooleanProperty(p: Property, name: string, c: string)
    requires IsSimple(p, name, BoolType, c)
    ensures ReadProp(p) == Some(Prop(name, Simple(Bool(!SameNoCase(c, "false")))))
  {
    hide SameNoCase, ReadProp;
    SimpleRead(p, name, BoolType, c);
  }

  /** Spelling does not matter to a truth value. */
  lemma BooleanSpelling(p: Property, q: Property, name: string, c: string, d: string)
    requires IsSimple(p, name, BoolType, c) && IsSimple(q, name, BoolType, d) && SameNoCase(c, d)
    ensures ReadProp(p) == ReadProp(q)
  {
    hide ReadProp;
    BooleanProperty(p, name, c);
    BooleanProperty(q, name, d);
    SameBoth(c, d, "false");
  }

  /** A string is what is written, with its entities resolved. */
  lemma StringProperty(p: Property, name: string, c: string)
    requires IsSimple(p, name, StringType, c)
    ensures ReadProp(p) == Some(Prop(name, Simple(Str(Unescape(c)))))
  {
    hide ReadProp, Unescape;
    SimpleRead(p, name, StringType, c);
  }

  /** An unsigned number is held to 64 bits, a minus wraps around, and the type keeps the low bits. */
  lemma UnsignedProperty(p: Property, name: string, bits: nat, sign: string, digits: string, rest: string)
    requires IsSimple(p, name, UintType(bits), sign + digits + rest) && IsNumber(sign, digits, rest)
    ensures var n, all, size := NumberOf(digits), 0x1_0000_0000_0000_0000,
                                if bits == 8 then 0x100 else if bits == 16 then 0x1_0000 else if bits == 32 then 0x1_0000_0000 else 0x1_0000_0000_0000_0000;
            ReadProp(p) == Some(Prop(name, Simple(Uint(bits, (if n >= all then all - 1 else if sign == "-" then (all - n) % all else n) % size))))
  {
    hide ReadProp, NumberOf, ReadUint;
    SimpleRead(p, name, UintType(bits), sign + digits + rest);
    UnsignedRead(bits, sign, digits, rest);
  }

  /** A signed number is held to the range of 64 bits, and the type keeps the low bits. */
  lemma SignedProperty(p: Property, name: string, bits: nat, sign: string, digits: string, rest: string)
    requires IsSimple(p, name, SintType(bits), sign + digits + rest) && IsNumber(sign, digits, rest)
    ensures var n, half, size := NumberOf(digits), 0x8000_0000_0000_0000,
                                 if bits == 8 then 0x100 else if bits == 16 then 0x1_0000 else if bits == 32 then 0x1_0000_0000 else 0x1_0000_0000_0000_0000;
            var m: int := if sign == "-" then (if n > half then -half else 0 - n) else if n >= half then half - 1 else n;
            ReadProp(p) == Some(Prop(name, Simple(Sint(bits, if m % size < size / 2 then m % size else m % size - size))))
  {
    hide ReadProp, NumberOf, ReadSint;
    SimpleRead(p, name, SintType(bits), sign + digits + rest);
    SignedRead(bits, sign, digits, rest);
  }

  /** No number is read where no digit is written. */
  lemma NumberMissing(p: Property, name: string, t: Type, sign: string, rest: string)
    requires IsSimple(p, name, t, sign + rest) && (t.UintType? || t.SintType?) && IsNoNumber(sign, rest)
    ensures ReadProp(p) == None
  {
    hide ReadProp, ReadUint, ReadSint;
    SimpleRead(p, name, t, sign + rest);
    NothingRead(t.bits, sign, rest);
  }

  /** A property without a VALUE, with an empty one, or of a type that is missing or unknown is null. */
  lemma NullProperty(p: Property, name: string)
    requires IsProperty(p) && p.start.code == XTOK_PROPERTY && Attr(p.start, 0) == Some(name)
    requires p.data.NoData? || (p.data.One? && p.data.value.data.Chars? && (p.data.value.start.content.None? || TypeNamed(Attr(p.start, 1)) == NullType))
    ensures ReadProp(p) == Some(Prop(name, Null))
  {
  }

  /** An embedded instance is read like any other, whatever the type says. */
  lemma EmbeddedProperty(p: Property, name: string)
    requires IsProperty(p) && p.start.code == XTOK_PROPERTY && Attr(p.start, 0) == Some(name) && p.data.One? && p.data.value.data.Embedded?
    ensures IsInstance(p.data.value.data.inst)
    ensures var i := ReadInst(p.data.value.data.inst); ReadProp(p) == if i.None? then None else Some(Prop(name, Embed(i.value)))
  {
    assert IsValue(p.data.value) && IsValueData(p.data.value.data);
  }

  lemma ReferenceProperty(p: Property, name: string)
    requires IsProperty(p) && p.start.code == XTOK_PROPERTYREFERENCE && Attr(p.start, 0) == Some(name) && p.data.Reference?
    ensures IsValueRef(p.data.ref)
    ensures ReadProp(p) == if RefOf(p.data.ref).None? then None else Some(Prop(name, RefTo(RefOf(p.data.ref).value)))
  {
  }

  // ----- arrays -----

  function ValueAt(l: List<Value>, i: nat): Option<Value> {
    match l
    case Nil => None
    case Cons(v, t) => if i == 0 then Some(v) else ValueAt(t, i - 1)
  }

  function ScalarAt(l: List<Scalar>, i: nat): Option<Scalar> {
    match l
    case Nil => None
    case Cons(v, t) => if i == 0 then Some(v) else ScalarAt(t, i - 1)
  }

  lemma {:induction false} ValuesReadAt(t: Type, l: List<Value>, i: nat)
    requires ReadValues(t, l).Some?
    ensures var r := ReadValues(t, l).value;
            Size(r) == Size(l) && (ScalarAt(r, i).Some? <==> i < Size(l))
            && (i < Size(l) ==> ValueAt(l, i).Some? && ValueAt(l, i).value.data.Chars? && ValueAt(l, i).value.start.content.Some?
                                && ReadData(t, ValueAt(l, i).value.start.content.value) == ScalarAt(r, i))
  {
    hide ReadData;
    if l.Cons? { ValuesReadAt(t, l.tail, if i > 0 then i - 1 else 0); }
  }

  lemma {:induction false} ValueIndex(l: List<Value>, i: nat)
    ensures ValueAt(l, i).Some? <==> i < Size(l)
  {
    if l.Cons? && i > 0 { ValueIndex(l.tail, i - 1); }
  }

  /** An array has as many elements as VALUEs, and each is what a property of the element's type would be. */
  lemma ArrayProperty(p: Property, name: string, t: Type, i: nat, q: Property, c: string)
    requires IsProperty(p) && p.start.code == XTOK_PROPERTYARRAY && Attr(p.start, 0) == Some(name) && p.data.Many? && p.data.items.values.Cons?
    requires IsType(t) && Attr(p.start, 1).Some? && SameNoCase(Attr(p.start, 1).value, TypeName(t)) && ReadProp(p).Some?
    requires IsSimple(q, name, t, c) && ValueAt(p.data.items.values, i).Some? && ValueAt(p.data.items.values, i).value.start.content == Some(c)
    ensures var r := ReadProp(p).value;
            r.name == name && r.data.Array? && r.data.typ == t && Size(r.data.values) == Size(p.data.items.values)
            && ScalarAt(r.data.values, i).Some? && ReadProp(q) == Some(Prop(name, Simple(ScalarAt(r.data.values, i).value)))
  {
    hide ReadData, TypeNamed, TypeName, SameNoCase;
    TypeOfName(Attr(p.start, 1).value, t);
    ValuesReadAt(t, p.data.items.values, i);
    ValueIndex(p.data.items.values, i);
    SimpleRead(q, name, t, c);
  }

  /** A PROPERTY.ARRAY without an array, or with an empty one, is null. */
  lemma NullArray(p: Property, name: string)
    requires IsProperty(p) && p.start.code == XTOK_PROPERTYARRAY && Attr(p.start, 0) == Some(name)
    requires p.data.NoData? || (p.data.Many? && p.data.items.values.Nil?)
    ensures ReadProp(p) == Some(Prop(name, Null))
  {
  }

  // ----- repeated names -----

  function DataNamed(l: List<Prop>, name: string): Option<PropData> {
    match l
    case Nil => None
    case Cons(p, t) => if SameNoCase(p.name, name) then Some(p.data) else DataNamed(t, name)
  }

  /** What a further property of the same name makes of one: a null one stays null, another one gives way. */
  function Merged(d: Option<PropData>, e: PropData): PropData { if d == Some(Null) then Null else e }

  lemma {:induction false} DataSet(l: List<Prop>, p: Prop, name: string)
    ensures DataNamed(SetProp(l, p), name) == if SameNoCase(p.name, name) then Some(Merged(DataNamed(l, name), p.data)) else DataNamed(l, name)
  {
    if l.Cons? {
      DataSet(l.tail, p, name);
      if SameNoCase(l.head.name, p.name) { SameBoth(l.head.name, p.name, name); }
    }
  }

  /** Some property of this name is null. */
  predicate NullRead(l: List<Property>, name: string)
    requires AreProperties(l)
  {
    l.Cons? && (NullRead(l.tail, name)
                || (ReadProp(l.head).Some? && SameNoCase(ReadProp(l.head).value.name, name) && ReadProp(l.head).value.data.Null?))
  }

  /** The last property of this name. */
  function LastRead(l: List<Property>, name: string): Option<PropData>
    requires AreProperties(l)
  {
    match l
    case Nil => None
    case Cons(p, t) =>
      var x := ReadProp(p);
      if LastRead(t, name).Some? then LastRead(t, name)
      else if x.Some? && SameNoCase(x.value.name, name) then Some(x.value.data) else None
  }

  lemma {:induction false} PropsNamed(acc: List<Prop>, l: List<Property>, name: string)
    requires AreProperties(l) && ReadProps(acc, l).Some?
    ensures DataNamed(ReadProps(acc, l).value, name)
         == if LastRead(l, name).None? then DataNamed(acc, name)
            else if NullRead(l, name) || DataNamed(acc, name) == Some(Null) then Some(Null) else LastRead(l, name)
    ensures NullRead(l, name) ==> LastRead(l, name).Some?
    decreases l
  {
    hide ReadProp, SameNoCase;
    if l.Cons? {
      var x := ReadProp(l.head).value;
      DataSet(acc, x, name);
      PropsNamed(SetProp(acc, x), l.tail, name);
    }
  }

  /** An instance has under each name, in any spelling, the last property of that name, or null if one of them is null; its class
      is the one written. */
  lemma LastPropertyCounts(i: Instance, name: string)
    requires IsInstance(i) && ReadInst(i).Some?
    ensures var r := ReadInst(i).value;
            r.cls == Attr(i.start, 0) && DataNamed(r.props, name) == if NullRead(i.props, name) then Some(Null) else LastRead(i.props, name)
  {
    PropsNamed(Nil, i.props, name);
  }
}
