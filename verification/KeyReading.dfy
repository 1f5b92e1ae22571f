/** What keys and references written by others are read as: any spelling of a type, any number, repeated names, and the three
    forms of a reference. */
module KeyReading {
  import opened CText
  import opened Lexing
  import opened TokenCodes
  import opened Syntax
  import opened CimData
  import opened PathXml

  lemma SameBoth(a: string, b: string, c: string)
    requires SameNoCase(a, b)
    ensures SameNoCase(a, c) == SameNoCase(b, c)
  {
    if SameNoCase(a, c) { assert forall i :: 0 <= i < |a| ==> Lower(b[i]) == Lower(a[i]) == Lower(c[i]); }
    if SameNoCase(b, c) { assert forall i :: 0 <= i < |a| ==> Lower(a[i]) == Lower(b[i]) == Lower(c[i]); }
  }

  // ----- the text of a number -----

  /** A sign, digits, and something that goes on with no digit. */
  predicate IsNumber(sign: string, digits: string, rest: string) {
    && (sign == "" || sign == "+" || sign == "-")
    && digits != "" && (forall i :: 0 <= i < |digits| ==> IsDigit(digits[i])) && (rest != "" ==> !IsDigit(rest[0]))
  }

  lemma NumberScanned(sign: string, digits: string, rest: string)
    requires IsNumber(sign, digits, rest)
    ensures var s := sign + digits + rest;
            ScanNumber(s, |sign|) == Some(NumberOf(digits)) && s != "" && (if sign == "" then IsDigit(s[0]) else s[0] == sign[0])
            && HasSign(s) == (sign != "")
  {
    hide NumberOf, Digits;
    var s, k := sign + digits + rest, |sign|;
    DigitsCounted(s, k, k + |digits|);
    assert s[k..k + |digits|] == digits;
    assert s[k] == digits[0];
  }

  /** A sign and then no digit, or no sign and no digit. */
  predicate IsNoNumber(sign: string, rest: string) {
    && (sign == "+" || sign == "-" || (sign == "" && (rest == "" || (rest[0] != '+' && rest[0] != '-'))))
    && (rest == "" || !IsDigit(rest[0]))
  }

  lemma NothingScanned(sign: string, rest: string)
    requires IsNoNumber(sign, rest)
    ensures var s := sign + rest; ScanNumber(s, |sign|) == None && HasSign(s) == (sign != "") && (sign != "" ==> s[0] == sign[0])
  {
  }

  /** A property of an unsigned type: the number is held to 64 bits, a minus wraps around, and the type keeps the low bits. */
  lemma UnsignedRead(bits: nat, sign: string, digits: string, rest: string)
    requires IsWidth(bits) && IsNumber(sign, digits, rest)
    ensures var n, all, size := NumberOf(digits), 0x1_0000_0000_0000_0000,
                                if bits == 8 then 0x100 else if bits == 16 then 0x1_0000 else if bits == 32 then 0x1_0000_0000 else 0x1_0000_0000_0000_0000;
            ReadUint(bits, sign + digits + rest)
            == Some(Uint(bits, (if n >= all then all - 1 else if sign == "-" then (all - n) % all else n) % size))
  {
    hide ScanNumber, NumberOf, HasSign;
    NumberScanned(sign, digits, rest);
  }

  /** A property of a signed type: the number is held to the range of 64 bits, and the type keeps the low bits, of which the
      highest one is the sign. */
  lemma SignedRead(bits: nat, sign: string, digits: string, rest: string)
    requires IsWidth(bits) && IsNumber(sign, digits, rest)
    ensures var n, half, size := NumberOf(digits), 0x8000_0000_0000_0000,
                                 if bits == 8 then 0x100 else if bits == 16 then 0x1_0000 else if bits == 32 then 0x1_0000_0000 else 0x1_0000_0000_0000_0000;
            var m: int := if sign == "-" then (if n > half then -half else 0 - n) else if n >= half then half - 1 else n;
            ReadSint(bits, sign + digits + rest) == Some(Sint(bits, if m % size < size / 2 then m % size else m % size - size))
  {
    hide ScanNumber, NumberOf, HasSign;
    NumberScanned(sign, digits, rest);
  }

  lemma NothingRead(bits: nat, sign: string, rest: string)
    requires IsNoNumber(sign, rest)
    ensures ReadUint(bits, sign + rest) == None && ReadSint(bits, sign + rest) == None && ReadNumeric(sign + rest) == None
  {
    hide ScanNumber;
    NothingScanned(sign, rest);
  }

  // ----- a key binding -----

  /** A binding of a plain value `v` with a name and perhaps a type. */
  predicate IsPlainBinding(b: KeyBinding, name: string, t: Option<string>, v: string) {
    && IsKeyBinding(b) && Attr(b.start, 0) == Some(name) && b.content.KeyValue?
    && Attr(b.content.leaf.start, 0) == t && b.content.leaf.start.content == Some(v)
  }

  /** A numeric key, in any spelling of the type, is an unsigned integer of 64 bits without a sign and a signed one with a
      sign, held to the range of its type. */
  lemma NumericKey(b: KeyBinding, name: string, t: string, sign: string, digits: string, rest: string)
    requires IsPlainBinding(b, name, Some(t), sign + digits + rest) && SameNoCase(t, "numeric") && IsNumber(sign, digits, rest)
    ensures var n := NumberOf(digits);
            KeyOf(b) == Some(Key(name, Plain(
              if sign == "" then Uint(64, if n < 0x1_0000_0000_0000_0000 then n else 0xFFFF_FFFF_FFFF_FFFF)
              else if sign == "+" then Sint(64, if n < 0x8000_0000_0000_0000 then n else 0x7FFF_FFFF_FFFF_FFFF)
              else Sint(64, if n <= 0x8000_0000_0000_0000 then 0 - n else -0x8000_0000_0000_0000))))
  {
    hide ScanNumber, NumberOf, SameNoCase;
    OfType(t, "numeric");
    NumberScanned(sign, digits, rest);
  }

  /** What else the type is not. */
  lemma OfType(t: string, as_: string)
    requires SameNoCase(t, as_) && (as_ == "numeric" || as_ == "boolean" || as_ == "string" || as_ == "ref")
    ensures as_ != "numeric" ==> !SameNoCase(t, "numeric")
    ensures as_ != "boolean" ==> !SameNoCase(t, "boolean")
    ensures as_ != "string" ==> !SameNoCase(t, "string")
    ensures as_ != "ref" ==> !SameNoCase(t, "ref")
    ensures !SameNoCase(t, "true")
  {
    assert as_ == "numeric" ==> Lower(t[0]) == 'n';
    assert as_ == "boolean" ==> Lower(t[0]) == 'b';
  }

  /** No key is read from a numeric one without digits. */
  lemma NoNumericKey(b: KeyBinding, name: string, t: string, sign: string, rest: string)
    requires IsPlainBinding(b, name, Some(t), sign + rest) && SameNoCase(t, "numeric") && IsNoNumber(sign, rest)
    ensures KeyOf(b) == None
  {
    hide ReadNumeric, SameNoCase;
    OfType(t, "numeric");
    NothingRead(64, sign, rest);
  }

  /** A boolean key is false, whatever is written. */
  lemma BooleanKey(b: KeyBinding, name: string, t: string, v: string)
    requires IsPlainBinding(b, name, Some(t), v) && SameNoCase(t, "boolean")
    ensures KeyOf(b) == Some(Key(name, Plain(Bool(false))))
  {
    hide SameNoCase;
    OfType(t, "boolean");
  }

  /** A key without a type, or of a type that is not numeric, boolean or ref, is a string. */
  lemma StringKey(b: KeyBinding, name: string, t: Option<string>, v: string)
    requires IsPlainBinding(b, name, t, v)
    requires t.Some? ==> !SameNoCase(t.value, "numeric") && !SameNoCase(t.value, "boolean") && !SameNoCase(t.value, "ref")
    ensures KeyOf(b) == Some(Key(name, Plain(Str(v))))
  {
  }

  // ----- references -----

  /** A reference is the path of its instance name, in the name space it is written with: that of an instance path, whatever the
      host, that of a local instance path, or the empty one. */
  lemma ReferenceForms(r: ValueRef)
    requires IsValueRef(r)
    ensures IsInstanceName(r.data.name)
    ensures r.data.InstancePath? ==> IsLocalNsPath(r.data.path.local)
    ensures r.data.LocalInstancePath? ==> IsLocalNsPath(r.data.local)
    ensures var p := CreatePath(r.data.name);
            RefOf(r) == if p.None? then None
                        else Some(p.value.(ns := if r.data.InstancePath? then Joined(r.data.path.local.names)
                                                 else if r.data.LocalInstancePath? then Joined(r.data.local.names)
                                                 else Some("")))
  {
    assert IsRefData(r.data);
  }

  lemma ReferenceKey(b: KeyBinding, name: string)
    requires IsKeyBinding(b) && Attr(b.start, 0) == Some(name) && b.content.KeyRef?
    ensures IsValueRef(b.content.ref)
    ensures KeyOf(b) == if RefOf(b.content.ref).None? then None else Some(Key(name, Ref(RefOf(b.content.ref).value)))
  {
  }

  // ----- repeated names -----

  function KeyNamed(keys: List<Key>, name: string): Option<KeyVal> {
    match keys
    case Nil => None
    case Cons(k, t) => if SameNoCase(k.name, name) then Some(k.value) else KeyNamed(t, name)
  }

  /** The value of the first binding of this name. */
  function FirstRead(l: List<KeyBinding>, name: string): Option<KeyVal>
    requires AreKeys(l)
  {
    match l
    case Nil => None
    case Cons(b, t) =>
      var k := KeyOf(b);
      if k.Some? && SameNoCase(k.value.name, name) then Some(k.value.value) else FirstRead(t, name)
  }

  lemma {:induction false} KeyAdded(keys: List<Key>, k: Key, name: string)
    ensures KeyNamed(AddKey(keys, k), name)
         == if KeyNamed(keys, name).Some? then KeyNamed(keys, name) else if SameNoCase(k.name, name) then Some(k.value) else None
  {
    if keys.Cons? {
      KeyAdded(keys.tail, k, name);
      if SameNoCase(keys.head.name, k.name) { SameBoth(keys.head.name, k.name, name); }
    }
  }

  lemma {:induction false} KeysNamed(acc: List<Key>, l: List<KeyBinding>, name: string)
    requires AreKeys(l) && KeysOf(acc, l).Some?
    ensures KeyNamed(KeysOf(acc, l).value, name) == if KeyNamed(acc, name).Some? then KeyNamed(acc, name) else FirstRead(l, name)
    decreases l
  {
    hide KeyOf, SameNoCase;
    if l.Cons? {
      var k := KeyOf(l.head).value;
      KeyAdded(acc, k, name);
      KeysNamed(AddKey(acc, k), l.tail, name);
    }
  }

  /** A path has under each name, in any spelling, the first binding of that name; its class is the one written. */
  lemma FirstBindingCounts(n: InstanceName, name: string)
    requires IsInstanceName(n) && CreatePath(n).Some?
    ensures var p := CreatePath(n).value;
            KeyNamed(p.keys, name) == FirstRead(n.keys, name) && p.cls == Attr(n.start, 0) && p.ns == None
  {
    KeysNamed(Nil, n.keys, name);
  }

  lemma {:induction false} KeysRead(acc: List<Key>, l: List<KeyBinding>)
    requires AreKeys(l)
    ensures KeysOf(acc, l).Some? <==> forall b :: InKeys(b, l) ==> IsKeyBinding(b) && KeyOf(b).Some?
    decreases l
  {
    hide KeyOf;
    if l.Cons? {
      assert InKeys(l.head, l);
      if KeyOf(l.head).Some? {
        KeysRead(AddKey(acc, KeyOf(l.head).value), l.tail);
        assert forall b :: InKeys(b, l) <==> b == l.head || InKeys(b, l.tail);
      }
    }
  }

  predicate InKeys(b: KeyBinding, l: List<KeyBinding>) { l.Cons? && (l.head == b || InKeys(b, l.tail)) }

  /** A path is built exactly if every binding can be read. */
  lemma PathIsBuilt(n: InstanceName)
    requires IsInstanceName(n)
    ensures CreatePath(n).Some? <==> forall b :: InKeys(b, n.keys) ==> IsKeyBinding(b) && KeyOf(b).Some?
  {
    KeysRead(Nil, n.keys);
  }
}
