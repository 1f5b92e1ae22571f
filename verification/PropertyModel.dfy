/** The property list of property.c as a value, and what instance.c and objectpath.c do with it. */
module PropertyModel {
  import opened CText

  /** CMPI_null, CMPI_chars, which is stored as CMPI_string, and the other types. */
  datatype Type = NullType | CharsType | StringType | OtherType(code: int)

  datatype ValueState = GoodValue | NullValue | KeyValue

  /** CMPIData */
  datatype Data<+V> = Data(typ: Type, state: ValueState, value: Option<V>)

  datatype Prop<+V> = Prop(name: string, data: Data<V>)

  /** Character pointers are stored as strings. */
  function AsStored(t: Type): Type { if t.CharsType? then StringType else t }

  /** What __addProperty stores. */
  function Stored<V>(d: Data<V>): Data<V> {
    if d.typ.NullType? || d.state.NullValue? then Data(d.typ, NullValue, None) else d.(typ := AsStored(d.typ))
  }

  /** What __setProperty makes of a property: the state is kept, unless there is no value. */
  function Changed<V>(d: Data<V>, t: Type, v: Option<V>): Data<V> {
    if t.CharsType? then Data(StringType, d.state, v)
    else if t.NullType? || v.None? then d.(typ := t, state := NullValue)
    else Data(t, d.state, v)
  }

  predicate Has<V>(l: List<Prop<V>>, name: string) {
    match l
    case Nil => false
    case Cons(p, t) => SameNoCase(p.name, name) || Has(t, name)
  }

  /** __addProperty */
  function Add<V>(l: List<Prop<V>>, p: Prop<V>): List<Prop<V>> {
    match l
    case Nil => Cons(Prop(p.name, Stored(p.data)), Nil)
    case Cons(h, t) => if SameNoCase(h.name, p.name) then l else Cons(h, Add(t, p))
  }

  /** __setProperty */
  function Set<V>(l: List<Prop<V>>, name: string, t: Type, v: Option<V>): List<Prop<V>> {
    match l
    case Nil => Nil
    case Cons(h, r) => if SameNoCase(h.name, name) then Cons(Prop(h.name, Changed(h.data, t, v)), r) else Cons(h, Set(r, name, t, v))
  }

  /** __getProperty */
  function Get<V>(l: List<Prop<V>>, name: string): Option<Data<V>> {
    match l
    case Nil => None
    case Cons(h, t) => if SameNoCase(h.name, name) then Some(h.data) else Get(t, name)
  }

  /** __getPropertyAt */
  function At<V>(l: List<Prop<V>>, i: nat): Option<Prop<V>> {
    match l
    case Nil => None
    case Cons(h, t) => if i == 0 then Some(h) else At(t, i - 1)
  }

  /** No two names are equal without regard to case. */
  predicate Unique<V>(l: List<Prop<V>>) {
    match l
    case Nil => true
    case Cons(h, t) => !Has(t, h.name) && Unique(t)
  }

  lemma {:induction false} HasSame<V>(l: List<Prop<V>>, a: string, b: string)
    requires SameNoCase(a, b)
    ensures Has(l, a) == Has(l, b)
  {
    if l.Cons? { HasSame(l.tail, a, b); }
  }

  lemma {:induction false} HasAdded<V>(l: List<Prop<V>>, p: Prop<V>, name: string)
    ensures Has(Add(l, p), name) <==> Has(l, name) || SameNoCase(p.name, name)
  {
    if l.Cons? { HasAdded(l.tail, p, name); }
  }

  lemma {:induction false} HasSet<V>(l: List<Prop<V>>, name: string, t: Type, v: Option<V>, other: string)
    ensures Has(Set(l, name, t, v), other) == Has(l, other)
  {
    if l.Cons? { HasSet(l.tail, name, t, v, other); }
  }

  /** Names stay unique whatever is added or set. */
  lemma {:induction false} AddKeepsUnique<V>(l: List<Prop<V>>, p: Prop<V>)
    requires Unique(l)
    ensures Unique(Add(l, p))
  {
    if l.Cons? && !SameNoCase(l.head.name, p.name) {
      AddKeepsUnique(l.tail, p);
      HasAdded(l.tail, p, l.head.name);
    }
  }

  lemma {:induction false} SetKeepsUnique<V>(l: List<Prop<V>>, name: string, t: Type, v: Option<V>)
    requires Unique(l)
    ensures Unique(Set(l, name, t, v))
  {
    if l.Cons? {
      SetKeepsUnique(l.tail, name, t, v);
      HasSet(l.tail, name, t, v, l.head.name);
    }
  }

  /** A property can be found exactly after its name was added, with what was added first. */
  lemma {:induction false} GetAdded<V>(l: List<Prop<V>>, p: Prop<V>, name: string)
    ensures Get(Add(l, p), name) == if Has(l, name) || !SameNoCase(p.name, name) then Get(l, name) else Some(Stored(p.data))
  {
    if l.Cons? { GetAdded(l.tail, p, name); }
  }

  lemma {:induction false} GetSet<V>(l: List<Prop<V>>, name: string, t: Type, v: Option<V>, other: string)
    ensures Has(l, name) ==> Get(l, name).Some?
    ensures Get(Set(l, name, t, v), other) == if SameNoCase(name, other) && Has(l, name) then Some(Changed(Get(l, name).value, t, v)) else Get(l, other)
  {
    if l.Cons? { GetSet(l.tail, name, t, v, other); }
  }

  // ----- path to instance to path -----

  function Reverse<X>(l: List<X>): List<X> {
    match l
    case Nil => Nil
    case Cons(h, t) => CText.Append(Reverse(t), Cons(h, Nil))
  }

  /** native_new_CMPIInstance: the keys are added as properties, the last one first. */
  function FromKeys<V>(keys: List<Prop<V>>): List<Prop<V>> {
    match keys
    case Nil => Nil
    case Cons(k, t) => Add(FromKeys(t), k)
  }

  /** __ift_getObjectPath: the properties that are keys are added as keys, the last one first. */
  function ToKeys<V>(props: List<Prop<V>>): List<Prop<V>> {
    match props
    case Nil => Nil
    case Cons(p, t) => if p.data.state.KeyValue? then Add(ToKeys(t), p) else ToKeys(t)
  }

  /** Keys as CMAddKey leaves them, with values. */
  ghost predicate AreKeys<V>(l: List<Prop<V>>) {
    match l
    case Nil => true
    case Cons(k, t) => k.data.state.KeyValue? && Stored(k.data) == k.data && AreKeys(t)
  }

  lemma {:induction false} AddNew<V>(l: List<Prop<V>>, p: Prop<V>)
    requires !Has(l, p.name)
    ensures Add(l, p) == CText.Append(l, Cons(Prop(p.name, Stored(p.data)), Nil))
  {
    if l.Cons? { AddNew(l.tail, p); }
  }

  lemma {:induction false} HasAppend<V>(a: List<Prop<V>>, b: List<Prop<V>>, name: string)
    ensures Has(CText.Append(a, b), name) <==> Has(a, name) || Has(b, name)
  {
    if a.Cons? { HasAppend(a.tail, b, name); }
  }

  lemma {:induction false} HasReverse<V>(l: List<Prop<V>>, name: string)
    ensures Has(Reverse(l), name) == Has(l, name)
  {
    if l.Cons? {
      HasReverse(l.tail, name);
      HasAppend(Reverse(l.tail), Cons(l.head, Nil), name);
    }
  }

  lemma {:induction false} FromKeysReversed<V>(keys: List<Prop<V>>)
    requires Unique(keys) && AreKeys(keys)
    ensures FromKeys(keys) == Reverse(keys)
  {
    if keys.Cons? {
      FromKeysReversed(keys.tail);
      HasReverse(keys.tail, keys.head.name);
      AddNew(Reverse(keys.tail), keys.head);
    }
  }

  /** The properties that are keys. */
  function Keys<V>(l: List<Prop<V>>): List<Prop<V>> {
    match l
    case Nil => Nil
    case Cons(p, t) => if p.data.state.KeyValue? then Cons(p, Keys(t)) else Keys(t)
  }

  lemma {:induction false} HasKeys<V>(l: List<Prop<V>>, name: string)
    ensures Has(Keys(l), name) ==> Has(l, name)
  {
    if l.Cons? { HasKeys(l.tail, name); }
  }

  /** Every key property has a stored form already. */
  ghost predicate KeysStored<V>(l: List<Prop<V>>) {
    match l
    case Nil => true
    case Cons(p, t) => (p.data.state.KeyValue? ==> Stored(p.data) == p.data) && KeysStored(t)
  }

  lemma {:induction false} ToKeysReversed<V>(l: List<Prop<V>>)
    requires Unique(l) && KeysStored(l)
    ensures ToKeys(l) == Reverse(Keys(l))
  {
    if l.Cons? {
      ToKeysReversed(l.tail);
      if l.head.data.state.KeyValue? {
        HasKeys(l.tail, l.head.name);
        HasReverse(Keys(l.tail), l.head.name);
        AddNew(Reverse(Keys(l.tail)), l.head);
      }
    }
  }

  lemma {:induction false} ReverseAppend<X>(a: List<X>, b: List<X>)
    ensures Reverse(CText.Append(a, b)) == CText.Append(Reverse(b), Reverse(a))
  {
    if a.Nil? {
      AppendNil(Reverse(b));
    } else {
      ReverseAppend(a.tail, b);
      AppendAssociates(Reverse(b), Reverse(a.tail), Cons(a.head, Nil));
    }
  }

  lemma {:induction false} ReverseTwice<X>(l: List<X>)
    ensures Reverse(Reverse(l)) == l
  {
    if l.Cons? {
      ReverseTwice(l.tail);
      ReverseAppend(Reverse(l.tail), Cons(l.head, Nil));
    }
  }

  lemma {:induction false} UniqueReverse<V>(l: List<Prop<V>>)
    requires Unique(l)
    ensures Unique(Reverse(l))
  {
    if l.Cons? {
      UniqueReverse(l.tail);
      HasReverse(l.tail, l.head.name);
      UniqueSnoc(Reverse(l.tail), l.head);
    }
  }

  lemma {:induction false} UniqueSnoc<V>(l: List<Prop<V>>, p: Prop<V>)
    requires Unique(l) && !Has(l, p.name)
    ensures Unique(CText.Append(l, Cons(p, Nil)))
  {
    if l.Cons? {
      UniqueSnoc(l.tail, p);
      HasAppend(l.tail, Cons(p, Nil), l.head.name);
    }
  }

  lemma {:induction false} AllKeys<V>(l: List<Prop<V>>)
    requires AreKeys(l)
    ensures Keys(l) == l && KeysStored(l)
  {
    if l.Cons? { AllKeys(l.tail); }
  }

  lemma {:induction false} AreKeysReverse<V>(l: List<Prop<V>>)
    requires AreKeys(l)
    ensures AreKeys(Reverse(l))
  {
    if l.Cons? {
      AreKeysReverse(l.tail);
      AreKeysSnoc(Reverse(l.tail), l.head);
    }
  }

  lemma {:induction false} AreKeysSnoc<V>(l: List<Prop<V>>, p: Prop<V>)
    requires AreKeys(l) && AreKeys(Cons(p, Nil))
    ensures AreKeys(CText.Append(l, Cons(p, Nil)))
  {
    if l.Cons? { AreKeysSnoc(l.tail, p); }
  }

  /** The two reversals cancel: an instance made from a path gives back its keys, in order. */
  lemma PathInstancePath<V>(keys: List<Prop<V>>)
    requires Unique(keys) && AreKeys(keys)
    ensures ToKeys(FromKeys(keys)) == keys
  {
    FromKeysReversed(keys);
    UniqueReverse(keys);
    AreKeysReverse(keys);
    AllKeys(Reverse(keys));
    ToKeysReversed(Reverse(keys));
    ReverseTwice(keys);
  }

  // ----- setProperty -----

  datatype Setting<+V> = Setting(name: string, typ: Type, value: Option<V>)

  /** A setting that does not make a property null. */
  predicate HasValue<V>(s: Setting<V>) { s.typ.CharsType? || (!s.typ.NullType? && s.value.Some?) }

  /** __ift_setProperty on an instance without a filter. */
  function SetOrAdd<V>(l: List<Prop<V>>, s: Setting<V>): List<Prop<V>> {
    if Has(l, s.name) then Set(l, s.name, s.typ, s.value)
    else Add(l, Prop(s.name, Data(s.typ, if s.value.None? then NullValue else GoodValue, s.value)))
  }

  function SetAll<V>(l: List<Prop<V>>, ss: List<Setting<V>>): List<Prop<V>>
    decreases ss
  {
    match ss
    case Nil => l
    case Cons(s, t) => SetAll(SetOrAdd(l, s), t)
  }

  /** Only what is there is set. */
  function SetThere<V>(l: List<Prop<V>>, ss: List<Setting<V>>): List<Prop<V>>
    decreases ss
  {
    match ss
    case Nil => l
    case Cons(s, t) => SetThere(Set(l, s.name, s.typ, s.value), t)
  }

  predicate AllHaveValues<V>(ss: List<Setting<V>>) { ss.Cons? ==> HasValue(ss.head) && AllHaveValues(ss.tail) }

  lemma {:induction false} SetNothing<V>(l: List<Prop<V>>, name: string, t: Type, v: Option<V>)
    requires !Has(l, name)
    ensures Set(l, name, t, v) == l
  {
    if l.Cons? { SetNothing(l.tail, name, t, v); }
  }

  lemma {:induction false} KeysSet<V>(l: List<Prop<V>>, s: Setting<V>)
    requires Unique(l) && KeysStored(l) && HasValue(s)
    ensures Keys(Set(l, s.name, s.typ, s.value)) == Set(Keys(l), s.name, s.typ, s.value) && KeysStored(Set(l, s.name, s.typ, s.value))
  {
    if l.Cons? {
      if SameNoCase(l.head.name, s.name) {
        HasSame(l.tail, l.head.name, s.name);
        HasKeys(l.tail, s.name);
        SetNothing(Keys(l.tail), s.name, s.typ, s.value);
      } else {
        KeysSet(l.tail, s);
      }
    }
  }

  lemma {:induction false} KeysAppend<V>(l: List<Prop<V>>, p: Prop<V>)
    requires !p.data.state.KeyValue? && KeysStored(l)
    ensures Keys(CText.Append(l, Cons(p, Nil))) == Keys(l) && KeysStored(CText.Append(l, Cons(p, Nil)))
  {
    if l.Cons? { KeysAppend(l.tail, p); }
  }

  lemma KeysSetOrAdd<V>(l: List<Prop<V>>, s: Setting<V>)
    requires Unique(l) && KeysStored(l) && HasValue(s)
    ensures var r := SetOrAdd(l, s); Unique(r) && KeysStored(r) && Keys(r) == Set(Keys(l), s.name, s.typ, s.value)
  {
    if Has(l, s.name) {
      SetKeepsUnique(l, s.name, s.typ, s.value);
      KeysSet(l, s);
    } else {
      var p := Prop(s.name, Data(s.typ, if s.value.None? then NullValue else GoodValue, s.value));
      AddKeepsUnique(l, p);
      AddNew(l, p);
      KeysAppend(l, Prop(s.name, Stored(p.data)));
      if Has(Keys(l), s.name) { HasKeys(l, s.name); }
      SetNothing(Keys(l), s.name, s.typ, s.value);
    }
  }

  lemma {:induction false} KeysSetAll<V>(l: List<Prop<V>>, ss: List<Setting<V>>)
    requires Unique(l) && KeysStored(l) && AllHaveValues(ss)
    ensures var r := SetAll(l, ss); Unique(r) && KeysStored(r) && Keys(r) == SetThere(Keys(l), ss)
    decreases ss
  {
    if ss.Cons? {
      KeysSetOrAdd(l, ss.head);
      KeysSetAll(SetOrAdd(l, ss.head), ss.tail);
    }
  }

  lemma {:induction false} SetReverse<V>(l: List<Prop<V>>, name: string, t: Type, v: Option<V>)
    requires Unique(l)
    ensures Reverse(Set(l, name, t, v)) == Set(Reverse(l), name, t, v)
  {
    if l.Cons? {
      HasReverse(l.tail, l.head.name);
      SetSnoc(Reverse(l.tail), l.head, name, t, v);
      if SameNoCase(l.head.name, name) {
        HasSame(Reverse(l.tail), l.head.name, name);
      } else {
        SetReverse(l.tail, name, t, v);
      }
    }
  }

  lemma {:induction false} SetSnoc<V>(l: List<Prop<V>>, p: Prop<V>, name: string, t: Type, v: Option<V>)
    ensures Set(CText.Append(l, Cons(p, Nil)), name, t, v)
         == if SameNoCase(p.name, name) && !Has(l, name) then CText.Append(l, Cons(Prop(p.name, Changed(p.data, t, v)), Nil))
            else CText.Append(Set(l, name, t, v), Cons(p, Nil))
  {
    if l.Cons? { SetSnoc(l.tail, p, name, t, v); }
  }

  lemma {:induction false} SetThereReverse<V>(l: List<Prop<V>>, ss: List<Setting<V>>)
    requires Unique(l)
    ensures Reverse(SetThere(l, ss)) == SetThere(Reverse(l), ss)
    decreases ss
  {
    if ss.Cons? {
      SetReverse(l, ss.head.name, ss.head.typ, ss.head.value);
      SetKeepsUnique(l, ss.head.name, ss.head.typ, ss.head.value);
      SetThereReverse(Set(l, ss.head.name, ss.head.typ, ss.head.value), ss.tail);
    }
  }

  /** After any settings with values, the instance's path has the same keys in the same order, each with the last value
      set for it. */
  lemma PathAfterSettings<V>(keys: List<Prop<V>>, ss: List<Setting<V>>)
    requires Unique(keys) && AreKeys(keys) && AllHaveValues(ss)
    ensures ToKeys(SetAll(FromKeys(keys), ss)) == SetThere(keys, ss)
  {
    var r := Reverse(keys);
    FromKeysReversed(keys);
    UniqueReverse(keys);
    AreKeysReverse(keys);
    AllKeys(r);
    KeysSetAll(r, ss);
    ToKeysReversed(SetAll(r, ss));
    SetThereReverse(r, ss);
    ReverseTwice(keys);
  }

  /** The settings change neither the names of the keys nor their order, and the last setting of each key counts. */
  function Names<V>(l: List<Prop<V>>): List<string> {
    match l
    case Nil => Nil
    case Cons(p, t) => Cons(p.name, Names(t))
  }

  lemma {:induction false} SetKeepsNames<V>(l: List<Prop<V>>, name: string, t: Type, v: Option<V>)
    ensures Names(Set(l, name, t, v)) == Names(l)
  {
    if l.Cons? { SetKeepsNames(l.tail, name, t, v); }
  }

  function LastFor<V>(ss: List<Setting<V>>, name: string): Option<Setting<V>> {
    match ss
    case Nil => None
    case Cons(s, t) =>
      var r := LastFor(t, name);
      if r.Some? then r else if SameNoCase(s.name, name) then Some(s) else None
  }

  lemma {:induction false} LastSettingCounts<V>(l: List<Prop<V>>, ss: List<Setting<V>>, name: string)
    requires AllHaveValues(ss) && Has(l, name)
    ensures var r := SetThere(l, ss);
            Names(r) == Names(l) && Get(l, name).Some?
            && Get(r, name) == (match LastFor(ss, name)
                             case None => Get(l, name)
                             case Some(s) => Some(Data(if s.typ.CharsType? then StringType else s.typ, Get(l, name).value.state, s.value)))
    decreases ss
  {
    GetSet(l, name, NullType, None, name);
    if ss.Cons? {
      var s := ss.head;
      SetKeepsNames(l, s.name, s.typ, s.value);
      GetSet(l, s.name, s.typ, s.value, name);
      HasSet(l, s.name, s.typ, s.value, name);
      if SameNoCase(s.name, name) {
        HasSame(l, s.name, name);
        GetSame(l, s.name, name);
      }
      LastSettingCounts(Set(l, s.name, s.typ, s.value), ss.tail, name);
    }
  }

  lemma {:induction false} GetSame<V>(l: List<Prop<V>>, a: string, b: string)
    requires SameNoCase(a, b)
    ensures Get(l, a) == Get(l, b)
  {
    if l.Cons? { GetSame(l.tail, a, b); }
  }

  function FirstFor<V>(ss: List<Setting<V>>, name: string): Option<Setting<V>> {
    match ss
    case Nil => None
    case Cons(s, t) => if SameNoCase(s.name, name) then Some(s) else FirstFor(t, name)
  }

  /** Some setting makes this property null. */
  predicate MadeNull<V>(ss: List<Setting<V>>, name: string) {
    ss.Cons? && ((SameNoCase(ss.head.name, name) && !HasValue(ss.head)) || MadeNull(ss.tail, name))
  }

  /** A property is a key of the instance's path. */
  predicate IsKey<V>(l: List<Prop<V>>, name: string) { Get(l, name).Some? && Get(l, name).value.state.KeyValue? }

  /** What one setting makes of the property of any name. */
  lemma OneSetting<V>(l: List<Prop<V>>, s: Setting<V>, name: string)
    ensures var old_, new_ := Get(l, name), Get(SetOrAdd(l, s), name);
            if !SameNoCase(s.name, name) then new_ == old_
            else if s.typ.NullType? || (s.value.None? && (!s.typ.CharsType? || old_.None?)) then
              new_.Some? && new_.value.typ == s.typ && new_.value.state == NullValue
            else
              new_ == Some(Data(if s.typ.CharsType? then StringType else s.typ, if old_.Some? then old_.value.state else GoodValue, s.value))
  {
    HasGet(l, s.name);
    HasGet(l, name);
    if SameNoCase(s.name, name) { HasSame(l, s.name, name); }
    if Has(l, s.name) {
      GetSet(l, s.name, s.typ, s.value, name);
      if SameNoCase(s.name, name) { GetSame(l, s.name, name); }
    } else {
      GetAdded(l, Prop(s.name, Data(s.typ, if s.value.None? then NullValue else GoodValue, s.value)), name);
    }
  }

  /** The state of the property of any name after any settings: null if one of them was null, or made it without a
      value; otherwise as it was, or good if it is new. */
  lemma {:induction false} StateAfterSettings<V>(l: List<Prop<V>>, ss: List<Setting<V>>, name: string)
    requires FirstFor(ss, name).Some?
    ensures var old_, new_ := Get(l, name), Get(SetAll(l, ss), name);
            new_.Some?
            && new_.value.state == if MadeNull(ss, name) || (old_.None? && FirstFor(ss, name).value.value.None?) then NullValue
                                   else if old_.Some? then old_.value.state else GoodValue
    decreases ss
  {
    var s := ss.head;
    OneSetting(l, s, name);
    if FirstFor(ss.tail, name).Some? {
      StateAfterSettings(SetOrAdd(l, s), ss.tail, name);
    } else {
      Unset(SetOrAdd(l, s), ss.tail, name);
    }
  }

  lemma {:induction false} Unset<V>(l: List<Prop<V>>, ss: List<Setting<V>>, name: string)
    requires FirstFor(ss, name).None?
    ensures Get(SetAll(l, ss), name) == Get(l, name) && LastFor(ss, name).None? && !MadeNull(ss, name)
    decreases ss
  {
    if ss.Cons? {
      OneSetting(l, ss.head, name);
      Unset(SetOrAdd(l, ss.head), ss.tail, name);
    }
  }

  /** The type and value of the property of any name, key or not, are those of the last setting for it; character
      pointers become strings. A null setting leaves only its type. */
  lemma {:induction false} ValueAfterSettings<V>(l: List<Prop<V>>, ss: List<Setting<V>>, name: string)
    requires LastFor(ss, name).Some?
    ensures var s, new_ := LastFor(ss, name).value, Get(SetAll(l, ss), name);
            new_.Some?
            && (s.value.Some? && !s.typ.NullType? ==> new_.value.typ == (if s.typ.CharsType? then StringType else s.typ) && new_.value.value == s.value)
            && (s.typ.CharsType? && s.value.None? && (Get(l, name).Some? || (FirstFor(ss, name).Some? && FirstFor(ss, name).value.value.Some?)) ==> new_.value.typ == StringType && new_.value.value == None)
            && (!s.typ.CharsType? && (s.value.None? || s.typ.NullType?) ==> new_.value.typ == s.typ && new_.value.state == NullValue)
    decreases ss
  {
    var s := ss.head;
    OneSetting(l, s, name);
    if LastFor(ss.tail, name).Some? {
      ValueAfterSettings(SetOrAdd(l, s), ss.tail, name);
    } else {
      NoFirst(ss.tail, name);
      Unset(SetOrAdd(l, s), ss.tail, name);
    }
  }

  lemma {:induction false} NoFirst<V>(ss: List<Setting<V>>, name: string)
    requires LastFor(ss, name).None?
    ensures FirstFor(ss, name).None?
  {
    if ss.Cons? { NoFirst(ss.tail, name); }
  }

  /** With values throughout, the last setting of any name gives its type and value, and a new property is good. */
  lemma LastSetting<V>(l: List<Prop<V>>, ss: List<Setting<V>>, name: string)
    requires AllHaveValues(ss) && LastFor(ss, name).Some?
    requires Get(l, name).Some? || (FirstFor(ss, name).Some? && FirstFor(ss, name).value.value.Some?)
    ensures var s := LastFor(ss, name).value;
            Get(SetAll(l, ss), name) == Some(Data(if s.typ.CharsType? then StringType else s.typ,
                                                  if Get(l, name).Some? then Get(l, name).value.state else GoodValue, s.value))
  {
    LastHasFirst(ss, name);
    StateAfterSettings(l, ss, name);
    ValueAfterSettings(l, ss, name);
  }

  lemma {:induction false} LastHasFirst<V>(ss: List<Setting<V>>, name: string)
    requires AllHaveValues(ss) && LastFor(ss, name).Some?
    ensures FirstFor(ss, name).Some? && HasValue(LastFor(ss, name).value) && !MadeNull(ss, name)
  {
    if LastFor(ss.tail, name).Some? {
      LastHasFirst(ss.tail, name);
    } else {
      NoFirst(ss.tail, name);
      Unset<V>(Nil, ss.tail, name);
    }
  }

  /** The data a property list holds for a key or property: strings, not character pointers, and nothing behind a null. */
  lemma StoredForm<V>(d: Data<V>)
    ensures Stored(Stored(d)) == Stored(d)
    ensures Stored(d) == d <==> if d.typ.NullType? || d.state.NullValue? then d.state == NullValue && d.value == None else !d.typ.CharsType?
    ensures !d.typ.NullType? && !d.state.NullValue? ==> Stored(d).state == d.state && Stored(d).value == d.value
  {
  }

  lemma {:induction false} GetAppended<V>(l: List<Prop<V>>, p: Prop<V>, name: string)
    ensures Get(CText.Append(l, Cons(p, Nil)), name) == if Get(l, name).Some? then Get(l, name) else if SameNoCase(p.name, name) then Some(p.data) else None
  {
    if l.Cons? { GetAppended(l.tail, p, name); }
  }

  lemma {:induction false} HasGet<V>(l: List<Prop<V>>, name: string)
    ensures Has(l, name) <==> Get(l, name).Some?
  {
    if l.Cons? { HasGet(l.tail, name); }
  }

  /** Whatever is set, a property stays a key exactly if no setting made it null. */
  lemma {:induction false} KeySurvives<V>(l: List<Prop<V>>, ss: List<Setting<V>>, name: string)
    ensures IsKey(SetAll(l, ss), name) <==> IsKey(l, name) && !MadeNull(ss, name)
    decreases ss
  {
    if ss.Cons? {
      var s := ss.head;
      HasGet(l, s.name);
      HasGet(l, name);
      if Has(l, s.name) {
        GetSet(l, s.name, s.typ, s.value, name);
        if SameNoCase(s.name, name) { GetSame(l, s.name, name); }
      } else {
        var p := Prop(s.name, Data(s.typ, if s.value.None? then NullValue else GoodValue, s.value));
        AddNew(l, p);
        GetAppended(l, Prop(s.name, Stored(p.data)), name);
        if SameNoCase(s.name, name) { HasSame(l, s.name, name); }
      }
      KeySurvives(SetOrAdd(l, s), ss.tail, name);
    }
  }
}
