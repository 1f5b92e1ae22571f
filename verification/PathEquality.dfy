/** sameCMPIObjectPath: each key of the first path is looked up in the second. */
module PathEquality {
  import opened CText
  import opened PropertyModel
  import opened StringKeys

  /** A path with a name space and a class name. */
  datatype Cop<+V> = Cop(ns: string, cls: string, keys: List<Prop<V>>)

  /** What is compared of a key: type, state, and the text value2Chars makes of it. */
  datatype Shown = Shown(typ: Type, state: ValueState, text: string)

  function ShowData<V>(text: Data<V> -> string, d: Data<V>): Shown { Shown(d.typ, d.state, text(d)) }

  predicate KeysMatch<V>(text: Data<V> -> string, l: List<Prop<V>>, m: List<Prop<V>>) {
    match l
    case Nil => true
    case Cons(k, t) =>
      var d := Get(m, k.name);
      d.Some? && ShowData(text, k.data) == ShowData(text, d.value) && KeysMatch(text, t, m)
  }

  predicate Same<V>(text: Data<V> -> string, p: Cop<V>, q: Cop<V>) {
    SameNoCase(p.ns, q.ns) && SameNoCase(p.cls, q.cls) && Size(p.keys) == Size(q.keys) && KeysMatch(text, p.keys, q.keys)
  }

  function Drop<X>(l: List<X>, i: nat): List<X> { if i == 0 || l.Nil? then l else Drop(l.tail, i - 1) }

  lemma {:induction false} AtDrop<V>(l: List<Prop<V>>, i: nat)
    ensures i < Size(l) ==> At(l, i).Some? && Drop(l, i) == Cons(At(l, i).value, Drop(l, i + 1))
    ensures i >= Size(l) ==> Drop(l, i) == Nil
  {
    if i > 0 && l.Cons? { AtDrop(l.tail, i - 1); }
  }

  method SameObjectPath<V>(text: Data<V> -> string, p: Cop<V>, q: Cop<V>) returns (same: bool)
    ensures same == Same(text, p, q)
  {
    if !SameNoCase(p.ns, q.ns) { return false; }
    if !SameNoCase(p.cls, q.cls) { return false; }
    var m := Size(p.keys);
    if m != Size(q.keys) { return false; }
    var i := 0;
    while i < m
      invariant i <= m && KeysMatch(text, Drop(p.keys, i), q.keys) == KeysMatch(text, p.keys, q.keys)
    {
      AtDrop(p.keys, i);
      var k := At(p.keys, i).value;
      var d := Get(q.keys, k.name);
      if d.None? { return false; }
      if k.data.typ != d.value.typ || k.data.state != d.value.state { return false; }
      if text(k.data) != text(d.value) { return false; }
      i := i + 1;
    }
    AtDrop(p.keys, m);
    return true;
  }

  // ----- the keys as a map -----

  function KeyMap<V>(text: Data<V> -> string, l: List<Prop<V>>): map<string, Shown> {
    match l
    case Nil => map[]
    case Cons(k, t) => KeyMap(text, t)[Lowered(k.name) := ShowData(text, k.data)]
  }

  lemma {:induction false} MapGet<V>(text: Data<V> -> string, l: List<Prop<V>>, name: string)
    ensures var m := KeyMap(text, l); var d := Get(l, name);
            (d.Some? <==> Lowered(name) in m) && (d.Some? ==> m[Lowered(name)] == ShowData(text, d.value))
  {
    if l.Cons? {
      MapGet(text, l.tail, name);
      LoweredSame(l.head.name, name);
    }
  }

  /** With unique names no key hides another. */
  lemma {:induction false} MapSize<V>(text: Data<V> -> string, l: List<Prop<V>>)
    requires Unique(l)
    ensures |KeyMap(text, l)| == Size(l)
  {
    if l.Cons? {
      MapSize(text, l.tail);
      MapGet(text, l.tail, l.head.name);
      HasGet(l.tail, l.head.name);
    }
  }

  lemma {:induction false} MatchIsSubmap<V>(text: Data<V> -> string, l: List<Prop<V>>, m: List<Prop<V>>)
    requires Unique(l)
    ensures KeysMatch(text, l, m) <==> forall n :: n in KeyMap(text, l) ==> n in KeyMap(text, m) && KeyMap(text, m)[n] == KeyMap(text, l)[n]
  {
    if l.Cons? {
      MatchIsSubmap(text, l.tail, m);
      MapGet(text, m, l.head.name);
      MapGet(text, l.tail, l.head.name);
      HasGet(l.tail, l.head.name);
      var a, b, c, n := KeyMap(text, l), KeyMap(text, l.tail), KeyMap(text, m), Lowered(l.head.name);
      assert n in a && n !in b && forall x :: x in a <==> x in b || x == n;
      assert forall x :: x in b ==> a[x] == b[x];
    }
  }

  /** A part of a map as large as the map is the map. */
  lemma FullSubmap<A, B>(a: map<A, B>, b: map<A, B>)
    requires |a| == |b| && forall x :: x in a ==> x in b && b[x] == a[x]
    ensures a == b
  {
    assert a.Keys <= b.Keys;
    if a.Keys != b.Keys {
      var x :| x in b.Keys && x !in a.Keys;
      SubsetSize(a.Keys, b.Keys - {x});
    }
  }

  lemma {:induction false} SubsetSize<A>(s: set<A>, t: set<A>)
    requires s <= t
    ensures |s| <= |t|
  {
    if s != {} {
      var x :| x in s;
      SubsetSize(s - {x}, t - {x});
    }
  }

  /** For keys with unique names, the one-sided comparison is equality of the key maps. */
  lemma SameIsEqualMaps<V>(text: Data<V> -> string, p: Cop<V>, q: Cop<V>)
    requires Unique(p.keys) && Unique(q.keys)
    ensures Same(text, p, q) <==> SameNoCase(p.ns, q.ns) && SameNoCase(p.cls, q.cls) && KeyMap(text, p.keys) == KeyMap(text, q.keys)
  {
    MatchIsSubmap(text, p.keys, q.keys);
    MapSize(text, p.keys);
    MapSize(text, q.keys);
    if Same(text, p, q) { FullSubmap(KeyMap(text, p.keys), KeyMap(text, q.keys)); }
  }

  /** Both paths lack the key, or both have it with the same type, state and text. */
  predicate KeysAgree<V>(text: Data<V> -> string, a: Option<Data<V>>, b: Option<Data<V>>) {
    if a.None? || b.None? then a.None? && b.None?
    else a.value.typ == b.value.typ && a.value.state == b.value.state && text(a.value) == text(b.value)
  }

  lemma {:induction false} AgreeingMatch<V>(text: Data<V> -> string, l: List<Prop<V>>, m: List<Prop<V>>)
    requires Unique(l) && forall n: string :: Get(l, n).Some? ==> KeysAgree(text, Get(l, n), Get(m, n))
    ensures KeysMatch(text, l, m)
  {
    if l.Cons? {
      assert Get(l, l.head.name) == Some(l.head.data);
      forall n: string | Get(l.tail, n).Some? ensures KeysAgree(text, Get(l.tail, n), Get(m, n)) {
        HasGet(l.tail, n);
        if SameNoCase(l.head.name, n) { HasSame(l.tail, l.head.name, n); }
        assert Get(l, n) == Get(l.tail, n);
      }
      AgreeingMatch(text, l.tail, m);
    }
  }

  ghost predicate AllKeysAgree<V>(text: Data<V> -> string, l: List<Prop<V>>, m: List<Prop<V>>) {
    forall n: string :: KeysAgree(text, Get(l, n), Get(m, n))
  }

  /** For keys with unique names, the paths are the same exactly if name spaces and classes are equal without regard to
      case, and under every name both have no key, or keys of the same type, state and text. */
  lemma SameMeans<V>(text: Data<V> -> string, p: Cop<V>, q: Cop<V>)
    requires Unique(p.keys) && Unique(q.keys)
    ensures Same(text, p, q)
       <==> SameNoCase(p.ns, q.ns) && SameNoCase(p.cls, q.cls) && AllKeysAgree(text, p.keys, q.keys)
  {
    SameIsEqualMaps(text, p, q);
    if KeyMap(text, p.keys) == KeyMap(text, q.keys) {
      forall n: string ensures KeysAgree(text, Get(p.keys, n), Get(q.keys, n)) {
        MapGet(text, p.keys, n);
        MapGet(text, q.keys, n);
      }
    }
    if AllKeysAgree(text, p.keys, q.keys) {
      forall n: string ensures KeysAgree(text, Get(q.keys, n), Get(p.keys, n)) {
        assert KeysAgree(text, Get(p.keys, n), Get(q.keys, n));
      }
      AgreeingMatch(text, p.keys, q.keys);
      AgreeingMatch(text, q.keys, p.keys);
      MatchIsSubmap(text, p.keys, q.keys);
      MatchIsSubmap(text, q.keys, p.keys);
      assert KeyMap(text, p.keys) == KeyMap(text, q.keys);
    }
  }

  lemma SameReflexive<V>(text: Data<V> -> string, p: Cop<V>)
    requires Unique(p.keys)
    ensures Same(text, p, p)
  {
    SameIsEqualMaps(text, p, p);
  }

  lemma SameSymmetric<V>(text: Data<V> -> string, p: Cop<V>, q: Cop<V>)
    requires Unique(p.keys) && Unique(q.keys) && Same(text, p, q)
    ensures Same(text, q, p)
  {
    SameIsEqualMaps(text, p, q);
    SameIsEqualMaps(text, q, p);
  }

  lemma SameTransitive<V>(text: Data<V> -> string, p: Cop<V>, q: Cop<V>, r: Cop<V>)
    requires Unique(p.keys) && Unique(q.keys) && Unique(r.keys) && Same(text, p, q) && Same(text, q, r)
    ensures Same(text, p, r)
  {
    SameIsEqualMaps(text, p, q);
    SameIsEqualMaps(text, q, r);
    SameIsEqualMaps(text, p, r);
  }

  ghost function Bag<X>(l: List<X>): multiset<X> {
    match l
    case Nil => multiset{}
    case Cons(h, t) => multiset{h} + Bag(t)
  }

  lemma {:induction false} BagGet<V>(l: List<Prop<V>>, k: Prop<V>)
    requires Unique(l)
    ensures k in Bag(l) ==> Get(l, k.name) == Some(k.data)
  {
    if l.Cons? && k in Bag(l) && k != l.head {
      BagGet(l.tail, k);
      HasGet(l.tail, k.name);
      if SameNoCase(l.head.name, k.name) { HasSame(l.tail, l.head.name, k.name); }
    }
  }

  lemma {:induction false} BagMatch<V>(text: Data<V> -> string, l: List<Prop<V>>, m: List<Prop<V>>)
    requires Unique(m) && Bag(l) <= Bag(m)
    ensures KeysMatch(text, l, m)
  {
    if l.Cons? {
      assert l.head in Bag(l);
      assert Bag(l.tail) <= Bag(l);
      BagGet(m, l.head);
      BagMatch(text, l.tail, m);
    }
  }

  lemma {:induction false} BagSize<X>(l: List<X>)
    ensures |Bag(l)| == Size(l)
  {
    if l.Cons? { BagSize(l.tail); }
  }

  /** The order of the keys does not matter. */
  lemma OrderBlind<V>(text: Data<V> -> string, p: Cop<V>, q: Cop<V>)
    requires Unique(q.keys) && SameNoCase(p.ns, q.ns) && SameNoCase(p.cls, q.cls) && Bag(p.keys) == Bag(q.keys)
    ensures Same(text, p, q)
  {
    BagMatch(text, p.keys, q.keys);
    BagSize(p.keys);
    BagSize(q.keys);
  }

  /** Without unique names the comparison is not symmetric. */
  lemma OneSided(d: Data<int>, text: Data<int> -> string)
    ensures var p := Cop("n", "c", Cons(Prop("a", d), Cons(Prop("a", d), Nil)));
            var q := Cop("n", "c", Cons(Prop("a", d), Cons(Prop("b", d), Nil)));
            Same(text, p, q) && !Same(text, q, p)
  {
    var k, m := Cons(Prop("a", d), Cons(Prop("a", d), Nil)), Cons(Prop("a", d), Cons(Prop("b", d), Nil));
    assert !SameNoCase("a", "b") by { assert Lower("a"[0]) != Lower("b"[0]); }
    assert Get(k.tail, "b") == None;
    assert Get(k, "b") == None;
    assert Get(k, "a") == Some(d);
    assert KeysMatch(text, m, k) ==> KeysMatch(text, m.tail, k);
  }
}
