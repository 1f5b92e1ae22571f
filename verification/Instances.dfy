/** The property list of property.c on the heap, and the instances and paths built on it. */
module Instances {
  import opened CText
  import opened PropertyModel

  /** struct native_property, without its qualifiers. */
  class Node<V> {
    const name: string
    var data: Data<V>
    var next: Node?<V>

    constructor (name: string, data: Data<V>)
      ensures this.name == name && this.data == data && next == null
    {
      this.name, this.data, this.next := name, data, null;
    }
  }

  ghost function Nodes<V>(l: List<Node<V>>): set<Node<V>> {
    match l
    case Nil => {}
    case Cons(n, t) => {n} + Nodes(t)
  }

  ghost predicate Linked<V>(p: Node?<V>, l: List<Node<V>>)
    reads Nodes(l)
  {
    match l
    case Nil => p == null
    case Cons(n, t) => p == n && n !in Nodes(t) && Linked(n.next, t)
  }

  ghost function Props<V>(l: List<Node<V>>): List<Prop<V>>
    reads Nodes(l)
  {
    match l
    case Nil => Nil
    case Cons(n, t) => Cons(Prop(n.name, n.data), Props(t))
  }

  twostate lemma {:induction false} Frame<V>(p: Node?<V>, new l: List<Node<V>>)
    requires old(allocated(l))
    requires forall n :: n in Nodes(l) ==> old(allocated(n)) && n.data == old(n.data) && n.next == old(n.next)
    ensures Linked(p, l) == old(Linked(p, l)) && Props(l) == old(Props(l))
    decreases l
  {
    if l.Cons? {
      assert l.head in Nodes(l);
      Frame(l.head.next, l.tail);
    }
  }

  /** Set the link of a node to the rest of a list. */
  method Link<V>(prop: Node<V>, next: Node?<V>, ghost t: List<Node<V>>, ghost ns: set<Node<V>>)
    requires Linked(next, t) && Nodes(t) <= ns && prop !in Nodes(t)
    modifies prop`next
    ensures Linked(prop, Cons(prop, t)) && Props(t) == old(Props(t))
  {
    prop.next := next;
    Frame(next, t);
  }

  /** __addProperty at a place that holds `prop`; `r` is what the place holds afterwards. */
  method AddProperty<V>(prop: Node?<V>, p: Prop<V>, ghost l: List<Node<V>>, ghost ns: set<Node<V>>)
    returns (existed: bool, r: Node?<V>, ghost l': List<Node<V>>, ghost ns': set<Node<V>>)
    requires Linked(prop, l) && Nodes(l) <= ns
    modifies Nodes(l)`next
    ensures existed == old(Has(Props(l), p.name))
    ensures Linked(r, l') && Nodes(l') <= Nodes(l) + (ns' - ns) && ns <= ns' && fresh(ns' - ns) && Props(l') == Add(old(Props(l)), p)
    decreases l
  {
    if prop == null {
      var tmp := new Node(p.name, Stored(p.data));
      return false, tmp, Cons(tmp, Nil), ns + {tmp};
    }
    if SameNoCase(prop.name, p.name) { return true, prop, l, ns; }
    ghost var t;
    var next: Node?<V>;
    existed, next, t, ns' := AddProperty(prop.next, p, l.tail, ns);
    Link(prop, next, t, ns');
    r, l' := prop, Cons(prop, t);
  }

  /** __setProperty: false if there is no property of this name. */
  method SetProperty<V>(prop: Node?<V>, name: string, t: Type, v: Option<V>, ghost l: List<Node<V>>, ghost ns: set<Node<V>>) returns (found: bool)
    requires Linked(prop, l) && Nodes(l) <= ns
    modifies Nodes(l)`data
    ensures found == old(Has(Props(l), name)) && Linked(prop, l) && Props(l) == Set(old(Props(l)), name, t, v)
    decreases l
  {
    if prop == null { return false; }
    if SameNoCase(prop.name, name) {
      prop.data := Changed(prop.data, t, v);
      Frame(prop.next, l.tail);
      return true;
    }
    found := SetProperty(prop.next, name, t, v, l.tail, ns);
  }

  /** __getProperty */
  method GetProperty<V>(prop: Node?<V>, name: string, ghost l: List<Node<V>>) returns (r: Node?<V>)
    requires Linked(prop, l)
    ensures r == null <==> Get(Props(l), name) == None
    ensures r != null ==> r in Nodes(l) && Get(Props(l), name) == Some(r.data)
    decreases l
  {
    if prop == null { return null; }
    if SameNoCase(prop.name, name) { return prop; }
    r := GetProperty(prop.next, name, l.tail);
  }

  /** __getPropertyAt */
  method GetPropertyAt<V>(prop: Node?<V>, pos: nat, ghost l: List<Node<V>>) returns (r: Node?<V>)
    requires Linked(prop, l)
    ensures r == null <==> At(Props(l), pos) == None
    ensures r != null ==> At(Props(l), pos) == Some(Prop(r.name, r.data))
    decreases l
  {
    if prop == null { return null; }
    if pos == 0 { return prop; }
    r := GetPropertyAt(prop.next, pos - 1, l.tail);
  }

  /** __getPropertyCount */
  method GetPropertyCount<V>(prop: Node?<V>, ghost l: List<Node<V>>) returns (c: nat)
    requires Linked(prop, l)
    ensures c == Size(Props(l))
  {
    c := 0;
    var p := prop;
    ghost var rest := l;
    while p != null
      invariant Linked(p, rest) && c + Size(Props(rest)) == Size(Props(l))
      decreases rest
    {
      c := c + 1;
      p, rest := p.next, rest.tail;
    }
  }

  /** __clone: new nodes throughout. */
  method Clone<V>(prop: Node?<V>, ghost l: List<Node<V>>, ghost ns: set<Node<V>>) returns (r: Node?<V>, ghost l': List<Node<V>>, ghost ns': set<Node<V>>)
    requires Linked(prop, l) && Nodes(l) <= ns
    ensures Linked(r, l') && Nodes(l') <= ns' && fresh(ns') && Props(l') == Cloned(old(Props(l)))
    decreases l
  {
    if prop == null { return null, Nil, {}; }
    var data := prop.data;
    var result := new Node(prop.name, if data.state.NullValue? then data.(value := None) else data);
    ghost var t;
    var next: Node?<V>;
    Frame(prop.next, l.tail);
    next, t, ns' := Clone(prop.next, l.tail, ns);
    Link(result, next, t, ns');
    r, l', ns' := result, Cons(result, t), ns' + {result};
  }

  /** Null properties are cloned without a value. */
  function Cloned<V>(l: List<Prop<V>>): List<Prop<V>> {
    match l
    case Nil => Nil
    case Cons(p, t) => Cons(if p.data.state.NullValue? then Prop(p.name, p.data.(value := None)) else p, Cloned(t))
  }

  /** A clone has the properties of the list, in order; only the value of a null one is not copied. */
  lemma {:induction false} ClonedAt<V>(l: List<Prop<V>>, i: nat)
    ensures i >= Size(l) ==> At(Cloned(l), i).None?
    ensures i < Size(l) ==>
      At(l, i).Some? && At(Cloned(l), i).Some?
      && (var p, q := At(l, i).value, At(Cloned(l), i).value;
          q.name == p.name && q.data.typ == p.data.typ && q.data.state == p.data.state
          && q.data.value == if p.data.state == NullValue then None else p.data.value)
  {
    if l.Cons? && i > 0 { ClonedAt(l.tail, i - 1); }
  }

  /** A property list: the place that holds its first node. */
  class PropertyList<V> {
    var first: Node?<V>
    ghost var list: List<Node<V>>
    ghost var nodes: set<Node<V>>

    ghost predicate Valid()
      reads this, nodes
    {
      Nodes(list) <= nodes && Linked(first, list) && Unique(Props(list))
    }

    ghost function Contents(): List<Prop<V>>
      requires Valid()
      reads this, nodes
    {
      Props(list)
    }

    constructor ()
      ensures Valid() && Contents() == Nil && nodes == {}
    {
      first, list, nodes := null, Nil, {};
    }

    method Add(p: Prop<V>) returns (existed: bool)
      requires Valid()
      modifies this, nodes
      ensures Valid() && fresh(nodes - old(nodes)) && Contents() == PropertyModel.Add(old(Contents()), p) && existed == old(Has(Contents(), p.name))
    {
      AddKeepsUnique(Contents(), p);
      existed, first, list, nodes := AddProperty(first, p, list, nodes);
    }

    method Set(name: string, t: Type, v: Option<V>) returns (found: bool)
      requires Valid()
      modifies nodes`data
      ensures Valid() && Contents() == PropertyModel.Set(old(Contents()), name, t, v) && found == old(Has(Contents(), name))
    {
      SetKeepsUnique(Contents(), name, t, v);
      found := SetProperty(first, name, t, v, list, nodes);
    }

    method Count() returns (c: nat)
      requires Valid()
      ensures c == Size(Contents())
    {
      c := GetPropertyCount(first, list);
    }

    method Nth(i: nat) returns (p: Option<Prop<V>>)
      requires Valid()
      ensures p == PropertyModel.At(Contents(), i)
    {
      var n := GetPropertyAt(first, i, list);
      p := if n == null then None else Some(Prop(n.name, n.data));
    }
  }

  function TakeBack<X>(l: List<X>, i: nat): List<X> { if i == 0 || l.Nil? then l else TakeBack(l.tail, i - 1) }

  lemma {:induction false} TakeBackAt<V>(l: List<Prop<V>>, i: nat)
    requires i < Size(l)
    ensures At(l, i).Some? && TakeBack(l, i) == Cons(At(l, i).value, TakeBack(l, i + 1))
  {
    if i > 0 { TakeBackAt(l.tail, i - 1); }
  }

  lemma {:induction false} TakeBackAll<X>(l: List<X>)
    ensures TakeBack(l, Size(l)) == Nil
  {
    if l.Cons? { TakeBackAll(l.tail); }
  }

  /** Add the property at a position of one list to another. */
  method AddNth<V>(from: PropertyList<V>, j: nat, to: PropertyList<V>, onlyKeys: bool)
    requires from.Valid() && to.Valid() && j < Size(from.Contents()) && from != to && from.nodes !! to.nodes
    modifies to, to.nodes
    ensures from.Valid() && from.Contents() == old(from.Contents()) && to.Valid() && fresh(to.nodes - old(to.nodes))
    ensures At(from.Contents(), j).Some?
    ensures var p := At(from.Contents(), j).value;
            to.Contents() == if onlyKeys && !p.data.state.KeyValue? then old(to.Contents()) else Add(old(to.Contents()), p)
  {
    TakeBackAt(from.Contents(), j);
    var p := from.Nth(j);
    if !onlyKeys || p.value.data.state.KeyValue? {
      var existed := to.Add(p.value);
      Frame(from.first, from.list);
    }
  }

  /** native_new_CMPIInstance: the path's keys become properties, from the last to the first. */
  method NewInstance<V>(keys: PropertyList<V>) returns (props: PropertyList<V>)
    requires keys.Valid()
    ensures fresh(props) && fresh(props.nodes) && props.Valid() && props.Contents() == FromKeys(keys.Contents())
  {
    props := new PropertyList();
    var j := keys.Count();
    ghost var all := keys.Contents();
    TakeBackAll(all);
    while j > 0
      invariant fresh(props) && fresh(props.nodes) && props.Valid() && keys.Valid() && keys.Contents() == all
      invariant keys != props && keys.nodes !! props.nodes
      invariant 0 <= j <= Size(all) && props.Contents() == FromKeys(TakeBack(all, j))
    {
      j := j - 1;
      TakeBackAt(all, j);
      AddNth(keys, j, props, false);
    }
  }

  /** __ift_getObjectPath: the key properties become keys, from the last to the first. */
  method GetObjectPath<V>(props: PropertyList<V>) returns (keys: PropertyList<V>)
    requires props.Valid()
    ensures fresh(keys) && fresh(keys.nodes) && keys.Valid() && keys.Contents() == ToKeys(props.Contents())
  {
    keys := new PropertyList();
    var j := props.Count();
    ghost var all := props.Contents();
    TakeBackAll(all);
    while j > 0
      invariant fresh(keys) && fresh(keys.nodes) && keys.Valid() && props.Valid() && props.Contents() == all
      invariant keys != props && keys.nodes !! props.nodes
      invariant 0 <= j <= Size(all) && keys.Contents() == ToKeys(TakeBack(all, j))
    {
      j := j - 1;
      TakeBackAt(all, j);
      AddNth(props, j, keys, true);
    }
  }

  /** __ift_setProperty, without a filter */
  method SetInstanceProperty<V>(props: PropertyList<V>, s: Setting<V>)
    requires props.Valid()
    modifies props, props.nodes
    ensures props.Valid() && fresh(props.nodes - old(props.nodes)) && props.Contents() == SetOrAdd(old(props.Contents()), s)
  {
    var found := props.Set(s.name, s.typ, s.value);
    if !found {
      SetNothing(old(props.Contents()), s.name, s.typ, s.value);
      var existed := props.Add(Prop(s.name, Data(s.typ, if s.value.None? then NullValue else GoodValue, s.value)));
    }
  }

  /** An instance made from a path, changed by settings with values, and made a path again. */
  method ThroughInstance<V>(path: PropertyList<V>, settings: List<Setting<V>>) returns (keys: PropertyList<V>)
    requires path.Valid() && AreKeys(path.Contents()) && AllHaveValues(settings)
    ensures fresh(keys) && keys.Valid() && keys.Contents() == SetThere(old(path.Contents()), settings)
  {
    ghost var l := path.Contents();
    var inst := NewInstance(path);
    var ss := settings;
    while ss.Cons?
      invariant fresh(inst) && fresh(inst.nodes) && inst.Valid() && SetAll(inst.Contents(), ss) == SetAll(FromKeys(l), settings)
      decreases ss
    {
      SetInstanceProperty(inst, ss.head);
      ss := ss.tail;
    }
    PathAfterSettings(l, settings);
    keys := GetObjectPath(inst);
  }
}
