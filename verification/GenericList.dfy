/** The doubly linked list of genericlist.c: sentinels before and behind the elements, a cursor, and a stand-in element
    for a cursor whose element was removed. */
module GenericLists {
  import opened CText

  class Element<T> {
    var pointer: Option<T>
    var next: Element<T>
    var previous: Element<T>

    /** An element on its own. */
    constructor (pointer: Option<T>)
      ensures this.pointer == pointer && next == this && previous == this
    {
      this.pointer := pointer;
      next, previous := this, this;
    }
  }

  ghost function Nodes<T>(l: List<Element<T>>): set<Element<T>> {
    match l
    case Nil => {}
    case Cons(n, t) => {n} + Nodes(t)
  }

  ghost predicate Distinct<T>(l: List<Element<T>>) {
    match l
    case Nil => true
    case Cons(n, t) => n !in Nodes(t) && Distinct(t)
  }

  ghost function Pointers<T>(l: List<Element<T>>): List<Option<T>>
    reads Nodes(l)
  {
    match l
    case Nil => Nil
    case Cons(n, t) => Cons(n.pointer, Pointers(t))
  }

  /** The next and previous chains run through `l` between `left` and `right`, and mirror each other. */
  ghost predicate Linked<T>(left: Element<T>, l: List<Element<T>>, right: Element<T>)
    reads left, right, Nodes(l)
  {
    match l
    case Nil => left.next == right && right.previous == left
    case Cons(n, t) => left.next == n && n.previous == left && Linked(n, t, right)
  }

  ghost function FirstOr<T>(l: List<Element<T>>, d: Element<T>): Element<T> { if l.Cons? then l.head else d }

  ghost function LastOr<T>(d: Element<T>, l: List<Element<T>>): Element<T> {
    match l
    case Nil => d
    case Cons(n, t) => LastOr(n, t)
  }

  // ----- chains that stay -----

  twostate lemma {:induction false} LinkedFrame<T>(left: Element<T>, new l: List<Element<T>>, new right: Element<T>)
    requires old(allocated(l)) && old(allocated(right))
    requires old(Linked(left, l, right)) && left.next == old(left.next) && right.previous == old(right.previous)
    requires forall n :: n in Nodes(l) ==> old(allocated(n)) && n.next == old(n.next) && n.previous == old(n.previous)
    ensures Linked(left, l, right)
  {
    if l.Cons? {
      assert l.head in Nodes(l);
      LinkedFrame(l.head, l.tail, right);
    }
  }

  twostate lemma {:induction false} PointersFrame<T>(l: List<Element<T>>)
    requires forall n :: n in Nodes(l) ==> old(allocated(n)) && n.pointer == old(n.pointer)
    ensures Pointers(l) == old(Pointers(l))
  {
    if l.Cons? { PointersFrame(l.tail); }
  }

  lemma {:induction false} LastIn<T>(left: Element<T>, l: List<Element<T>>, right: Element<T>)
    requires Linked(left, l, right)
    ensures right.previous == LastOr(left, l) && left.next == FirstOr(l, right)
    ensures LastOr(left, l) in Nodes(l) + {left} && (l.Cons? ==> LastOr(left, l) in Nodes(l))
  {
    if l.Cons? { LastIn(l.head, l.tail, right); }
  }

  /** Two chains with a common end are one chain. */
  lemma {:induction false} Joined<T>(left: Element<T>, a: List<Element<T>>, n: Element<T>, b: List<Element<T>>, right: Element<T>)
    ensures Linked(left, CText.Append(a, Cons(n, b)), right) <==> Linked(left, a, n) && Linked(n, b, right)
  {
    if a.Cons? { Joined(a.head, a.tail, n, b, right); }
  }

  lemma {:induction false} NodesAppend<T>(a: List<Element<T>>, b: List<Element<T>>)
    ensures Nodes(CText.Append(a, b)) == Nodes(a) + Nodes(b)
  {
    if a.Cons? { NodesAppend(a.tail, b); }
  }

  lemma {:induction false} DistinctAppend<T>(a: List<Element<T>>, b: List<Element<T>>)
    ensures Distinct(CText.Append(a, b)) <==> Distinct(a) && Distinct(b) && Nodes(a) !! Nodes(b)
  {
    NodesAppend(a, b);
    if a.Cons? {
      DistinctAppend(a.tail, b);
      NodesAppend(a.tail, b);
    }
  }

  lemma {:induction false} PointersAppend<T>(a: List<Element<T>>, b: List<Element<T>>)
    ensures Pointers(CText.Append(a, b)) == CText.Append(Pointers(a), Pointers(b))
  {
    if a.Cons? { PointersAppend(a.tail, b); }
  }

  /** Where an element stands. */
  lemma {:induction false} Split<T>(l: List<Element<T>>, x: Element<T>) returns (a: List<Element<T>>, b: List<Element<T>>)
    requires x in Nodes(l)
    ensures l == CText.Append(a, Cons(x, b))
  {
    if l.head == x {
      a, b := Nil, l.tail;
    } else {
      a, b := Split(l.tail, x);
      a := Cons(l.head, a);
    }
  }

  // ----- chains that change in one place -----

  /** Only the link forward from `p` and the link back from `q` may have changed, in elements of `ns`. */
  twostate predicate OnlyLinks<T>(new ns: set<Element<T>>, new p: Element<T>, new q: Element<T>)
    requires old(allocated(p)) && old(allocated(q))
    reads ns
  {
    && (forall n :: n in ns ==> old(allocated(n)))
    && (forall n :: n in ns && n != p ==> n.next == old(n.next))
    && (forall n :: n in ns && n != q ==> n.previous == old(n.previous))
    && (forall n :: n in ns ==> n.pointer == old(n.pointer))
  }

  twostate lemma {:induction false} LastInOld<T>(left: Element<T>, new l: List<Element<T>>)
    requires old(allocated(l))
    ensures LastOr(left, l) in Nodes(l) + {left} && (l.Cons? ==> LastOr(left, l) in Nodes(l))
  {
    if l.Cons? { LastInOld(l.head, l.tail); }
  }

  /** After `x` between `a` and `b` was bypassed. */
  twostate lemma {:induction false} Bridged<T>(left: Element<T>, new a: List<Element<T>>, new x: Element<T>, new b: List<Element<T>>, new right: Element<T>)
    requires old(allocated(a)) && old(allocated(x)) && old(allocated(b)) && old(allocated(right))
    requires old(Linked(left, a, x)) && old(Linked(x, b, right))
    requires Distinct(CText.Append(Cons(left, a), CText.Append(b, Cons(right, Nil))))
    requires OnlyLinks({left, right} + Nodes(a) + Nodes(b), LastOr(left, a), FirstOr(b, right))
    requires LastOr(left, a).next == FirstOr(b, right) && FirstOr(b, right).previous == LastOr(left, a)
    ensures Linked(left, CText.Append(a, b), right)
    decreases a
  {
    NodesAppend(b, Cons(right, Nil));
    DistinctAppend(b, Cons(right, Nil));
    NodesAppend(a, CText.Append(b, Cons(right, Nil)));
    DistinctAppend(a, CText.Append(b, Cons(right, Nil)));
    if a.Cons? {
      LastInOld(a.head, a.tail);
      assert Nodes(a) == {a.head} + Nodes(a.tail);
      assert left in {left, right} + Nodes(a) + Nodes(b) && a.head in {left, right} + Nodes(a) + Nodes(b);
      Bridged(a.head, a.tail, x, b, right);
    } else if b.Cons? {
      assert Nodes(b) == {b.head} + Nodes(b.tail);
      BridgedFrame(b.head, b.tail, right, left);
    }
  }

  twostate lemma {:induction false} BridgedFrame<T>(left: Element<T>, new l: List<Element<T>>, new right: Element<T>, new p: Element<T>)
    requires old(allocated(l)) && old(allocated(right)) && old(allocated(p))
    requires old(Linked(left, l, right)) && OnlyLinks({left, right} + Nodes(l), p, left) && p !in {left} + Nodes(l)
    requires left !in Nodes(l) && left != right
    ensures Linked(left, l, right)
  {
    if l.Cons? {
      assert Nodes(l) == {l.head} + Nodes(l.tail);
      forall n | n in Nodes(l) ensures n.next == old(n.next) && n.previous == old(n.previous) { assert n in {left, right} + Nodes(l); }
      assert left.next == l.head && l.head.previous == left;
      LinkedFrame(l.head, l.tail, right);
    }
  }

  /** After `e` was linked in before `right`. */
  twostate lemma {:induction false} Extended<T>(left: Element<T>, new a: List<Element<T>>, new e: Element<T>, new right: Element<T>)
    requires old(allocated(a)) && old(allocated(right))
    requires old(Linked(left, a, right)) && Distinct(CText.Append(Cons(left, a), Cons(right, Nil)))
    requires OnlyLinks({left, right} + Nodes(a), LastOr(left, a), right) && e !in {left, right} + Nodes(a)
    requires LastOr(left, a).next == e && e.previous == LastOr(left, a) && e.next == right && right.previous == e
    ensures Linked(left, CText.Append(a, Cons(e, Nil)), right)
    decreases a
  {
    NodesAppend(a, Cons(right, Nil));
    DistinctAppend(a, Cons(right, Nil));
    if a.Cons? {
      LastInOld(a.head, a.tail);
      assert Nodes(a) == {a.head} + Nodes(a.tail);
      assert left in {left, right} + Nodes(a) && a.head in {left, right} + Nodes(a);
      Extended(a.head, a.tail, e, right);
    }
  }

  /** After `e` was linked in behind `left`. */
  twostate lemma Prefixed<T>(left: Element<T>, new l: List<Element<T>>, new e: Element<T>, new right: Element<T>)
    requires old(allocated(l)) && old(allocated(right))
    requires old(Linked(left, l, right)) && Distinct(Cons(left, CText.Append(l, Cons(right, Nil))))
    requires OnlyLinks({left, right} + Nodes(l), left, FirstOr(l, right)) && e !in {left, right} + Nodes(l)
    requires left.next == e && e.previous == left && e.next == FirstOr(l, right) && FirstOr(l, right).previous == e
    ensures Linked(left, Cons(e, l), right)
  {
    NodesAppend(l, Cons(right, Nil));
    DistinctAppend(l, Cons(right, Nil));
    if l.Cons? {
      assert Nodes(l) == {l.head} + Nodes(l.tail);
      BridgedFrame(l.head, l.tail, right, left);
    }
  }

  lemma {:induction false} SizeAppend<X>(a: List<X>, b: List<X>)
    ensures Size(CText.Append(a, b)) == Size(a) + Size(b)
  {
    if a.Cons? { SizeAppend(a.tail, b); }
  }

  lemma {:induction false} SplitLast<T>(d: Element<T>, l: List<Element<T>>) returns (a: List<Element<T>>)
    requires l.Cons?
    ensures l == CText.Append(a, Cons(LastOr(d, l), Nil))
  {
    if l.tail.Nil? {
      a := Nil;
    } else {
      a := SplitLast(l.head, l.tail);
      a := Cons(l.head, a);
    }
  }

  // ----- sequences of pointers -----

  predicate Has<X(==)>(l: List<X>, x: X) { l.Cons? && (l.head == x || Has(l.tail, x)) }

  /** Without the last occurrence of `x`. */
  function WithoutLast<X(==)>(l: List<X>, x: X): List<X> {
    match l
    case Nil => Nil
    case Cons(h, t) => if Has(t, x) then Cons(h, WithoutLast(t, x)) else if h == x then t else l
  }

  lemma {:induction false} LastDropped<X>(a: List<X>, x: X, b: List<X>)
    requires !Has(b, x)
    ensures WithoutLast(CText.Append(a, Cons(x, b)), x) == CText.Append(a, b) && Has(CText.Append(a, Cons(x, b)), x)
  {
    if a.Cons? { LastDropped(a.tail, x, b); }
  }

  lemma {:induction false} NoneDropped<X>(l: List<X>, x: X)
    requires !Has(l, x)
    ensures WithoutLast(l, x) == l
  {
  }

  /** What is left when the marked ones are taken out; unmarked ones stay. */
  function Kept<X>(l: List<X>, drop: seq<bool>, i: nat): List<X> {
    match l
    case Nil => Nil
    case Cons(h, t) => if i < |drop| && drop[i] then Kept(t, drop, i + 1) else Cons(h, Kept(t, drop, i + 1))
  }

  /** What is left around the element at a position: the element stays exactly if its position is not marked. */
  lemma {:induction false} KeptAround<X>(a: List<X>, x: X, b: List<X>, drop: seq<bool>, i: nat)
    ensures var n := i + Size(a);
            Kept(CText.Append(a, Cons(x, b)), drop, i)
            == CText.Append(Kept(a, drop, i), if n < |drop| && drop[n] then Kept(b, drop, n + 1) else Cons(x, Kept(b, drop, n + 1)))
  {
    if a.Cons? { KeptAround(a.tail, x, b, drop, i + 1); }
  }

  lemma {:induction false} KeptUnmarked<X>(l: List<X>, drop: seq<bool>, i: nat)
    requires forall j :: i <= j < |drop| ==> !drop[j]
    ensures Kept(l, drop, i) == l
  {
    if l.Cons? { KeptUnmarked(l.tail, drop, i + 1); }
  }

  class GenericList<T(==)> {
    const pre: Element<T>
    const post: Element<T>
    const deleted: Element<T>
    var current: Element<T>
    var numOfElements: nat
    /** The elements in order, and as a set. */
    ghost var elements: List<Element<T>>
    ghost var nodes: set<Element<T>>

    ghost predicate Valid()
      reads `elements, `nodes, `numOfElements, pre, post, deleted, nodes
    {
      && nodes == Nodes(elements) && Distinct(Cons(pre, CText.Append(elements, Cons(post, Nil)))) && deleted !in nodes + {pre, post}
      && Linked(pre, elements, post) && pre.previous == pre && post.next == post
      && pre.pointer.None? && post.pointer.None? && deleted.pointer.None? && (forall n :: n in nodes ==> n.pointer.Some?)
      && numOfElements == Size(elements)
    }

    ghost function Contents(): List<Option<T>>
      requires nodes == Nodes(elements)
      reads `elements, `nodes, nodes
    {
      Pointers(elements)
    }

    /** initialize_list */
    constructor ()
      ensures Valid() && Contents() == Nil && current == pre && fresh(pre) && fresh(post) && fresh(deleted)
    {
      var a := new Element(None);
      var b := new Element(None);
      var c := new Element(None);
      a.next := b;
      b.previous := a;
      pre, post, deleted, current, numOfElements := a, b, c, a, 0;
      elements, nodes := Nil, {};
    }

    method LinkFirst(e: Element<T>)
      requires Valid() && e !in nodes + {pre, post}
      modifies pre`next, nodes`previous, post`previous, e`next, e`previous
      ensures Linked(pre, Cons(e, elements), post) && pre.previous == pre && post.next == post && Pointers(elements) == old(Pointers(elements))
    {
      NodesAppend(elements, Cons(post, Nil));
      DistinctAppend(elements, Cons(post, Nil));
      LastIn(pre, elements, post);
      e.next := pre.next;
      e.previous := pre;
      pre.next.previous := e;
      pre.next := e;
      Prefixed(pre, elements, e, post);
      PointersFrame(elements);
    }

    method LinkLast(e: Element<T>)
      requires Valid() && e !in nodes + {pre, post}
      modifies pre`next, nodes`next, post`previous, e`next, e`previous
      ensures Linked(pre, CText.Append(elements, Cons(e, Nil)), post) && pre.previous == pre && post.next == post && Pointers(elements) == old(Pointers(elements))
    {
      NodesAppend(elements, Cons(post, Nil));
      DistinctAppend(elements, Cons(post, Nil));
      LastIn(pre, elements, post);
      e.next := post;
      e.previous := post.previous;
      post.previous.next := e;
      post.previous := e;
      Extended(pre, elements, e, post);
      PointersFrame(elements);
    }

    /** A NULL pointer is not added. */
    method AddToBeginning(pointer: Option<T>)
      requires Valid()
      modifies `elements, `nodes, `numOfElements, pre`next, nodes`previous, post`previous
      ensures Valid() && fresh(nodes - old(nodes)) && Contents() == if pointer.None? then old(Contents()) else Cons(pointer, old(Contents()))
    {
      hide Linked;
      if pointer.None? { return; }
      var e := new Element(pointer);
      LinkFirst(e);
      NewFirst(elements, e);
      elements, nodes, numOfElements := Cons(e, elements), nodes + {e}, numOfElements + 1;
    }

    method AddToEnd(pointer: Option<T>)
      requires Valid()
      modifies `elements, `nodes, `numOfElements, pre`next, nodes`next, post`previous
      ensures Valid() && fresh(nodes - old(nodes))
      ensures Contents() == if pointer.None? then old(Contents()) else CText.Append(old(Contents()), Cons(pointer, Nil))
    {
      hide Linked, Distinct;
      if pointer.None? { return; }
      var e := new Element(pointer);
      LinkLast(e);
      PointersAppend(elements, Cons(e, Nil));
      SizeAppend(elements, Cons(e, Nil));
      NewLast(elements, e);
      elements, nodes, numOfElements := CText.Append(elements, Cons(e, Nil)), nodes + {e}, numOfElements + 1;
    }

    lemma NewFirst(l: List<Element<T>>, e: Element<T>)
      requires Distinct(Cons(pre, CText.Append(l, Cons(post, Nil)))) && e !in Nodes(l) + {pre, post}
      ensures Distinct(Cons(pre, CText.Append(Cons(e, l), Cons(post, Nil)))) && Nodes(Cons(e, l)) == Nodes(l) + {e}
    {
      NodesAppend(l, Cons(post, Nil));
    }

    lemma NewLast(l: List<Element<T>>, e: Element<T>)
      requires Distinct(Cons(pre, CText.Append(l, Cons(post, Nil)))) && e !in Nodes(l) + {pre, post}
      ensures Distinct(Cons(pre, CText.Append(CText.Append(l, Cons(e, Nil)), Cons(post, Nil)))) && Nodes(CText.Append(l, Cons(e, Nil))) == Nodes(l) + {e}
    {
      NodesAppend(l, Cons(post, Nil));
      DistinctAppend(l, Cons(post, Nil));
      NodesAppend(l, Cons(e, Nil));
      DistinctAppend(l, Cons(e, Nil));
      DistinctAppend(CText.Append(l, Cons(e, Nil)), Cons(post, Nil));
      NodesAppend(CText.Append(l, Cons(e, Nil)), Cons(post, Nil));
    }

    // ----- removal -----

    /** Take out the element between `a` and `b`. */
    method Bypass(x: Element<T>, ghost a: List<Element<T>>, ghost b: List<Element<T>>)
      requires Valid() && elements == CText.Append(a, Cons(x, b))
      modifies pre`next, nodes`next, nodes`previous, post`previous
      ensures Linked(pre, CText.Append(a, b), post) && pre.previous == pre && post.next == post
      ensures x.next == old(x.next) == FirstOr(b, post) && x.previous == old(x.previous) == LastOr(pre, a)
      ensures Pointers(a) == old(Pointers(a)) && Pointers(b) == old(Pointers(b))
    {
      Apart(x, a, b);
      Joined(pre, a, x, b, post);
      LastIn(pre, a, x);
      LastIn(x, b, post);
      x.previous.next := x.next;
      x.next.previous := x.previous;
      Bridged(pre, a, x, b, post);
      PointersFrame(a);
      PointersFrame(b);
    }

    lemma Apart(x: Element<T>, a: List<Element<T>>, b: List<Element<T>>)
      requires Valid() && elements == CText.Append(a, Cons(x, b))
      ensures x in nodes && Nodes(a) <= nodes && Nodes(b) <= nodes && x !in Nodes(a) + Nodes(b) + {pre, post} && nodes == Nodes(a) + Nodes(b) + {x}
      ensures Distinct(Cons(pre, CText.Append(CText.Append(a, b), Cons(post, Nil)))) && Nodes(CText.Append(a, b)) == Nodes(a) + Nodes(b)
      ensures Distinct(CText.Append(Cons(pre, a), CText.Append(b, Cons(post, Nil))))
    {
      var p := Cons(post, Nil);
      NodesAppend(a, Cons(x, b));
      NodesAppend(elements, p);
      DistinctAppend(elements, p);
      DistinctAppend(a, Cons(x, b));
      DistinctAppend(b, p);
      NodesAppend(b, p);
      DistinctAppend(a, CText.Append(b, p));
      NodesAppend(a, CText.Append(b, p));
      AppendAssociates(a, b, p);
      NodesAppend(a, b);
    }

    /** Take out an element; it keeps its own links, which no longer matter. */
    method Unlink(x: Element<T>, ghost a: List<Element<T>>, ghost b: List<Element<T>>)
      requires Valid() && elements == CText.Append(a, Cons(x, b))
      modifies `elements, `nodes, `numOfElements, pre`next, nodes`next, nodes`previous, post`previous
      ensures Valid() && elements == CText.Append(a, b) && nodes == old(nodes) - {x}
      ensures x.next == old(x.next) == FirstOr(b, post) && x.previous == old(x.previous) == LastOr(pre, a)
      ensures Pointers(a) == old(Pointers(a)) && Pointers(b) == old(Pointers(b))
      ensures old(Contents()) == CText.Append(Pointers(a), Cons(x.pointer, Pointers(b))) && Contents() == CText.Append(Pointers(a), Pointers(b))
    {
      hide Linked;
      Apart(x, a, b);
      PointersAppend(a, Cons(x, b));
      Bypass(x, a, b);
      PointersAppend(a, b);
      SizeAppend(a, Cons(x, b));
      SizeAppend(a, b);
      elements, nodes, numOfElements := CText.Append(a, b), nodes - {x}, numOfElements - 1;
    }

    lemma Neighbours(x: Element<T>, a: List<Element<T>>, b: List<Element<T>>)
      requires Valid() && elements == CText.Append(a, Cons(x, b))
      ensures x in nodes && x.next == FirstOr(b, post) && x.previous == LastOr(pre, a)
    {
      Apart(x, a, b);
      Joined(pre, a, x, b, post);
      LastIn(pre, a, x);
      LastIn(x, b, post);
    }

    method RemoveFromBeginning() returns (pointer: Option<T>)
      requires Valid()
      modifies `elements, `nodes, `numOfElements, `current, pre`next, nodes`next, nodes`previous, post`previous
      ensures Valid() && nodes <= old(nodes)
      ensures match old(Contents())
              case Nil => pointer == None && Contents() == Nil && current == old(current)
              case Cons(p, t) => pointer == p && Contents() == t && current == if old(current) == old(pre.next) then pre else old(current)
    {
      hide Linked;
      if numOfElements == 0 { return None; }
      Neighbours(elements.head, Nil, elements.tail);
      FirstLast();
      var element := pre.next;
      if element == current { current := pre; }
      pointer := element.pointer;
      Unlink(element, Nil, elements.tail);
    }

    lemma FirstLast()
      requires Valid()
      ensures pre.next == FirstOr(elements, post) && post.previous == LastOr(pre, elements)
    {
      LastIn(pre, elements, post);
    }

    method RemoveFromEnd() returns (pointer: Option<T>)
      requires Valid()
      modifies `elements, `nodes, `numOfElements, `current, pre`next, nodes`next, nodes`previous, post`previous
      ensures Valid() && nodes <= old(nodes)
      ensures if old(Contents()) == Nil then pointer == None && Contents() == Nil && current == old(current)
              else old(Contents()) == CText.Append(Contents(), Cons(pointer, Nil)) && current == if old(current) == old(post.previous) then post else old(current)
    {
      hide Linked;
      if numOfElements == 0 { return None; }
      FirstLast();
      ghost var a := SplitLast(pre, elements);
      var element := post.previous;
      if element == current { current := post; }
      pointer := element.pointer;
      Unlink(element, a, Nil);
      AppendNil(Pointers(a));
    }

    /** Search from the end. A removed element under the cursor is replaced by the stand-in, with its links. */
    method RemoveFromList(pointer: Option<T>) returns (r: Option<T>)
      requires Valid()
      modifies `elements, `nodes, `numOfElements, `current, pre`next, nodes`next, nodes`previous, post`previous, deleted`next, deleted`previous
      ensures Valid() && nodes <= old(nodes)
      ensures Contents() == WithoutLast(old(Contents()), pointer) && r == if Has(old(Contents()), pointer) then pointer else None
      ensures if old(current) in old(nodes) - nodes then current == deleted && deleted.next == old(current.next) && deleted.previous == old(current.previous)
              else current == old(current)
    {
      var element, a, b := FindLast(pointer);
      if element == pre {
        NoneDropped(Contents(), pointer);
        return None;
      }
      LastDropped(Pointers(a), pointer, Pointers(b));
      PointersAppend(a, Cons(element, b));
      Neighbours(element, a, b);
      if element == current { StandIn(element, a, b); }
      Unlink(element, a, b);
      return pointer;
    }

    /** The last element with this pointer, or the element before the first. */
    method FindLast(pointer: Option<T>) returns (element: Element<T>, ghost a: List<Element<T>>, ghost b: List<Element<T>>)
      requires Valid()
      ensures element == pre ==> !Has(Contents(), pointer)
      ensures element != pre ==> elements == CText.Append(a, Cons(element, b)) && element.pointer == pointer && !Has(Pointers(b), pointer)
    {
      hide Linked;
      FirstLast();
      element, b := post.previous, Nil;
      ghost var l := elements;
      AppendNil(elements);
      while element != pre && element.pointer != pointer
        invariant elements == CText.Append(l, b) && element == LastOr(pre, l) && !Has(Pointers(b), pointer)
        invariant Nodes(b) <= nodes
        decreases Size(l)
      {
        a := SplitLast(pre, l);
        SizeAppend(a, Cons(element, Nil));
        AppendMore(a, element, b);
        Neighbours(element, a, b);
        element, l, b := element.previous, a, Cons(element, b);
      }
      if element == pre {
        EmptyBefore(l, b);
        a := Nil;
      } else {
        a := SplitLast(pre, l);
        AppendMore(a, element, b);
      }
    }

    lemma EmptyBefore(l: List<Element<T>>, b: List<Element<T>>)
      requires Valid() && elements == CText.Append(l, b) && LastOr(pre, l) == pre
      ensures l == Nil
    {
      if l.Cons? {
        NodesAppend(l, b);
        NodesAppend(elements, Cons(post, Nil));
        var a := SplitLast(pre, l);
        NodesAppend(a, Cons(pre, Nil));
      }
    }

    method StandIn(element: Element<T>, ghost a: List<Element<T>>, ghost b: List<Element<T>>)
      requires Valid() && elements == CText.Append(a, Cons(element, b))
      modifies `current, deleted`next, deleted`previous
      ensures Valid() && Contents() == old(Contents()) && Pointers(a) == old(Pointers(a)) && Pointers(b) == old(Pointers(b)) && current == deleted && deleted.next == FirstOr(b, post) && deleted.previous == LastOr(pre, a)
    {
      Neighbours(element, a, b);
      Apart(element, a, b);
      deleted.previous := element.previous;
      deleted.next := element.next;
      current := deleted;
      PointersFrame(a);
      PointersFrame(b);
    }

    /** The elements are let go one by one. */
    method RemoveAll()
      requires Valid()
      modifies `elements, `nodes, `numOfElements, pre`next, post`previous
      ensures Valid() && Contents() == Nil && nodes == {}
    {
      var element := pre.next;
      ghost var a, b: List<Element<T>> := Nil, elements;
      FirstLast();
      while element != post
        invariant Valid() && elements == CText.Append(a, b) && element == FirstOr(b, post)
        decreases b
      {
        Neighbours(element, a, b.tail);
        AppendMore(a, element, b.tail);
        a, b := CText.Append(a, Cons(element, Nil)), b.tail;
        element := element.next;
      }
      pre.next := post;
      post.previous := pre;
      elements, nodes, numOfElements := Nil, {}, 0;
    }

    // ----- the cursor -----

    /** The cursor stands on an element, with `a` before it and `b` behind. */
    ghost predicate On(a: List<Element<T>>, b: List<Element<T>>)
      reads `elements, `current
    {
      elements == CText.Append(a, Cons(current, b))
    }

    /** The cursor stands where `b` comes next, on an element or on the stand-in for one. */
    ghost predicate Ahead(a: List<Element<T>>, b: List<Element<T>>)
      reads `elements, `current, current
    {
      elements == CText.Append(a, b) && current.next == FirstOr(b, post)
    }

    lemma OnAhead(a: List<Element<T>>, b: List<Element<T>>)
      requires Valid() && On(a, b)
      ensures Ahead(CText.Append(a, Cons(current, Nil)), b) && current in nodes && current.previous == LastOr(pre, a)
    {
      Neighbours(current, a, b);
      AppendMore(a, current, b);
    }

    method FirstInList() returns (pointer: Option<T>)
      requires Valid()
      modifies `current
      ensures Valid() && Contents() == old(Contents()) && pointer == current.pointer
      ensures if elements.Nil? then current == pre && pointer == None else On(Nil, elements.tail) && pointer == Contents().head
    {
      FirstLast();
      if elements.Cons? {
        Neighbours(elements.head, Nil, elements.tail);
        if elements.tail.Cons? {
          Neighbours(elements.tail.head, Cons(elements.head, Nil), elements.tail.tail);
        }
      }
      current := pre.next.next.previous;
      pointer := current.pointer;
    }

    method LastInList() returns (pointer: Option<T>)
      requires Valid()
      modifies `current
      ensures Valid() && Contents() == old(Contents()) && pointer == current.pointer
      ensures current == LastOr(post, elements) && (elements.Nil? ==> pointer == None)
    {
      FirstLast();
      if elements.Cons? {
        ghost var a := SplitLast(pre, elements);
        Neighbours(post.previous, a, Nil);
        if a.Cons? {
          ghost var a2 := SplitLast(pre, a);
          AppendMore(a2, LastOr(pre, a), Cons(post.previous, Nil));
          Neighbours(LastOr(pre, a), a2, Cons(post.previous, Nil));
        }
      }
      current := post.previous.previous.next;
      pointer := current.pointer;
    }

    /** The element that comes next, or the end. */
    method NextInList(ghost a: List<Element<T>>, ghost b: List<Element<T>>) returns (pointer: Option<T>)
      requires Valid() && Ahead(a, b)
      modifies `current
      ensures Valid() && Contents() == old(Contents()) && pointer == current.pointer && current == FirstOr(b, post)
      ensures if b.Nil? then pointer == None && Ahead(elements, Nil) else On(a, b.tail) && pointer.Some?
    {
      if b.Cons? { Neighbours(b.head, a, b.tail); }
      AppendNil(elements);
      current := current.next;
      pointer := current.pointer;
    }

    /** The element before, or the beginning. */
    method PreviousInList(ghost a: List<Element<T>>, ghost b: List<Element<T>>) returns (pointer: Option<T>)
      requires Valid() && elements == CText.Append(a, b) && current.previous == LastOr(pre, a)
      modifies `current
      ensures Valid() && Contents() == old(Contents()) && pointer == current.pointer && current == LastOr(pre, a)
      ensures pointer.None? <==> a.Nil?
    {
      if a.Cons? {
        ghost var c := SplitLast(pre, a);
        AppendMore(c, LastOr(pre, a), b);
        Neighbours(LastOr(pre, a), c, b);
      }
      current := current.previous;
      pointer := current.pointer;
    }

    method CurrentInList() returns (pointer: Option<T>)
      requires Valid()
      ensures pointer == current.pointer
    {
      pointer := current.pointer;
    }

    method ResetToBeginning()
      requires Valid()
      modifies `current
      ensures Valid() && Contents() == old(Contents()) && Ahead(Nil, elements)
    {
      FirstLast();
      current := pre;
    }

    /** The cursor stays between its neighbours, on the stand-in. A sentinel or the stand-in itself is not removed. */
    method RemoveCurrent(ghost a: List<Element<T>>, ghost b: List<Element<T>>) returns (pointer: Option<T>)
      requires Valid() && (current.pointer.Some? ==> On(a, b))
      modifies `elements, `nodes, `numOfElements, `current, pre`next, nodes`next, nodes`previous, post`previous, deleted`next, deleted`previous
      ensures Valid() && nodes <= old(nodes) && pointer == old(current.pointer)
      ensures pointer.None? ==> current == old(current) && elements == old(elements) && Contents() == old(Contents())
      ensures pointer.Some? ==> current == deleted && Ahead(a, b) && deleted.previous == LastOr(pre, a)
      ensures pointer.Some? ==> Pointers(a) == old(Pointers(a)) && Pointers(b) == old(Pointers(b)) && Contents() == CText.Append(Pointers(a), Pointers(b))
    {
      hide Linked;
      pointer := current.pointer;
      if pointer.None? { return; }
      var element := current;
      StandIn(element, a, b);
      Unlink(element, a, b);
    }

    method IsInList(pointer: Option<T>) returns (found: bool)
      requires Valid()
      ensures found == Has(Contents(), pointer)
    {
      hide Linked;
      FirstLast();
      var element := pre.next;
      ghost var a, b: List<Element<T>> := Nil, elements;
      while element != post && element.pointer != pointer
        invariant elements == CText.Append(a, b) && element == FirstOr(b, post) && Nodes(b) <= nodes
        invariant Has(Contents(), pointer) == Has(Pointers(b), pointer)
        decreases b
      {
        Neighbours(element, a, b.tail);
        AppendMore(a, element, b.tail);
        a, b := CText.Append(a, Cons(element, Nil)), b.tail;
        element := element.next;
      }
      found := element != post;
      PostBehind(a, b);
    }

    /** The end is not an element. */
    lemma PostBehind(a: List<Element<T>>, b: List<Element<T>>)
      requires Valid() && elements == CText.Append(a, b)
      ensures FirstOr(b, post) == post <==> b.Nil?
    {
      NodesAppend(a, b);
      NodesAppend(elements, Cons(post, Nil));
      DistinctAppend(elements, Cons(post, Nil));
    }
  }

  /** Add to the end of a list that shares nothing with the elements of `l`. */
  method AddElsewhere<T>(copy: GenericList<T>, pointer: Option<T>, ghost l: List<Element<T>>, ghost ns: set<Element<T>>)
    requires copy.Valid() && Nodes(l) <= ns && ns !! copy.nodes + {copy.pre, copy.post, copy.deleted} && pointer.Some?
    modifies copy, copy.pre, copy.post, copy.nodes
    ensures copy.Valid() && fresh(copy.nodes - old(copy.nodes)) && copy.Contents() == CText.Append(old(copy.Contents()), Cons(pointer, Nil))
    ensures Pointers(l) == old(Pointers(l))
  {
    copy.AddToEnd(pointer);
    PointersFrame(l);
  }

  /** A list made here shares nothing with an older one. */
  ghost predicate Separate<T>(list: GenericList<T>, copy: GenericList<T>)
    reads list, copy
  {
    list != copy && list.nodes + {list.pre, list.post, list.deleted} !! copy.nodes + {copy.pre, copy.post, copy.deleted}
  }

  /** Copy one element and go on to the next. */
  method CopyNext<T>(list: GenericList<T>, copy: GenericList<T>, element: Element<T>, ghost a: List<Element<T>>, ghost t: List<Element<T>>)
    returns (next: Element<T>)
    requires list.Valid() && copy.Valid() && Separate(list, copy) && list.elements == CText.Append(a, Cons(element, t))
    modifies copy, copy.pre, copy.post, copy.nodes
    ensures list.Valid() && copy.Valid() && fresh(copy.nodes - old(copy.nodes)) && list.elements == CText.Append(CText.Append(a, Cons(element, Nil)), t)
    ensures next == FirstOr(t, list.post) && list.Contents() == old(list.Contents())
    ensures CText.Append(copy.Contents(), Pointers(t)) == CText.Append(old(copy.Contents()), old(Pointers(Cons(element, t))))
  {
    hide Linked, Distinct;
    list.Neighbours(element, a, t);
    list.Apart(element, a, t);
    AppendMore(a, element, t);
    AppendMore(copy.Contents(), element.pointer, Pointers(t));
    AddElsewhere(copy, element.pointer, t, list.nodes);
    PointersFrame(list.elements);
    next := element.next;
  }

  /** copy_list: a new list with the same pointers. */
  method CopyList<T>(list: GenericList<T>) returns (copy: GenericList<T>)
    requires list.Valid()
    ensures fresh(copy) && copy.Valid() && copy.Contents() == list.Contents()
  {
    hide Linked, Distinct;
    copy := new GenericList();
    list.FirstLast();
    var element := list.pre.next;
    ghost var a, b: List<Element<T>> := Nil, list.elements;
    ghost var all := list.Contents();
    while element != list.post
      invariant fresh(copy) && fresh(copy.pre) && fresh(copy.post) && fresh(copy.deleted) && fresh(copy.nodes) && copy.Valid()
      invariant list.Valid() && Separate(list, copy) && list.elements == CText.Append(a, b) && element == FirstOr(b, list.post)
      invariant CText.Append(copy.Contents(), Pointers(b)) == all == list.Contents()
      decreases b
    {
      element := CopyNext(list, copy, element, a, b.tail);
      a, b := CText.Append(a, Cons(b.head, Nil)), b.tail;
    }
    list.PostBehind(a, b);
    AppendNil(copy.Contents());
  }

  /** One stop of a walk: perhaps remove the current element, then go on to the next. */
  method Stop<T>(list: GenericList<T>, drop: bool, ghost a: List<Element<T>>, ghost b: List<Element<T>>) returns (p: Option<T>, ghost a': List<Element<T>>)
    requires list.Valid() && list.On(a, b)
    modifies list, list.pre, list.post, list.deleted, list.nodes
    ensures list.Valid() && list.nodes <= old(list.nodes) && list.elements == CText.Append(a', b) && p == list.current.pointer
    ensures if b.Nil? then p.None? else list.On(a', b.tail) && p.Some?
    ensures Pointers(b) == old(Pointers(b))
    ensures Pointers(a') == if drop then old(Pointers(a)) else CText.Append(old(Pointers(a)), Cons(old(list.current.pointer), Nil))
  {
    hide Linked;
    list.OnAhead(a, b);
    list.Apart(list.current, a, b);
    PointersAppend(a, Cons(list.current, Nil));
    if drop {
      var q := list.RemoveCurrent(a, b);
      a' := a;
    } else {
      a' := CText.Append(a, Cons(list.current, Nil));
    }
    NodesAppend(a, Cons(old(list.current), Nil));
    p := list.NextInList(a', b);
    PointersFrame(b);
    PointersFrame(a');
  }

  /** A getFirst/getNext walk that removes the current element at the marked stops visits every element once, in order,
      and leaves exactly the unmarked ones, in order. */
  method WalkRemoving<T>(list: GenericList<T>, drop: seq<bool>) returns (visited: List<Option<T>>)
    requires list.Valid()
    modifies list, list.pre, list.post, list.deleted, list.nodes
    ensures list.Valid() && visited == old(list.Contents()) && list.Contents() == Kept(old(list.Contents()), drop, 0)
  {
    hide Linked;
    ghost var all := list.Contents();
    var p := list.FirstInList();
    visited := Nil;
    var i := 0;
    ghost var a, b: List<Element<T>> := Nil, list.elements;
    while p.Some?
      invariant list.Valid() && list.nodes <= old(list.nodes) && list.elements == CText.Append(a, b)
      invariant p == list.current.pointer && if b.Nil? then p.None? else p.Some? && list.On(a, b.tail)
      invariant CText.Append(visited, Pointers(b)) == all
      invariant CText.Append(Pointers(a), Kept(Pointers(b), drop, i)) == Kept(all, drop, 0)
      decreases b
    {
      ghost var c, pa := b.tail, Pointers(a);
      list.OnAhead(a, c);
      SameTail(a, b, Cons(list.current, c));
      AppendMore(visited, p, Pointers(c));
      visited := CText.Append(visited, Cons(p, Nil));
      AppendMore(pa, p, Kept(Pointers(c), drop, i + 1));
      p, a := Stop(list, i < |drop| && drop[i], a, c);
      b := c;
      i := i + 1;
    }
    AppendNil(visited);
    AppendNil(Pointers(a));
    AppendNil(a);
  }

  lemma {:induction false} SameTail<X>(a: List<X>, b: List<X>, c: List<X>)
    requires CText.Append(a, b) == CText.Append(a, c)
    ensures b == c
  {
    if a.Cons? { SameTail(a.tail, b, c); }
  }
}
