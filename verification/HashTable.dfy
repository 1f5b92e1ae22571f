/** The hash table of hashtable.c on the heap: an array of chains of pairs, relinked in place. */
module HashTables {
  import opened CText
  import opened HashModel
  import opened HashRuns
  import opened BucketSearch

  class Pair<K, V> {
    var key: K
    var value: V
    var next: Pair?<K, V>

    constructor (key: K, value: V, next: Pair?<K, V>)
      ensures this.key == key && this.value == value && this.next == next
    {
      this.key, this.value, this.next := key, value, next;
    }
  }

  ghost function NodesOf<K, V>(l: List<Pair<K, V>>): set<Pair<K, V>> {
    match l
    case Nil => {}
    case Cons(p, t) => {p} + NodesOf(t)
  }

  /** The chain from `p` on runs through the pairs of `l` and ends. */
  ghost predicate Linked<K, V>(p: Pair?<K, V>, l: List<Pair<K, V>>)
    reads NodesOf(l)
  {
    match l
    case Nil => p == null
    case Cons(n, t) => p == n && Linked(n.next, t)
  }

  ghost function EntriesOf<K, V>(l: List<Pair<K, V>>): List<Entry<K, V>>
    reads NodesOf(l)
  {
    match l
    case Nil => Nil
    case Cons(n, t) => Cons(Entry(n.key, n.value), EntriesOf(t))
  }

  /** A chain none of whose pairs has changed. */
  twostate lemma {:induction false} ChainFrame<K, V>(p: Pair?<K, V>, new l: List<Pair<K, V>>)
    requires old(allocated(l))
    requires forall n :: n in NodesOf(l) ==> old(allocated(n)) && unchanged(n)
    ensures Linked(p, l) == old(Linked(p, l)) && EntriesOf(l) == old(EntriesOf(l))
    decreases l
  {
    if l.Cons? {
      assert l.head in NodesOf(l);
      ChainFrame(old(l.head.next), l.tail);
    }
  }

  /** A pair of a chain holds one of its entries. */
  lemma {:induction false} NodeEntry<K, V>(l: List<Pair<K, V>>, n: Pair<K, V>)
    requires n in NodesOf(l)
    ensures Entry(n.key, n.value) in Sum(One, EntriesOf(l))
  {
    if n != l.head { NodeEntry(l.tail, n); }
  }

  /** The first pair with an equal key. */
  ghost function FirstNode<K, V, R>(f: Keys<K, R>, l: List<Pair<K, V>>, key: K): (r: Pair?<K, V>)
    reads NodesOf(l)
    ensures r == null <==> Find(f, EntriesOf(l), key).None?
    ensures r != null ==> r in NodesOf(l) && Find(f, EntriesOf(l), key) == Some(Entry(r.key, r.value))
  {
    match l
    case Nil => null
    case Cons(n, t) => if Same(f, key, n.key) then n else FirstNode(f, t, key)
  }

  /** Pairs of a bucket without equal keys are different. */
  lemma HeadDiffers<K, V, R>(f: Keys<K, R>, l: List<Pair<K, V>>, i: nat, n: nat)
    requires n > 0 && l.Cons? && InBucket(f, EntriesOf(l), i, n)
    ensures l.head !in NodesOf(l.tail)
  {
    if l.head in NodesOf(l.tail) {
      NodeEntry(l.tail, l.head);
      SumFound(f, EntriesOf(l.tail), i, n, Entry(l.head.key, l.head.value));
    }
  }

  // The same in the state before.

  twostate lemma {:induction false} OldNodeEntry<K, V>(l: List<Pair<K, V>>, new n: Pair<K, V>)
    requires old(allocated(n))
    requires n in NodesOf(l)
    ensures old(Entry(n.key, n.value)) in Sum(One, old(EntriesOf(l)))
  {
    if n != l.head { OldNodeEntry(l.tail, n); }
  }

  twostate lemma HeadApart<K, V, R>(f: Keys<K, R>, new l: List<Pair<K, V>>, new i: nat, new n: nat)
    requires old(allocated(l))
    requires n > 0 && l.Cons? && old(InBucket(f, EntriesOf(l), i, n))
    ensures l.head !in NodesOf(l.tail)
  {
    if l.head in NodesOf(l.tail) {
      OldNodeEntry(l.tail, l.head);
      SumFound(f, old(EntriesOf(l.tail)), i, n, old(Entry(l.head.key, l.head.value)));
    }
  }

  /** After a new key and value were stored in the first pair with an equal key. */
  twostate lemma {:induction false} Overwritten<K, V, R>(f: Keys<K, R>, new p: Pair?<K, V>, new l: List<Pair<K, V>>, new i: nat, new n: nat, new x: Pair<K, V>, new key: K, new value: V)
    requires old(allocated(p)) && old(allocated(l)) && old(allocated(x)) && old(allocated(key))
    requires n > 0 && old(Linked(p, l)) && old(InBucket(f, EntriesOf(l), i, n)) && old(FirstNode(f, l, key)) == x
    requires x.key == key && x.value == value && x.next == old(x.next)
    requires forall y :: y in NodesOf(l) && y != x ==> old(allocated(y)) && unchanged(y)
    ensures Linked(p, l) && EntriesOf(l) == Replace(f, old(EntriesOf(l)), key, value)
  {
    HeadApart(f, l, i, n);
    if old(Same(f, key, l.head.key)) {
      ChainFrame(old(l.head.next), l.tail);
    } else {
      Overwritten(f, old(l.head.next), l.tail, i, n, x, key, value);
    }
  }

  /** The pairs without the first one that has an equal key. */
  ghost function DropNode<K, V>(l: List<Pair<K, V>>, x: Pair<K, V>): (r: List<Pair<K, V>>)
    ensures NodesOf(r) <= NodesOf(l)
  {
    match l
    case Nil => Nil
    case Cons(n, t) => if n == x then t else Cons(n, DropNode(t, x))
  }

  /** `rest` is the part of the chain behind `prev`. */
  ghost predicate Behind<K, V>(l: List<Pair<K, V>>, prev: Pair<K, V>, rest: List<Pair<K, V>>) {
    l.Cons? && ((l.head == prev && l.tail == rest) || Behind(l.tail, prev, rest))
  }

  lemma {:induction false} BehindNext<K, V>(l: List<Pair<K, V>>, prev: Pair<K, V>, rest: List<Pair<K, V>>)
    requires Behind(l, prev, rest) && rest.Cons?
    ensures Behind(l, rest.head, rest.tail)
  {
    if !(l.head == prev && l.tail == rest) { BehindNext(l.tail, prev, rest); }
  }

  lemma {:induction false} BehindIn<K, V>(l: List<Pair<K, V>>, prev: Pair<K, V>, rest: List<Pair<K, V>>)
    requires Behind(l, prev, rest)
    ensures prev in NodesOf(l) && NodesOf(rest) <= NodesOf(l.tail)
  {
    if !(l.head == prev && l.tail == rest) { BehindIn(l.tail, prev, rest); }
  }

  /** After the pair before `x` was linked to the one behind. */
  twostate lemma {:induction false} Bypassed<K, V, R>(f: Keys<K, R>, new p: Pair?<K, V>, new l: List<Pair<K, V>>, new i: nat, new n: nat, new prev: Pair<K, V>, new rest: List<Pair<K, V>>, new x: Pair<K, V>, new key: K)
    requires old(allocated(p)) && old(allocated(l)) && old(allocated(prev)) && old(allocated(rest)) && old(allocated(x)) && old(allocated(key))
    requires n > 0 && old(Linked(p, l)) && old(InBucket(f, EntriesOf(l), i, n)) && old(FirstNode(f, l, key)) == x
    requires Behind(l, prev, rest) && rest.Cons? && rest.head == x
    requires prev.key == old(prev.key) && prev.value == old(prev.value) && prev.next == old(x.next)
    requires forall y :: y in NodesOf(l) && y != prev ==> old(allocated(y)) && unchanged(y)
    ensures Linked(p, DropNode(l, x)) && EntriesOf(DropNode(l, x)) == Without(f, old(EntriesOf(l)), key)
    decreases l
  {
    HeadApart(f, l, i, n);
    BehindIn(l, prev, rest);
    assert x in NodesOf(rest);
    if l.head == prev && l.tail == rest {
      HeadApart(f, l.tail, i, n);
      ChainFrame(old(x.next), l.tail.tail);
    } else {
      BehindIn(l.tail, prev, rest);
      Bypassed(f, old(l.head.next), l.tail, i, n, prev, rest, x, key);
    }
  }

  /** An array of chains with the pairs `c`, all from the set `ns`. */
  ghost predicate Holds<K, V>(a: array<Pair?<K, V>>, c: seq<List<Pair<K, V>>>, ns: set<Pair<K, V>>)
    reads a, ns
  {
    a.Length == |c| && forall i :: 0 <= i < |c| ==> NodesOf(c[i]) <= ns && Linked(a[i], c[i])
  }

  ghost function BucketsOf<K, V>(c: seq<List<Pair<K, V>>>, ns: set<Pair<K, V>>): (b: Buckets<K, V>)
    requires forall i :: 0 <= i < |c| ==> NodesOf(c[i]) <= ns
    reads ns
    ensures |b| == |c| && forall i :: 0 <= i < |b| ==> b[i] == EntriesOf(c[i])
  {
    seq(|c|, i requires 0 <= i < |c| && NodesOf(c[i]) <= ns reads ns => EntriesOf(c[i]))
  }

  /** Move one pair to the front of its new chain; the chain it came from goes on with `rest`. */
  method MovePair<K, V, R>(f: Keys<K, R>, pair: Pair<K, V>, ghost rest: List<Pair<K, V>>, ghost left: set<Pair<K, V>>,
                           a: array<Pair?<K, V>>, ghost c: seq<List<Pair<K, V>>>, ghost ns: set<Pair<K, V>>)
    returns (ghost c': seq<List<Pair<K, V>>>)
    requires a.Length > 0 && Holds(a, c, ns) && pair !in ns && pair !in NodesOf(rest) && NodesOf(rest) <= left
    modifies a, pair`next
    ensures Holds(a, c', ns + {pair}) && BucketsOf(c', ns + {pair}) == Pushed(f, old(BucketsOf(c, ns)), Entry(pair.key, pair.value))
    ensures |c'| == |c|
    ensures Linked(old(pair.next), rest) == old(Linked(pair.next, rest)) && EntriesOf(rest) == old(EntriesOf(rest))
  {
    ghost var b := Pushed(f, BucketsOf(c, ns), Entry(pair.key, pair.value));
    var hashValue := f.hash(pair.key) % a.Length;
    pair.next := a[hashValue];
    a[hashValue] := pair;
    c' := c[hashValue := Cons(pair, c[hashValue])];
    forall j | 0 <= j < |c| ensures NodesOf(c'[j]) <= ns + {pair} && Linked(a[j], c'[j]) && EntriesOf(c'[j]) == b[j] {
      ChainFrame(old(a[j]), c[j]);
    }
    ChainFrame(old(pair.next), rest);
    assert BucketsOf(c', ns + {pair}) == b;
  }

  /** Move the pairs of one chain to the fronts of their new ones. */
  method MoveChain<K, V, R>(f: Keys<K, R>, p: Pair?<K, V>, ghost l: List<Pair<K, V>>, ghost left: set<Pair<K, V>>, ghost i: nat, ghost m: nat,
                            a: array<Pair?<K, V>>, ghost c: seq<List<Pair<K, V>>>, ghost ns: set<Pair<K, V>>)
    returns (ghost c': seq<List<Pair<K, V>>>)
    requires a.Length > 0 && Holds(a, c, ns) && Linked(p, l) && NodesOf(l) == left && left !! ns && m > 0 && InBucket(f, EntriesOf(l), i, m)
    modifies a, left`next
    ensures Holds(a, c', ns + left) && BucketsOf(c', ns + left) == Spread(f, old(EntriesOf(l)), old(BucketsOf(c, ns)))
  {
    hide Spread;
    var pair := p;
    ghost var rest, moved := l, ns;
    ghost var goal := Spread(f, EntriesOf(l), BucketsOf(c, ns));
    c' := c;
    while pair != null
      invariant Linked(pair, rest) && NodesOf(rest) !! moved && NodesOf(rest) <= left && moved + NodesOf(rest) == ns + left
      invariant InBucket(f, EntriesOf(rest), i, m) && Holds(a, c', moved)
      invariant Spread(f, EntriesOf(rest), BucketsOf(c', moved)) == goal
      decreases rest
    {
      var nextPair := pair.next;
      HeadDiffers(f, rest, i, m);
      SpreadStep(f, EntriesOf(rest), BucketsOf(c', moved));
      c' := MovePair(f, pair, rest.tail, left, a, c', moved);
      rest, moved := rest.tail, moved + {pair};
      pair := nextPair;
    }
    SpreadStep(f, EntriesOf(rest), BucketsOf(c', moved));
  }

  lemma SpreadStep<K, V, R>(f: Keys<K, R>, l: List<Entry<K, V>>, t: Buckets<K, V>)
    requires |t| > 0
    ensures Spread(f, l, t) == if l.Nil? then t else Spread(f, l.tail, Pushed(f, t, l.head))
  {
  }

  /** Move the pairs of all chains of `a` to the empty array `b`. */
  method MoveAll<K, V, R>(f: Keys<K, R>, a: array<Pair?<K, V>>, ghost cs: seq<List<Pair<K, V>>>, ghost ns: set<Pair<K, V>>, b: array<Pair?<K, V>>)
    returns (ghost c: seq<List<Pair<K, V>>>)
    requires a != b && a.Length > 0 && b.Length > 0 && Holds(a, cs, ns) && IsTable(f, BucketsOf(cs, ns))
    requires forall i, j :: 0 <= i < j < |cs| ==> NodesOf(cs[i]) !! NodesOf(cs[j])
    requires forall i :: 0 <= i < b.Length ==> b[i] == null
    modifies b, ns`next
    ensures Holds(b, c, ns) && BucketsOf(c, ns) == SpreadAll(f, old(BucketsOf(cs, ns)), 0, Empty(b.Length))
  {
    hide IsTable;
    ghost var s, moved: set<Pair<K, V>> := BucketsOf(cs, ns), {};
    ghost var goal := SpreadAll(f, s, 0, Empty(b.Length));
    c := seq(b.Length, _ => Nil);
    AllEmpty(b, c);
    var i := 0;
    while i < a.Length
      invariant i <= a.Length && moved <= ns && Holds(b, c, moved)
      invariant forall j :: i <= j < |cs| ==> NodesOf(cs[j]) !! moved && Linked(a[j], cs[j]) && EntriesOf(cs[j]) == s[j]
      invariant SpreadAll(f, s, i, BucketsOf(c, moved)) == goal
    {
      InItsBucket(f, s, i);
      c := MoveNext(f, a, cs, ns, i, b, c, moved);
      moved := moved + NodesOf(cs[i]);
      i := i + 1;
    }
    Wider(b, c, moved, ns);
  }

  /** Move the pairs of chain `i`; the chains behind it stay. */
  method MoveNext<K, V, R>(f: Keys<K, R>, a: array<Pair?<K, V>>, ghost cs: seq<List<Pair<K, V>>>, ghost ns: set<Pair<K, V>>, i: nat,
                           b: array<Pair?<K, V>>, ghost c: seq<List<Pair<K, V>>>, ghost moved: set<Pair<K, V>>)
    returns (ghost c': seq<List<Pair<K, V>>>)
    requires a != b && b.Length > 0 && i < a.Length == |cs| && Holds(b, c, moved)
    requires forall j :: 0 <= j < |cs| ==> NodesOf(cs[j]) <= ns
    requires forall j :: i < j < |cs| ==> NodesOf(cs[i]) !! NodesOf(cs[j])
    requires NodesOf(cs[i]) !! moved && Linked(a[i], cs[i]) && InBucket(f, EntriesOf(cs[i]), i, a.Length)
    modifies b, NodesOf(cs[i])`next
    ensures Holds(b, c', moved + NodesOf(cs[i])) && BucketsOf(c', moved + NodesOf(cs[i])) == Spread(f, old(EntriesOf(cs[i])), old(BucketsOf(c, moved)))
    ensures forall j :: i < j < |cs| ==> Linked(a[j], cs[j]) == old(Linked(a[j], cs[j])) && EntriesOf(cs[j]) == old(EntriesOf(cs[j]))
  {
    c' := MoveChain(f, a[i], cs[i], NodesOf(cs[i]), i, a.Length, b, c, moved);
    forall j | i < j < |cs| ensures Linked(a[j], cs[j]) == old(Linked(a[j], cs[j])) && EntriesOf(cs[j]) == old(EntriesOf(cs[j])) {
      ChainFrame(a[j], cs[j]);
    }
  }

  lemma InItsBucket<K, V, R>(f: Keys<K, R>, t: Buckets<K, V>, i: nat)
    requires IsTable(f, t) && i < |t|
    ensures InBucket(f, t[i], i, |t|)
  {
  }

  lemma AllEmpty<K, V>(b: array<Pair?<K, V>>, c: seq<List<Pair<K, V>>>)
    requires b.Length == |c| && forall i :: 0 <= i < |c| ==> b[i] == null && c[i] == Nil
    ensures Holds(b, c, {}) && BucketsOf(c, {}) == Empty(|c|)
  {
    assert BucketsOf(c, {}) == Empty(|c|);
  }

  lemma Wider<K, V>(a: array<Pair?<K, V>>, c: seq<List<Pair<K, V>>>, ns: set<Pair<K, V>>, ms: set<Pair<K, V>>)
    requires Holds(a, c, ns) && ns <= ms
    ensures Holds(a, c, ms) && BucketsOf(c, ms) == BucketsOf(c, ns)
  {
  }

  /** The bucket and pair an iteration has reached, and the pairs of its chain from there on. */
  class HashTableIterator<K, V> {
    var bucket: nat
    var pair: Pair?<K, V>
    ghost var rest: List<Pair<K, V>>

    constructor ()
      ensures bucket == 0
    {
      bucket, pair, rest := 0, null, Nil;
    }
  }

  class HashTable<K(!new, ==), V(==), R(==)> {
    const f: Keys<K, R>
    const d: Release
    var bucketArray: array<Pair?<K, V>>
    var numOfBuckets: nat
    var numOfElements: int
    /** The pairs of each bucket's chain, all pairs of the table, and what the deallocators were given. */
    ghost var chains: seq<List<Pair<K, V>>>
    ghost var nodes: set<Pair<K, V>>
    ghost var freed: multiset<Part<K, V>>

    ghost predicate Chained()
      reads `bucketArray, `numOfBuckets, `chains, `nodes, bucketArray, nodes
    {
      bucketArray.Length == numOfBuckets > 0 && Holds(bucketArray, chains, nodes)
    }

    ghost function Buckets(): (b: Buckets<K, V>)
      requires Chained()
      reads `bucketArray, `numOfBuckets, `chains, `nodes, bucketArray, nodes
      ensures |b| == |chains| && forall i :: 0 <= i < |b| ==> b[i] == EntriesOf(chains[i])
    {
      BucketsOf(chains, nodes)
    }

    ghost predicate Valid()
      reads `bucketArray, `numOfBuckets, `chains, `nodes, `numOfElements, bucketArray, nodes
    {
      && Respects(f) && Chained() && IsTable(f, Buckets()) && numOfElements == |All(Buckets())|
    }

    ghost function Model(): State<K, V>
      requires Chained()
      reads this, bucketArray, nodes
    {
      State(Buckets(), numOfElements, freed)
    }

    constructor (f: Keys<K, R>, d: Release, n: nat)
      requires n > 0 && Respects(f)
      ensures Valid() && fresh(bucketArray) && fresh(nodes) && this.f == f && this.d == d
      ensures Model() == State(Empty(n), 0, multiset{})
    {
      this.f, this.d := f, d;
      bucketArray := new Pair?<K, V>[n](_ => null);
      numOfBuckets, numOfElements := n, 0;
      chains := seq(n, _ => Nil);
      nodes, freed := {}, multiset{};
      new;
      assert Buckets() == Empty(n);
      EmptySums<K, V, Entry<K, V>>(One, n, n);
    }

    /** Walk the chain of the key's bucket to the first pair with an equal key. */
    method FindPair(key: K) returns (pair: Pair?<K, V>)
      requires Valid()
      ensures pair == FirstNode(f, chains[Slot(f, Buckets(), key)], key)
      ensures pair != null ==> pair in nodes
    {
      pair := bucketArray[f.hash(key) % numOfBuckets];
      ghost var rest := chains[f.hash(key) % numOfBuckets];
      ghost var goal := FirstNode(f, rest, key);
      while pair != null && !Same(f, key, pair.key)
        invariant NodesOf(rest) <= nodes && Linked(pair, rest) && FirstNode(f, rest, key) == goal
        decreases rest
      {
        pair, rest := pair.next, rest.tail;
      }
    }

    /** HashTableGet */
    method Get(key: K) returns (value: Option<V>)
      requires Valid()
      ensures value == match Lookup(f, Buckets(), key) case None => None case Some(e) => Some(e.value)
    {
      var pair := FindPair(key);
      value := if pair == null then None else Some(pair.value);
    }

    /** Store in a pair that has an equal key. */
    method StoreIn(pair: Pair<K, V>, key: K, value: V)
      requires Valid() && pair == FirstNode(f, chains[Slot(f, Buckets(), key)], key)
      modifies pair`key, pair`value
      ensures Chained() && Buckets() == HashModel.Put(f, old(Buckets()), key, value)
    {
      ghost var b, i := HashModel.Put(f, Buckets(), key, value), Slot(f, Buckets(), key);
      if pair.key != key { pair.key := key; }
      if pair.value != value { pair.value := value; }
      forall j | 0 <= j < |chains| ensures Linked(bucketArray[j], chains[j]) && EntriesOf(chains[j]) == b[j] {
        if j == i {
          Overwritten(f, bucketArray[j], chains[j], j, numOfBuckets, pair, key, value);
        } else {
          OtherBucket(j, pair, i);
          ChainFrame(bucketArray[j], chains[j]);
        }
      }
      assert Buckets() == b;
    }

    method Overwrite(pair: Pair<K, V>, key: K, value: V)
      requires Valid() && pair == FirstNode(f, chains[Slot(f, Buckets(), key)], key)
      modifies this`freed, pair`key, pair`value
      ensures Valid() && Model() == PutStep(f, d, old(Model()), key, value)
    {
      hide Linked;
      ghost var e := Entry(pair.key, pair.value);
      PutKeeps(f, One, Buckets(), key, value);
      freed := freed + Displaced(d, e, key, value);
      StoreIn(pair, key, value);
      SameCount(All(Buckets()), multiset{e}, old(All(Buckets())), multiset{Entry(key, value)});
    }

    /** A pair found in bucket `i` is in no other bucket. */
    twostate lemma OtherBucket(j: nat, new pair: Pair<K, V>, new i: nat)
      requires old(allocated(pair))
      requires old(Valid()) && j < old(|chains|) && i < old(|chains|) && i != j && pair in NodesOf(old(chains[i]))
      ensures pair !in NodesOf(old(chains[j]))
    {
      var n := old(|chains|);
      var e := old(Entry(pair.key, pair.value));
      OldNodeEntry(old(chains[i]), pair);
      SumFound(f, old(Buckets()[i]), i, n, e);
      if pair in NodesOf(old(chains[j])) {
        OldNodeEntry(old(chains[j]), pair);
        SumFound(f, old(Buckets()[j]), j, n, e);
      }
    }

    /** A new pair at the front of its bucket. */
    method Insert(key: K, value: V)
      requires Valid() && Lookup(f, Buckets(), key).None?
      modifies this, bucketArray
      ensures Valid() && bucketArray == old(bucketArray) && numOfBuckets == old(numOfBuckets) && fresh(nodes - old(nodes))
      ensures Model() == State(HashModel.Put(f, old(Buckets()), key, value), old(numOfElements) + 1, old(freed))
    {
      ghost var b := HashModel.Put(f, Buckets(), key, value);
      PutKeeps(f, One, Buckets(), key, value);
      Push(key, value);
      numOfElements := numOfElements + 1;
      SameCount(All(b), multiset{}, old(All(Buckets())), multiset{Entry(key, value)});
    }

    method Push(key: K, value: V)
      requires Valid() && Lookup(f, Buckets(), key).None?
      modifies `chains, `nodes, bucketArray
      ensures Chained() && fresh(nodes - old(nodes)) && Buckets() == HashModel.Put(f, old(Buckets()), key, value)
    {
      ghost var b := HashModel.Put(f, Buckets(), key, value);
      var i := f.hash(key) % numOfBuckets;
      var newPair := new Pair(key, value, bucketArray[i]);
      bucketArray[i] := newPair;
      chains := chains[i := Cons(newPair, chains[i])];
      nodes := nodes + {newPair};
      forall j | 0 <= j < |chains| ensures NodesOf(chains[j]) <= nodes && Linked(bucketArray[j], chains[j]) && EntriesOf(chains[j]) == b[j] {
        ChainFrame(old(bucketArray[j]), old(chains[j]));
      }
      assert Buckets() == b;
    }

    /** Walk to the first pair with an equal key, and remember the one before it. */
    method FindWithPrevious(key: K) returns (previousPair: Pair?<K, V>, pair: Pair?<K, V>, ghost rest: List<Pair<K, V>>)
      requires Valid()
      ensures var l := chains[Slot(f, Buckets(), key)];
              pair == FirstNode(f, l, key)
              && (pair != null ==> pair in nodes && rest.Cons? && rest.head == pair)
                 && if previousPair == null then rest == l else Behind(l, previousPair, rest) && previousPair in nodes
    {
      var i := f.hash(key) % numOfBuckets;
      pair, previousPair := bucketArray[i], null;
      ghost var l := chains[i];
      rest := l;
      ghost var goal := FirstNode(f, rest, key);
      while pair != null && !Same(f, key, pair.key)
        invariant NodesOf(rest) <= nodes && Linked(pair, rest) && FirstNode(f, rest, key) == goal
        invariant if previousPair == null then rest == l else previousPair in nodes && Behind(l, previousPair, rest)
        decreases rest
      {
        if previousPair != null { BehindNext(l, previousPair, rest); }
        previousPair := pair;
        pair, rest := pair.next, rest.tail;
      }
    }

    /** Take the first pair of a bucket out of its chain. */
    method UnlinkFirst(pair: Pair<K, V>, key: K)
      requires Valid()
      requires var l := chains[Slot(f, Buckets(), key)]; pair == FirstNode(f, l, key) && l.Cons? && l.head == pair
      modifies `chains, bucketArray
      ensures Chained() && Buckets() == HashModel.Remove(f, old(Buckets()), key)
    {
      ghost var b := HashModel.Remove(f, Buckets(), key);
      var i := f.hash(key) % numOfBuckets;
      HeadApart(f, chains[i], i, numOfBuckets);
      bucketArray[i] := pair.next;
      chains := chains[i := DropNode(chains[i], pair)];
      forall j | 0 <= j < |chains| ensures NodesOf(chains[j]) <= nodes && Linked(bucketArray[j], chains[j]) && EntriesOf(chains[j]) == b[j] {
        ChainFrame(old(bucketArray[j]), old(chains[j]));
      }
      assert Buckets() == b;
    }

    /** Take the first pair with an equal key out of its chain, behind another pair. */
    method UnlinkAfter(previousPair: Pair<K, V>, pair: Pair<K, V>, key: K, ghost rest: List<Pair<K, V>>)
      requires Valid()
      requires var l := chains[Slot(f, Buckets(), key)];
               pair == FirstNode(f, l, key) && rest.Cons? && rest.head == pair && Behind(l, previousPair, rest)
      modifies `chains, previousPair`next
      ensures Chained() && Buckets() == HashModel.Remove(f, old(Buckets()), key)
    {
      ghost var b := HashModel.Remove(f, Buckets(), key);
      ghost var i := Slot(f, Buckets(), key);
      BehindIn(chains[i], previousPair, rest);
      previousPair.next := pair.next;
      chains := chains[i := DropNode(chains[i], pair)];
      forall j | 0 <= j < |chains| ensures NodesOf(chains[j]) <= nodes && Linked(bucketArray[j], chains[j]) && EntriesOf(chains[j]) == b[j] {
        if j == i {
          Bypassed(f, bucketArray[j], old(chains[j]), j, numOfBuckets, previousPair, rest, pair, key);
        } else {
          OtherBucket(j, previousPair, i);
          ChainFrame(bucketArray[j], old(chains[j]));
        }
      }
      assert Buckets() == b;
    }

    method Unlink(previousPair: Pair?<K, V>, pair: Pair<K, V>, key: K, ghost rest: List<Pair<K, V>>)
      requires Valid()
      requires var l := chains[Slot(f, Buckets(), key)];
               pair == FirstNode(f, l, key) && rest.Cons? && rest.head == pair
               && if previousPair == null then rest == l else Behind(l, previousPair, rest) && previousPair in nodes
      modifies `chains, bucketArray, nodes`next
      ensures Chained() && Buckets() == HashModel.Remove(f, old(Buckets()), key)
    {
      if previousPair != null {
        UnlinkAfter(previousPair, pair, key, rest);
      } else {
        UnlinkFirst(pair, key);
      }
    }

    /** Drop a pair that was found. */
    method Drop(previousPair: Pair?<K, V>, pair: Pair<K, V>, key: K, ghost rest: List<Pair<K, V>>)
      requires Valid()
      requires var l := chains[Slot(f, Buckets(), key)];
               pair == FirstNode(f, l, key) && rest.Cons? && rest.head == pair
               && if previousPair == null then rest == l else Behind(l, previousPair, rest) && previousPair in nodes
      modifies `chains, `freed, `numOfElements, bucketArray, nodes`next
      ensures Valid() && Model() == State(HashModel.Remove(f, old(Buckets()), key), old(numOfElements) - 1, old(freed) + Dropped(d, Entry(pair.key, pair.value)))
    {
      hide Linked, HashModel.Remove, Dropped, IsTable, Total, NodesOf, InBucket;
      ghost var e, all := Entry(pair.key, pair.value), All(Buckets());
      RemoveKeeps(f, One, Buckets(), key);
      assert Lookup(f, Buckets(), key) == Some(e);
      freed := freed + Dropped(d, e);
      Unlink(previousPair, pair, key, rest);
      numOfElements := numOfElements - 1;
      SameCount(All(Buckets()), multiset{e}, all, multiset{});
      assert Buckets() == HashModel.Remove(f, old(Buckets()), key);
    }

    /** HashTableRemove */
    method RemoveKey(key: K)
      requires Valid()
      modifies this, bucketArray, nodes
      ensures Valid() && bucketArray == old(bucketArray) && nodes == old(nodes)
      ensures Model() == RemoveStep(f, d, old(Model()), key)
    {
      hide Linked, HashModel.Remove, All, IsTable, NodesOf, InBucket, EntriesOf;
      var previousPair, pair, rest := FindWithPrevious(key);
      if pair != null {
        assert Lookup(f, Buckets(), key) == Some(Entry(pair.key, pair.value));
        Drop(previousPair, pair, key, rest);
      } else {
        assert Lookup(f, Buckets(), key) == None;
      }
    }

    /** HashTableRehash */
    method Rehash(n: nat)
      requires Valid()
      modifies this, bucketArray, nodes
      ensures Valid() && (bucketArray == old(bucketArray) || fresh(bucketArray)) && nodes == old(nodes)
      ensures Model() == Resized(f, old(Model()), n)
    {
      var buckets := n;
      if n == 0 {
        buckets := CalculateIdealNumOfBuckets(numOfElements);
      }
      IdealLeavesRoom(numOfElements);
      RehashKeeps(f, One, Buckets(), buckets);
      if buckets == numOfBuckets { return; }
      Relink(buckets);
    }

    /** Move all pairs to a new array. */
    method Relink(n: nat)
      requires Valid() && n > 0 && n != numOfBuckets
      modifies `bucketArray, `numOfBuckets, `chains, nodes`next
      ensures Chained() && fresh(bucketArray) && Buckets() == HashModel.Rehash(f, old(Buckets()), n)
    {
      var newBucketArray := new Pair?<K, V>[n](_ => null);
      forall i, j | 0 <= i < j < |chains| ensures NodesOf(chains[i]) !! NodesOf(chains[j]) { Disjoint(j, i); }
      ghost var c := MoveAll(f, bucketArray, chains, nodes, newBucketArray);
      bucketArray, numOfBuckets, chains := newBucketArray, n, c;
    }

    twostate lemma Disjoint(i: nat, new j: nat)
      requires old(Valid()) && i < old(|chains|) && j < old(|chains|) && i != j
      ensures NodesOf(old(chains[j])) !! NodesOf(old(chains[i]))
    {
      forall p | p in NodesOf(old(chains[i])) ensures p !in NodesOf(old(chains[j])) {
        OtherBucket(j, p, i);
      }
    }

    /** HashTablePut */
    method Put(key: K, value: V)
      requires Valid()
      modifies this, bucketArray, nodes
      ensures Valid() && (bucketArray == old(bucketArray) || fresh(bucketArray)) && fresh(nodes - old(nodes))
      ensures Model() == PutStep(f, d, old(Model()), key, value)
    {
      hide IsTable, Linked, HashModel.Put, HashModel.Rehash, Displaced;
      var pair := FindPair(key);
      if pair != null {
        assert Lookup(f, Buckets(), key) == Some(Entry(pair.key, pair.value));
        Overwrite(pair, key, value);
      } else {
        assert Lookup(f, Buckets(), key) == None;
        InsertAndGrow(key, value);
      }
    }

    /** A new pair, and more buckets if there are more than 15 elements a bucket. */
    method InsertAndGrow(key: K, value: V)
      requires Valid() && Lookup(f, Buckets(), key).None?
      modifies this, bucketArray, nodes
      ensures Valid() && (bucketArray == old(bucketArray) || fresh(bucketArray)) && fresh(nodes - old(nodes))
      ensures Model() == PutStep(f, d, old(Model()), key, value)
    {
      hide IsTable, Linked, HashModel.Put, HashModel.Rehash, Lookup, NodesOf, EntriesOf, InBucket;
      ghost var s1 := State(HashModel.Put(f, Buckets(), key, value), numOfElements + 1, freed);
      Insert(key, value);
      assert Model() == s1 && |s1.buckets| == numOfBuckets;
      if numOfElements > 15 * numOfBuckets {
        Rehash(0);
      }
    }

    /** Give all pairs of a chain to the deallocators. */
    method DropChain(p: Pair?<K, V>, ghost l: List<Pair<K, V>>)
      requires Linked(p, l)
      modifies `freed
      ensures freed == Poured(old(freed), Drops(d), old(EntriesOf(l)))
    {
      var pair := p;
      ghost var rest, log := l, freed;
      while pair != null
        invariant Linked(pair, rest) && Poured(log, Drops(d), EntriesOf(rest)) == Poured(freed, Drops(d), EntriesOf(l))
        decreases rest
      {
        log := log + Drops(d)(Entry(pair.key, pair.value));
        pair, rest := pair.next, rest.tail;
      }
      freed := log;
    }

    method ClearAll()
      requires Valid()
      modifies `freed, `chains, `nodes, `numOfElements, bucketArray
      ensures Valid() && nodes == {}
      ensures Model() == State(Empty(numOfBuckets), 0, old(freed) + Total(Drops(d), old(Buckets())))
    {
      hide IsTable, Linked, Sums, PouredAll, NodesOf, EntriesOf, Total;
      PouredOut(freed, Drops(d), Buckets());
      Clear();
      numOfElements := 0;
      EmptyIsTable(f, numOfBuckets);
    }

    lemma EmptyIsTable(f: Keys<K, R>, n: nat)
      requires n > 0
      ensures IsTable(f, Empty<K, V>(n)) && |All(Empty<K, V>(n))| == 0
    {
      EmptySums<K, V, Entry<K, V>>(One, n, n);
    }

    /** HashTableRemoveAll */
    method RemoveAll()
      requires Valid()
      modifies this, bucketArray, nodes
      ensures Valid() && (bucketArray == old(bucketArray) || fresh(bucketArray)) && nodes == {}
      ensures Model() == RemoveAllStep(d, old(Model()))
    {
      hide Linked, IsTable, HashModel.Rehash;
      ClearAll();
      Rehash(5);
      EmptyRehashed(old(numOfBuckets));
    }

    /** Rehashing an empty table gives an empty table. */
    lemma EmptyRehashed(n: nat)
      requires n > 0
      ensures HashModel.Rehash(f, Empty<K, V>(n), 5) == Empty(5)
    {
      if n != 5 { NothingSpread(n, 0); }
    }

    lemma {:induction false} NothingSpread(n: nat, i: nat)
      requires i <= n
      ensures SpreadAll(f, Empty<K, V>(n), i, Empty(5)) == Empty(5)
      decreases n - i
    {
      if i < n { NothingSpread(n, i + 1); }
    }

    method Clear()
      requires Valid()
      modifies `freed, `chains, `nodes, bucketArray
      ensures Chained() && nodes == {} && Buckets() == Empty(numOfBuckets)
      ensures freed == PouredAll(old(freed), Drops(d), old(Buckets()), 0)
    {
      hide IsTable, Poured;
      ghost var s := Buckets();
      var i := 0;
      while i < numOfBuckets
        invariant i <= numOfBuckets && unchanged(`chains) && unchanged(`nodes)
        invariant forall j :: 0 <= j < numOfBuckets ==> bucketArray[j] == if j < i then null else old(bucketArray[j])
        invariant PouredAll(freed, Drops(d), s, i) == PouredAll(old(freed), Drops(d), s, 0)
      {
        ChainFrame(bucketArray[i], chains[i]);
        DropChain(bucketArray[i], chains[i]);
        bucketArray[i] := null;
        i := i + 1;
      }
      chains, nodes := seq(numOfBuckets, _ => Nil), {};
      assert Buckets() == Empty(numOfBuckets);
    }

    // ----- iteration -----

    /** The iterator stands on a pair of the table. */
    ghost predicate Standing(it: HashTableIterator<K, V>)
      requires Chained()
      reads `bucketArray, `numOfBuckets, `chains, `nodes, bucketArray, nodes, it
    {
      it.bucket < numOfBuckets && it.rest.Cons? && NodesOf(it.rest) <= nodes && Linked(it.pair, it.rest)
    }

    /** The entries still to come, the one it stands on included. */
    ghost function Remaining(it: HashTableIterator<K, V>): List<Entry<K, V>>
      requires Chained() && Standing(it)
      reads `bucketArray, `numOfBuckets, `chains, `nodes, bucketArray, nodes, it
    {
      CText.Append(EntriesOf(it.rest), Flat(Buckets(), it.bucket + 1))
    }

    /** Go on to the next bucket that is not empty. */
    method NextBucket(it: HashTableIterator<K, V>)
      requires Valid() && it.bucket <= numOfBuckets
      modifies it
      ensures if it.pair == null then Flat(Buckets(), old(it.bucket)) == Nil else Standing(it) && Remaining(it) == Flat(Buckets(), old(it.bucket))
    {
      hide IsTable, InBucket, All, Respects;
      it.pair := null;
      while it.bucket < numOfBuckets
        invariant it.bucket <= numOfBuckets && it.pair == null && Flat(Buckets(), it.bucket) == Flat(Buckets(), old(it.bucket))
        decreases numOfBuckets - it.bucket
      {
        it.pair := bucketArray[it.bucket];
        it.rest := chains[it.bucket];
        if it.pair != null { return; }
        it.bucket := it.bucket + 1;
      }
    }

    /** hashTableGetFirst */
    method GetFirst() returns (it: HashTableIterator?<K, V>)
      requires Valid()
      ensures it == null <==> Flat(Buckets(), 0) == Nil
      ensures it != null ==> fresh(it) && Standing(it) && Remaining(it) == Flat(Buckets(), 0)
    {
      it := new HashTableIterator();
      NextBucket(it);
      if it.pair == null { return null; }
    }

    /** The next pair of the chain. */
    method Advance(it: HashTableIterator<K, V>, ghost ns: set<Pair<K, V>>)
      requires it.pair != null && it.rest.Cons? && Linked(it.pair, it.rest) && NodesOf(it.rest) <= ns
      modifies it
      ensures it.pair == old(it.pair.next) && it.rest == old(it.rest.tail) && it.bucket == old(it.bucket)
      ensures Linked(it.pair, it.rest) && EntriesOf(it.rest) == old(EntriesOf(it.rest.tail))
    {
      it.pair, it.rest := it.pair.next, it.rest.tail;
      assert NodesOf(it.rest) <= ns;
      ChainFrame(it.pair, it.rest);
    }

    /** hashTableGetNext; false when there is no further pair. */
    method GetNext(it: HashTableIterator<K, V>) returns (more: bool)
      requires Valid() && Standing(it)
      modifies it
      ensures more <==> old(Remaining(it)).tail != Nil
      ensures more ==> Standing(it) && Remaining(it) == old(Remaining(it)).tail
    {
      hide IsTable;
      ghost var left := EntriesOf(it.rest.tail);
      assert Linked(it.pair.next, it.rest.tail);
      assert Remaining(it).tail == CText.Append(left, Flat(Buckets(), it.bucket + 1));
      Advance(it, nodes);
      if it.pair != null { return true; }
      assert left == Nil;
      it.bucket := it.bucket + 1;
      NextBucket(it);
      return it.pair != null;
    }

    /** getFirst, then getNext until there is no more: every entry once. */
    method Walk() returns (met: List<Entry<K, V>>)
      requires Valid()
      ensures met == Flat(Buckets(), 0) && Sum(One, met) == All(Buckets())
    {
      hide IsTable, InBucket, Flat, Sum, Total, Sums;
      MeetsAll();
      met := Nil;
      var it := GetFirst();
      if it == null { return; }
      var more := true;
      while more
        invariant fresh(it) && (more ==> Standing(it)) && CText.Append(met, if more then Remaining(it) else Nil) == Flat(Buckets(), 0)
        decreases if more then Size(Remaining(it)) else 0, more
      {
        var e := Entry(it.pair.key, it.pair.value);
        ghost var left := Remaining(it);
        AppendMore(met, e, left.tail);
        met := CText.Append(met, Cons(e, Nil));
        more := GetNext(it);
      }
      AppendNil(met);
    }

    lemma MeetsAll()
      requires Valid()
      ensures Sum(One, Flat(Buckets(), 0)) == All(Buckets())
    {
      hide IsTable, InBucket, Linked;
      FlatMeetsAll(One, Buckets(), 0);
      assert Sums(One, Buckets(), 0) + Sum(One, Flat(Buckets(), 0)) == Sum(One, Flat(Buckets(), 0));
    }

  }
}
