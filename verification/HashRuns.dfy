/** Runs of table operations: the table agrees with a plain map, keeps its load bound, and gives every key and value
    it drops to its deallocator exactly once. */
module HashRuns {
  import opened CText
  import opened HashModel
  import opened BucketSearch

  datatype Part<+K, +V> = KeyPart(key: K) | ValuePart(value: V)

  /** The buckets, the element counter, and everything given to the deallocators so far. */
  datatype State<K(==), V(==)> = State(buckets: Buckets<K, V>, count: int, freed: multiset<Part<K, V>>)

  /** Which deallocators are set. */
  datatype Release = Release(keys: bool, values: bool)

  datatype Op<+K, +V> = PutOp(key: K, value: V) | RemoveOp(key: K) | RemoveAllOp | RehashOp(buckets: nat)

  function KeyOnly<K(==), V(==)>(key: K): multiset<Part<K, V>> { multiset{KeyPart(key)} }

  function ValueOnly<K(==), V(==)>(value: V): multiset<Part<K, V>> { multiset{ValuePart(value)} }

  ghost function Parts<K, V>(e: Entry<K, V>): multiset<Part<K, V>> { KeyOnly(e.key) + ValueOnly(e.value) }

  /** What is given to the deallocators when a pair is dropped. */
  ghost function Dropped<K, V>(d: Release, e: Entry<K, V>): multiset<Part<K, V>> {
    (if d.keys then KeyOnly(e.key) else multiset{}) + (if d.values then ValueOnly(e.value) else multiset{})
  }

  ghost function Drops<K, V>(d: Release): Entry<K, V> -> multiset<Part<K, V>> { e => Dropped(d, e) }

  /** What is given to them when entry `e` gets a new key and value: a pointer that stays is not released. */
  ghost function Displaced<K, V>(d: Release, e: Entry<K, V>, key: K, value: V): multiset<Part<K, V>> {
    (if d.keys && e.key != key then KeyOnly(e.key) else multiset{}) + (if d.values && e.value != value then ValueOnly(e.value) else multiset{})
  }

  /** HashTableRehash; 0 asks for the ideal number of buckets. */
  ghost function Resized<K, V, R>(f: Keys<K, R>, s: State<K, V>, n: nat): (r: State<K, V>)
    requires s.count >= 0
    ensures |r.buckets| > 0
  {
    s.(buckets := Rehash(f, s.buckets, if n == 0 then Ideal(s.count) else n))
  }

  ghost function PutStep<K, V, R>(f: Keys<K, R>, d: Release, s: State<K, V>, key: K, value: V): State<K, V>
    requires |s.buckets| > 0 && s.count >= 0
  {
    var b := Put(f, s.buckets, key, value);
    match Lookup(f, s.buckets, key)
    case Some(e) => s.(buckets := b, freed := s.freed + Displaced(d, e, key, value))
    case None =>
      var s1 := s.(buckets := b, count := s.count + 1);
      if s1.count > 15 * |b| then Resized(f, s1, 0) else s1
  }

  ghost function RemoveStep<K, V, R>(f: Keys<K, R>, d: Release, s: State<K, V>, key: K): State<K, V>
    requires |s.buckets| > 0
  {
    match Lookup(f, s.buckets, key)
    case None => s
    case Some(e) => State(Remove(f, s.buckets, key), s.count - 1, s.freed + Dropped(d, e))
  }

  ghost function RemoveAllStep<K, V>(d: Release, s: State<K, V>): State<K, V> {
    State(Empty(5), 0, s.freed + Total(Drops(d), s.buckets))
  }

  /** One operation, with the default thresholds: no rehash when pairs are removed, one above 15 elements a bucket. */
  ghost function Step<K, V, R>(f: Keys<K, R>, d: Release, s: State<K, V>, op: Op<K, V>): State<K, V>
    requires |s.buckets| > 0 && s.count >= 0
  {
    match op
    case PutOp(k, v) => PutStep(f, d, s, k, v)
    case RemoveOp(k) => RemoveStep(f, d, s, k)
    case RemoveAllOp => RemoveAllStep(d, s)
    case RehashOp(n) => Resized(f, s, n)
  }

  /** How many buckets a step leaves: as many as before, unless a new pair brings the load above 15, which asks for the ideal
      number; 5 after removeAll; and what a rehash asks for. */
  lemma BucketsAfter<K, V, R>(f: Keys<K, R>, d: Release, s: State<K, V>, op: Op<K, V>)
    requires |s.buckets| > 0 && s.count >= 0
    ensures |Step(f, d, s, op).buckets|
         == match op
            case PutOp(k, _) => if Lookup(f, s.buckets, k).None? && s.count + 1 > 15 * |s.buckets| then Ideal(s.count + 1) else |s.buckets|
            case RemoveOp(_) => |s.buckets|
            case RemoveAllOp => 5
            case RehashOp(n) => if n == 0 then Ideal(s.count) else n
  {
  }

  // ----- one step against the map -----

  function MapStep<K, V, R(==)>(f: Keys<K, R>, m: map<R, V>, op: Op<K, V>): map<R, V> {
    match op
    case PutOp(k, v) => m[f.rep(k) := v]
    case RemoveOp(k) => m - {f.rep(k)}
    case RemoveAllOp => map[]
    case RehashOp(_) => m
  }

  ghost predicate Answers<K, V, R>(f: Keys<K, R>, t: Buckets<K, V>, m: map<R, V>, k: K)
    requires |t| > 0
  {
    match Lookup(f, t, k)
    case None => f.rep(k) !in m
    case Some(e) => f.rep(k) in m && m[f.rep(k)] == e.value
  }

  /** The table is well formed, stores as many pairs as it counts and as the map holds, and answers as the map does. */
  ghost predicate Agrees<K(!new), V, R>(f: Keys<K, R>, s: State<K, V>, m: map<R, V>) {
    && IsTable(f, s.buckets) && s.count == |m| == |All(s.buckets)|
    && forall k: K :: Answers(f, s.buckets, m, k)
  }

  lemma AgreesResized<K(!new), V, R>(f: Keys<K, R>, s: State<K, V>, m: map<R, V>, n: nat)
    requires Respects(f) && Agrees(f, s, m)
    ensures Agrees(f, Resized(f, s, n), m)
  {
    var b := if n == 0 then Ideal(s.count) else n;
    IdealLeavesRoom(s.count);
    RehashKeeps(f, One, s.buckets, b);
    forall k ensures Answers(f, Rehash(f, s.buckets, b), m, k) {
      SameEntries(f, s.buckets, Rehash(f, s.buckets, b), k);
      assert Answers(f, s.buckets, m, k);
    }
  }

  lemma AgreesPut<K(!new), V, R>(f: Keys<K, R>, d: Release, s: State<K, V>, m: map<R, V>, key: K, value: V)
    requires Respects(f) && Agrees(f, s, m)
    ensures Agrees(f, PutStep(f, d, s, key, value), m[f.rep(key) := value])
  {
    var b, m' := Put(f, s.buckets, key, value), m[f.rep(key) := value];
    PutKeeps(f, One, s.buckets, key, value);
    assert Answers(f, s.buckets, m, key);
    forall k ensures Answers(f, b, m', k) {
      LookupPut(f, s.buckets, key, value, k);
      assert Answers(f, s.buckets, m, k);
    }
    match Lookup(f, s.buckets, key)
    case Some(e) =>
      MapReplace(m, f.rep(key), value);
      SameCount(All(b), multiset{e}, All(s.buckets), multiset{Entry(key, value)});
    case None =>
      var s1 := s.(buckets := b, count := s.count + 1);
      SameCount(All(b), multiset{}, All(s.buckets), multiset{Entry(key, value)});
      assert Agrees(f, s1, m');
      AgreesResized(f, s1, m', 0);
  }

  lemma SameCount<T>(a: multiset<T>, x: multiset<T>, c: multiset<T>, y: multiset<T>)
    requires a + x == c + y
    ensures |a| + |x| == |c| + |y|
  {
    assert |a + x| == |a| + |x| && |c + y| == |c| + |y|;
  }

  lemma MapReplace<R, V>(m: map<R, V>, r: R, v: V)
    requires r in m
    ensures |m[r := v]| == |m|
  {
    assert m[r := v].Keys == m.Keys;
  }

  lemma MapRemove<R, V>(m: map<R, V>, r: R)
    requires r in m
    ensures |m - {r}| == |m| - 1
  {
    assert (m - {r}).Keys == m.Keys - {r};
  }

  lemma AgreesRemove<K(!new), V, R>(f: Keys<K, R>, d: Release, s: State<K, V>, m: map<R, V>, key: K)
    requires Respects(f) && Agrees(f, s, m)
    ensures Agrees(f, RemoveStep(f, d, s, key), m - {f.rep(key)})
  {
    var b, m' := Remove(f, s.buckets, key), m - {f.rep(key)};
    RemoveKeeps(f, One, s.buckets, key);
    assert Answers(f, s.buckets, m, key);
    match Lookup(f, s.buckets, key)
    case Some(e) =>
      MapRemove(m, f.rep(key));
      SameCount(All(b), multiset{e}, All(s.buckets), multiset{});
      forall k ensures Answers(f, b, m', k) {
        LookupRemove(f, s.buckets, key, k);
        assert Answers(f, s.buckets, m, k);
      }
    case None =>
      assert m' == m;
  }

  lemma AgreesEmpty<K(!new), V, R>(f: Keys<K, R>, n: nat, freed: multiset<Part<K, V>>)
    requires n > 0
    ensures Agrees(f, State(Empty(n), 0, freed), map[])
  {
    EmptySums<K, V, Entry<K, V>>(One, n, n);
  }

  lemma StepAgrees<K(!new), V, R>(f: Keys<K, R>, d: Release, s: State<K, V>, m: map<R, V>, op: Op<K, V>)
    requires Respects(f) && Agrees(f, s, m)
    ensures Agrees(f, Step(f, d, s, op), MapStep(f, m, op))
  {
    match op
    case PutOp(k, v) => AgreesPut(f, d, s, m, k, v);
    case RemoveOp(k) => AgreesRemove(f, d, s, m, k);
    case RemoveAllOp => AgreesEmpty(f, 5, RemoveAllStep(d, s).freed);
    case RehashOp(n) => AgreesResized(f, s, m, n);
  }

  // ----- every run -----

  function MapRun<K, V, R(==)>(f: Keys<K, R>, ops: seq<Op<K, V>>): map<R, V> {
    if ops == [] then map[] else MapStep(f, MapRun(f, ops[..|ops| - 1]), ops[|ops| - 1])
  }

  /** A new table with `n` buckets, after a run of operations. */
  ghost function Run<K(!new), V, R>(f: Keys<K, R>, d: Release, n: nat, ops: seq<Op<K, V>>): (s: State<K, V>)
    requires n > 0 && Respects(f)
    ensures Agrees(f, s, MapRun(f, ops))
  {
    if ops == [] then
      AgreesEmpty<K, V, R>(f, n, multiset{});
      State(Empty(n), 0, multiset{})
    else
      var before := ops[..|ops| - 1];
      StepAgrees(f, d, Run(f, d, n, before), MapRun(f, before), ops[|ops| - 1]);
      Step(f, d, Run(f, d, n, before), ops[|ops| - 1])
  }

  /** HashTableGet after any run answers as the map does, and the counter is the size of the map. */
  lemma RunRefinesMap<K(!new), V, R>(f: Keys<K, R>, d: Release, n: nat, ops: seq<Op<K, V>>, k: K)
    requires n > 0 && Respects(f)
    ensures var s, m := Run(f, d, n, ops), MapRun(f, ops);
            s.count == |m| && (match Lookup(f, s.buckets, k)
                               case None => f.rep(k) !in m
                               case Some(e) => f.rep(k) in m && m[f.rep(k)] == e.value)
  {
    assert Answers(f, Run(f, d, n, ops).buckets, MapRun(f, ops), k);
  }

  // ----- load bound -----

  predicate Loaded<K, V>(s: State<K, V>) { s.count <= 15 * |s.buckets| }

  lemma StepLoad<K(!new), V, R>(f: Keys<K, R>, d: Release, s: State<K, V>, m: map<R, V>, op: Op<K, V>)
    requires Respects(f) && Agrees(f, s, m) && Loaded(s) && (op.RehashOp? ==> op.buckets == 0)
    ensures Loaded(Step(f, d, s, op))
  {
    IdealLeavesRoom(s.count);
    IdealLeavesRoom(s.count + 1);
  }

  /** Unless a caller asks for a number of buckets, there are never more than 15 elements a bucket. */
  lemma {:induction false} RunLoad<K(!new), V, R>(f: Keys<K, R>, d: Release, n: nat, ops: seq<Op<K, V>>)
    requires n > 0 && Respects(f) && forall i :: 0 <= i < |ops| && ops[i].RehashOp? ==> ops[i].buckets == 0
    ensures Loaded(Run(f, d, n, ops))
  {
    if ops != [] {
      var before := ops[..|ops| - 1];
      RunLoad(f, d, n, before);
      StepLoad(f, d, Run(f, d, n, before), MapRun(f, before), ops[|ops| - 1]);
    }
  }

  // ----- release -----

  /** What a step takes over from its caller. */
  ghost function Handed<K, V, R>(f: Keys<K, R>, s: State<K, V>, op: Op<K, V>): multiset<Part<K, V>>
    requires |s.buckets| > 0
  {
    if !op.PutOp? then multiset{}
    else
      match Lookup(f, s.buckets, op.key)
      case None => Parts(Entry(op.key, op.value))
      case Some(e) =>
        (if e.key != op.key then KeyOnly(op.key) else multiset{}) + (if e.value != op.value then ValueOnly(op.value) else multiset{})
  }

  ghost function Held<K, V>(s: State<K, V>): multiset<Part<K, V>> { Total(Parts, s.buckets) }

  const BOTH := Release(true, true)

  lemma StepConserves<K(!new), V, R>(f: Keys<K, R>, s: State<K, V>, m: map<R, V>, op: Op<K, V>)
    requires Respects(f) && Agrees(f, s, m)
    ensures var s' := Step(f, BOTH, s, op); Held(s') + s'.freed == Held(s) + s.freed + Handed(f, s, op)
  {
    match op
    case PutOp(k, v) => PutConserves(f, s, m, k, v);
    case RemoveOp(k) => RemoveConserves(f, s, k);
    case RemoveAllOp =>
      EmptySums<K, V, Part<K, V>>(Parts, 5, 5);
      SameWeights(s.buckets, |s.buckets|);
    case RehashOp(n) =>
      IdealLeavesRoom(s.count);
      RehashKeeps(f, Parts, s.buckets, if n == 0 then Ideal(s.count) else n);
  }

  lemma {:induction false} SameWeight<K, V>(l: List<Entry<K, V>>)
    ensures Sum(Drops(BOTH), l) == Sum(Parts, l)
  {
    if l.Cons? { SameWeight(l.tail); }
  }

  lemma {:induction false} SameWeights<K, V>(t: Buckets<K, V>, i: nat)
    requires i <= |t|
    ensures Sums(Drops(BOTH), t, i) == Sums(Parts, t, i)
  {
    if i > 0 {
      SameWeights(t, i - 1);
      SameWeight(t[i - 1]);
    }
  }

  lemma RemoveConserves<K(!new), V, R>(f: Keys<K, R>, s: State<K, V>, key: K)
    requires IsTable(f, s.buckets)
    ensures var s' := RemoveStep(f, BOTH, s, key); Held(s') + s'.freed == Held(s) + s.freed
  {
    RemoveKeeps(f, Parts, s.buckets, key);
    if Lookup(f, s.buckets, key).Some? {
      var p := Parts(Lookup(f, s.buckets, key).value);
      var h := Total(Parts, Remove(f, s.buckets, key));
      assert h + (s.freed + p) == (h + p) + s.freed;
    }
  }

  lemma PutConserves<K(!new), V, R>(f: Keys<K, R>, s: State<K, V>, m: map<R, V>, key: K, value: V)
    requires Respects(f) && Agrees(f, s, m)
    ensures var s' := PutStep(f, BOTH, s, key, value);
            Held(s') + s'.freed == Held(s) + s.freed + Handed(f, s, PutOp(key, value))
  {
    PutKeeps(f, Parts, s.buckets, key, value);
    var b := Put(f, s.buckets, key, value);
    match Lookup(f, s.buckets, key)
    case None =>
      var s1 := s.(buckets := b, count := s.count + 1);
      PutKeeps(f, One, s.buckets, key, value);
      IdealLeavesRoom(s1.count);
      RehashKeeps(f, Parts, b, Ideal(s1.count));
      assert Total(Parts, b) == Total(Parts, s.buckets) + Parts(Entry(key, value));
    case Some(e) =>
      Balance(Total(Parts, b), Total(Parts, s.buckets), s.freed, e, key, value);
  }

  lemma Balance<K, V>(after: multiset<Part<K, V>>, before: multiset<Part<K, V>>, freed: multiset<Part<K, V>>, e: Entry<K, V>, key: K, value: V)
    requires after + Parts(e) == before + Parts(Entry(key, value))
    ensures after + (freed + Displaced(BOTH, e, key, value))
         == before + freed + ((if e.key != key then KeyOnly(key) else multiset{}) + (if e.value != value then ValueOnly(value) else multiset{}))
  {
    var ek, ev: multiset<Part<K, V>> := if e.key != key then KeyOnly(e.key) else multiset{}, if e.value != value then ValueOnly(e.value) else multiset{};
    var nk, nv: multiset<Part<K, V>> := if e.key != key then KeyOnly(key) else multiset{}, if e.value != value then ValueOnly(value) else multiset{};
    assert after + (ek + ev) == before + (nk + nv) by {
      KeptPart(after, before, KeyOnly(e.key), KeyOnly(key), ValueOnly(e.value), ValueOnly(value), e.key == key, e.value == value);
    }
    assert after + (freed + (ek + ev)) == (after + (ek + ev)) + freed;
    assert before + freed + (nk + nv) == (before + (nk + nv)) + freed;
  }

  lemma KeptPart<T>(a: multiset<T>, b: multiset<T>, x: multiset<T>, x': multiset<T>, y: multiset<T>, y': multiset<T>, p: bool, q: bool)
    requires a + (x + y) == b + (x' + y') && (p ==> x == x') && (q ==> y == y')
    ensures a + ((if !p then x else multiset{}) + (if !q then y else multiset{})) == b + ((if !p then x' else multiset{}) + (if !q then y' else multiset{}))
  {
    if p && q {
      assert a == b by { CancelOne(a, b, x + y); }
    } else if p {
      assert a + (x + y) == (a + y) + x && b + (x' + y') == (b + y') + x;
      CancelOne(a + y, b + y', x);
      assert multiset{} + y == y && multiset{} + y' == y';
    } else if q {
      assert a + (x + y) == (a + x) + y && b + (x' + y') == (b + x') + y;
      CancelOne(a + x, b + x', y);
      assert x + multiset{} == x && x' + multiset{} == x';
    }
  }

  ghost function AllHanded<K(!new), V, R>(f: Keys<K, R>, n: nat, ops: seq<Op<K, V>>): multiset<Part<K, V>>
    requires n > 0 && Respects(f)
  {
    if ops == [] then multiset{}
    else
      var before := ops[..|ops| - 1];
      AllHanded(f, n, before) + Handed(f, Run(f, BOTH, n, before), ops[|ops| - 1])
  }

  /** With both deallocators set, what was handed in over a run is what is still held and what was released: each key
      and value is in one of the two, once. */
  lemma {:induction false} RunConserves<K(!new), V, R>(f: Keys<K, R>, n: nat, ops: seq<Op<K, V>>)
    requires n > 0 && Respects(f)
    ensures var s := Run(f, BOTH, n, ops); Held(s) + s.freed == AllHanded(f, n, ops)
  {
    if ops == [] {
      EmptySums<K, V, Part<K, V>>(Parts, n, n);
    } else {
      var before := ops[..|ops| - 1];
      RunConserves(f, n, before);
      StepConserves(f, Run(f, BOTH, n, before), MapRun(f, before), ops[|ops| - 1]);
    }
  }

  // ----- one deallocator, or none -----

  /** `a` is what is left of `b` where only the deallocators of `d` are called. */
  ghost predicate OnlyFor<K(!new), V(!new)>(d: Release, a: multiset<Part<K, V>>, b: multiset<Part<K, V>>) {
    && (forall k: K :: a[KeyPart(k)] == if d.keys then b[KeyPart(k)] else 0)
    && (forall v: V :: a[ValuePart(v)] == if d.values then b[ValuePart(v)] else 0)
  }

  lemma OnlyForBoth<K(!new), V(!new)>(d: Release, a: multiset<Part<K, V>>, b: multiset<Part<K, V>>, a': multiset<Part<K, V>>, b': multiset<Part<K, V>>)
    requires OnlyFor(d, a, b) && OnlyFor(d, a', b')
    ensures OnlyFor(d, a + a', b + b')
  {
  }

  lemma {:induction false} OnlyForSum<K(!new), V(!new)>(d: Release, l: List<Entry<K, V>>)
    ensures OnlyFor(d, Sum(Drops(d), l), Sum(Drops(BOTH), l))
  {
    if l.Cons? {
      OnlyForSum(d, l.tail);
      assert OnlyFor(d, Dropped(d, l.head), Dropped(BOTH, l.head));
      OnlyForBoth(d, Dropped(d, l.head), Dropped(BOTH, l.head), Sum(Drops(d), l.tail), Sum(Drops(BOTH), l.tail));
    }
  }

  lemma {:induction false} OnlyForSums<K(!new), V(!new)>(d: Release, t: Buckets<K, V>, i: nat)
    requires i <= |t|
    ensures OnlyFor(d, Sums(Drops(d), t, i), Sums(Drops(BOTH), t, i))
  {
    if i > 0 {
      OnlyForSums(d, t, i - 1);
      OnlyForSum(d, t[i - 1]);
      OnlyForBoth(d, Sums(Drops(d), t, i - 1), Sums(Drops(BOTH), t, i - 1), Sum(Drops(d), t[i - 1]), Sum(Drops(BOTH), t[i - 1]));
    }
  }

  lemma StepOnlyFor<K(!new), V(!new), R>(f: Keys<K, R>, d: Release, s: State<K, V>, b: State<K, V>, op: Op<K, V>)
    requires |s.buckets| > 0 && s.count >= 0 && s.buckets == b.buckets && s.count == b.count && OnlyFor(d, s.freed, b.freed)
    ensures var s', b' := Step(f, d, s, op), Step(f, BOTH, b, op);
            s'.buckets == b'.buckets && s'.count == b'.count && OnlyFor(d, s'.freed, b'.freed)
  {
    hide OnlyFor, Put, Remove, Rehash, Dropped, Displaced;
    match op
    case PutOp(k, v) =>
      if Lookup(f, s.buckets, k).Some? {
        var e := Lookup(f, s.buckets, k).value;
        DisplacedOnlyFor(d, e, k, v);
        OnlyForBoth(d, s.freed, b.freed, Displaced(d, e, k, v), Displaced(BOTH, e, k, v));
      }
    case RemoveOp(k) =>
      if Lookup(f, s.buckets, k).Some? {
        var e := Lookup(f, s.buckets, k).value;
        DroppedOnlyFor(d, e);
        OnlyForBoth(d, s.freed, b.freed, Dropped(d, e), Dropped(BOTH, e));
      }
    case RemoveAllOp =>
      OnlyForSums(d, s.buckets, |s.buckets|);
      OnlyForBoth(d, s.freed, b.freed, Total(Drops(d), s.buckets), Total(Drops(BOTH), s.buckets));
    case RehashOp(n) =>
  }

  lemma DisplacedOnlyFor<K(!new), V(!new)>(d: Release, e: Entry<K, V>, key: K, value: V)
    ensures OnlyFor(d, Displaced(d, e, key, value), Displaced(BOTH, e, key, value))
  {
  }

  lemma DroppedOnlyFor<K(!new), V(!new)>(d: Release, e: Entry<K, V>)
    ensures OnlyFor(d, Dropped(d, e), Dropped(BOTH, e))
  {
  }

  /** The deallocators do not matter to the table, and each of them is given what it is given when both are set. */
  lemma {:induction false} RunOnlyFor<K(!new), V(!new), R>(f: Keys<K, R>, d: Release, n: nat, ops: seq<Op<K, V>>)
    requires n > 0 && Respects(f)
    ensures var s, b := Run(f, d, n, ops), Run(f, BOTH, n, ops);
            s.buckets == b.buckets && s.count == b.count && OnlyFor(d, s.freed, b.freed)
  {
    if ops != [] {
      var before, op := ops[..|ops| - 1], ops[|ops| - 1];
      RunOnlyFor(f, d, n, before);
      StepOnlyFor(f, d, Run(f, d, n, before), Run(f, BOTH, n, before), op);
    }
  }
}
