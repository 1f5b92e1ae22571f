/** The chained hash table of hashtable.c as a value: a sequence of buckets, each a list of entries. Keys are
    compared by `rep`: two keys are equal for the comparison function exactly when they have the same `rep`. */
module HashModel {
  import opened CText

  datatype Entry<+K, +V> = Entry(key: K, value: V)

  /** The comparison through `rep`, and the hash function. */
  datatype Keys<!K, !R> = Keys(rep: K -> R, hash: K -> nat)

  /** Hashing respects key equality. */
  ghost predicate Respects<K(!new), R>(f: Keys<K, R>) {
    forall a, b :: f.rep(a) == f.rep(b) ==> f.hash(a) == f.hash(b)
  }

  function Same<K, R(==)>(f: Keys<K, R>, a: K, b: K): bool { f.rep(a) == f.rep(b) }

  // ----- one bucket -----

  function Find<K, V, R(==)>(f: Keys<K, R>, l: List<Entry<K, V>>, key: K): Option<Entry<K, V>> {
    match l
    case Nil => None
    case Cons(e, t) => if Same(f, key, e.key) then Some(e) else Find(f, t, key)
  }

  /** The first entry with an equal key gets the new key and value. */
  function Replace<K, V, R(==)>(f: Keys<K, R>, l: List<Entry<K, V>>, key: K, value: V): List<Entry<K, V>> {
    match l
    case Nil => Nil
    case Cons(e, t) => if Same(f, key, e.key) then Cons(Entry(key, value), t) else Cons(e, Replace(f, t, key, value))
  }

  function Without<K, V, R(==)>(f: Keys<K, R>, l: List<Entry<K, V>>, key: K): List<Entry<K, V>> {
    match l
    case Nil => Nil
    case Cons(e, t) => if Same(f, key, e.key) then t else Cons(e, Without(f, t, key))
  }

  /** What the entries of a bucket add up to, each counted by `w`. */
  ghost function Sum<K, V, T>(w: Entry<K, V> -> multiset<T>, l: List<Entry<K, V>>): multiset<T> {
    match l
    case Nil => multiset{}
    case Cons(e, t) => Sum(w, t) + w(e)
  }

  ghost function One<K, V>(e: Entry<K, V>): multiset<Entry<K, V>> { multiset{e} }

  /** Every entry hashes to bucket `i` of `n`, and no two have equal keys. */
  ghost predicate InBucket<K, V, R>(f: Keys<K, R>, l: List<Entry<K, V>>, i: nat, n: nat)
    requires n > 0
  {
    match l
    case Nil => true
    case Cons(e, t) => f.hash(e.key) % n == i && Find(f, t, e.key).None? && InBucket(f, t, i, n)
  }

  lemma {:induction false} FindReplaced<K, V, R>(f: Keys<K, R>, l: List<Entry<K, V>>, key: K, value: V, k: K)
    requires Find(f, l, key).Some?
    ensures Find(f, Replace(f, l, key, value), k) == if Same(f, k, key) then Some(Entry(key, value)) else Find(f, l, k)
  {
    if !Same(f, key, l.head.key) { FindReplaced(f, l.tail, key, value, k); }
  }

  lemma {:induction false} FindWithout<K, V, R>(f: Keys<K, R>, l: List<Entry<K, V>>, i: nat, n: nat, key: K, k: K)
    requires n > 0 && InBucket(f, l, i, n)
    ensures Find(f, Without(f, l, key), k) == if Same(f, k, key) then None else Find(f, l, k)
  {
    if l.Cons? {
      if Same(f, key, l.head.key) {
        if Same(f, k, key) { FindSame(f, l.tail, l.head.key, k); }
      } else {
        FindWithout(f, l.tail, i, n, key, k);
      }
    }
  }

  lemma {:induction false} FindSame<K, V, R>(f: Keys<K, R>, l: List<Entry<K, V>>, a: K, b: K)
    requires Same(f, a, b)
    ensures Find(f, l, a) == Find(f, l, b)
  {
    if l.Cons? { FindSame(f, l.tail, a, b); }
  }

  lemma {:induction false} ReplaceInBucket<K(!new), V, R, T>(f: Keys<K, R>, w: Entry<K, V> -> multiset<T>, l: List<Entry<K, V>>, i: nat, n: nat, key: K, value: V)
    requires n > 0 && InBucket(f, l, i, n) && Respects(f) && Find(f, l, key).Some?
    ensures InBucket(f, Replace(f, l, key, value), i, n)
    ensures Sum(w, Replace(f, l, key, value)) + w(Find(f, l, key).value) == Sum(w, l) + w(Entry(key, value))
  {
    if Same(f, key, l.head.key) {
      FindSame(f, l.tail, l.head.key, key);
    } else {
      ReplaceInBucket(f, w, l.tail, i, n, key, value);
      Exchange(Sum(w, Replace(f, l.tail, key, value)), w(Find(f, l, key).value), Sum(w, l.tail), w(Entry(key, value)), w(l.head));
      FindReplaced(f, l.tail, key, value, l.head.key);
    }
  }

  lemma {:induction false} WithoutInBucket<K, V, R, T>(f: Keys<K, R>, w: Entry<K, V> -> multiset<T>, l: List<Entry<K, V>>, i: nat, n: nat, key: K)
    requires n > 0 && InBucket(f, l, i, n) && Find(f, l, key).Some?
    ensures InBucket(f, Without(f, l, key), i, n)
    ensures Sum(w, Without(f, l, key)) + w(Find(f, l, key).value) == Sum(w, l)
  {
    if !Same(f, key, l.head.key) {
      WithoutInBucket(f, w, l.tail, i, n, key);
      assert Sum(w, Without(f, l, key)) == Sum(w, Without(f, l.tail, key)) + w(l.head);
      FindWithout(f, l.tail, i, n, key, l.head.key);
    }
  }

  lemma {:induction false} FoundHere<K, V, R>(f: Keys<K, R>, l: List<Entry<K, V>>, i: nat, n: nat, key: K)
    requires n > 0 && InBucket(f, l, i, n) && Find(f, l, key).Some?
    ensures var e := Find(f, l, key).value; e in Sum(One, l) && Same(f, key, e.key) && f.hash(e.key) % n == i
  {
    if !Same(f, key, l.head.key) { FoundHere(f, l.tail, i, n, key); }
  }

  lemma {:induction false} SumFound<K, V, R>(f: Keys<K, R>, l: List<Entry<K, V>>, i: nat, n: nat, e: Entry<K, V>)
    requires n > 0 && InBucket(f, l, i, n) && e in Sum(One, l)
    ensures Find(f, l, e.key) == Some(e) && f.hash(e.key) % n == i
  {
    if e != l.head {
      SumFound(f, l.tail, i, n, e);
      if Same(f, e.key, l.head.key) { FindSame(f, l.tail, e.key, l.head.key); }
    }
  }

  // ----- the table -----

  type Buckets<K, V> = seq<List<Entry<K, V>>>

  ghost predicate IsTable<K, V, R>(f: Keys<K, R>, t: Buckets<K, V>) {
    |t| > 0 && forall i :: 0 <= i < |t| ==> InBucket(f, t[i], i, |t|)
  }

  function Slot<K, V, R>(f: Keys<K, R>, t: Buckets<K, V>, key: K): (i: nat)
    requires |t| > 0
    ensures i < |t|
  {
    f.hash(key) % |t|
  }

  /** HashTableGet, with the key stored. */
  function Lookup<K, V, R(==)>(f: Keys<K, R>, t: Buckets<K, V>, key: K): Option<Entry<K, V>>
    requires |t| > 0
  {
    Find(f, t[Slot(f, t, key)], key)
  }

  function Put<K, V, R(==)>(f: Keys<K, R>, t: Buckets<K, V>, key: K, value: V): (r: Buckets<K, V>)
    requires |t| > 0
    ensures |r| == |t|
  {
    var i := Slot(f, t, key);
    if Find(f, t[i], key).Some? then t[i := Replace(f, t[i], key, value)] else t[i := Cons(Entry(key, value), t[i])]
  }

  function Remove<K, V, R(==)>(f: Keys<K, R>, t: Buckets<K, V>, key: K): (r: Buckets<K, V>)
    requires |t| > 0
    ensures |r| == |t|
  {
    var i := Slot(f, t, key);
    t[i := Without(f, t[i], key)]
  }

  function Empty<K, V>(n: nat): (r: Buckets<K, V>)
    ensures |r| == n && forall i :: 0 <= i < n ==> r[i] == Nil
  {
    seq(n, _ => Nil)
  }

  /** Move the entries of one bucket to the front of their new ones, in order. */
  function Spread<K, V, R>(f: Keys<K, R>, l: List<Entry<K, V>>, t: Buckets<K, V>): (r: Buckets<K, V>)
    requires |t| > 0
    ensures |r| == |t|
    decreases l
  {
    match l
    case Nil => t
    case Cons(e, rest) => Spread(f, rest, Pushed(f, t, e))
  }

  /** The buckets of `s` from `i` on, spread over `t`. */
  function SpreadAll<K, V, R>(f: Keys<K, R>, s: Buckets<K, V>, i: nat, t: Buckets<K, V>): (r: Buckets<K, V>)
    requires i <= |s| && |t| > 0
    ensures |r| == |t|
    decreases |s| - i
  {
    if i == |s| then t else SpreadAll(f, s, i + 1, Spread(f, s[i], t))
  }

  /** HashTableRehash to a positive number of buckets. */
  function Rehash<K, V, R>(f: Keys<K, R>, t: Buckets<K, V>, n: nat): (r: Buckets<K, V>)
    requires n > 0
    ensures |r| == n
  {
    if n == |t| then t else SpreadAll(f, t, 0, Empty(n))
  }

  /** The buckets before `i`. */
  ghost function Sums<K, V, T>(w: Entry<K, V> -> multiset<T>, t: Buckets<K, V>, i: nat): multiset<T>
    requires i <= |t|
  {
    if i == 0 then multiset{} else Sums(w, t, i - 1) + Sum(w, t[i - 1])
  }

  ghost function Total<K, V, T>(w: Entry<K, V> -> multiset<T>, t: Buckets<K, V>): multiset<T> { Sums(w, t, |t|) }

  ghost function All<K, V>(t: Buckets<K, V>): multiset<Entry<K, V>> { Total(One, t) }

  lemma {:induction false} SumsUpdate<K, V, T>(w: Entry<K, V> -> multiset<T>, t: Buckets<K, V>, i: nat, l: List<Entry<K, V>>, j: nat)
    requires i < |t| && j <= |t|
    ensures if j <= i then Sums(w, t[i := l], j) == Sums(w, t, j) else Sums(w, t[i := l], j) + Sum(w, t[i]) == Sums(w, t, j) + Sum(w, l)
  {
    hide Sum;
    if j > 0 {
      SumsUpdate(w, t, i, l, j - 1);
      if i < j - 1 {
        Exchange(Sums(w, t[i := l], j - 1), Sum(w, t[i]), Sums(w, t, j - 1), Sum(w, l), Sum(w, t[j - 1]));
      }
    }
  }

  lemma Exchange<T>(a: multiset<T>, b: multiset<T>, c: multiset<T>, d: multiset<T>, x: multiset<T>)
    requires a + b == c + d
    ensures (a + x) + b == (c + x) + d
  {
    assert (a + x) + b == (a + b) + x;
    assert (c + x) + d == (c + d) + x;
  }

  lemma {:induction false} SumsOf<K, V>(t: Buckets<K, V>, j: nat, e: Entry<K, V>) returns (i: nat)
    requires j <= |t| && e in Sums(One, t, j)
    ensures i < j && e in Sum(One, t[i])
  {
    if e in Sum(One, t[j - 1]) {
      i := j - 1;
    } else {
      i := SumsOf(t, j - 1, e);
    }
  }

  lemma {:induction false} SumIn<K, V>(t: Buckets<K, V>, i: nat, j: nat, e: Entry<K, V>)
    requires i < j <= |t| && e in Sum(One, t[i])
    ensures e in Sums(One, t, j)
  {
    if i < j - 1 { SumIn(t, i, j - 1, e); }
  }

  /** An entry is stored exactly when looking up its key finds it. */
  lemma Stored<K, V, R>(f: Keys<K, R>, t: Buckets<K, V>, e: Entry<K, V>)
    requires IsTable(f, t)
    ensures e in All(t) <==> Lookup(f, t, e.key) == Some(e)
  {
    if e in All(t) {
      var i := SumsOf(t, |t|, e);
      SumFound(f, t[i], i, |t|, e);
    }
    if Lookup(f, t, e.key) == Some(e) {
      var i := Slot(f, t, e.key);
      FoundHere(f, t[i], i, |t|, e.key);
      SumIn(t, i, |t|, e);
    }
  }

  lemma Cancel<T>(a: multiset<T>, b: multiset<T>, c: multiset<T>, d: multiset<T>, x: multiset<T>, y: multiset<T>)
    requires a + b == c + d && d + x == b + y
    ensures a + x == c + y
  {
    assert (a + x) + b == (a + b) + x;
    assert (c + d) + x == c + (d + x);
    assert c + (b + y) == (c + y) + b;
    CancelOne(a + x, c + y, b);
  }

  lemma CancelOne<T>(a: multiset<T>, c: multiset<T>, b: multiset<T>)
    requires a + b == c + b
    ensures a == c
  {
    assert (a + b) - b == a;
    assert (c + b) - b == c;
  }

  lemma PutKeeps<K(!new), V, R, T>(f: Keys<K, R>, w: Entry<K, V> -> multiset<T>, t: Buckets<K, V>, key: K, value: V)
    requires IsTable(f, t) && Respects(f)
    ensures IsTable(f, Put(f, t, key, value))
    ensures var old_ := Lookup(f, t, key);
            Total(w, Put(f, t, key, value)) + (if old_.Some? then w(old_.value) else multiset{}) == Total(w, t) + w(Entry(key, value))
  {
    var i := Slot(f, t, key);
    if Find(f, t[i], key).Some? {
      var l := Replace(f, t[i], key, value);
      ReplaceInBucket(f, w, t[i], i, |t|, key, value);
      SumsUpdate(w, t, i, l, |t|);
      Cancel(Total(w, t[i := l]), Sum(w, t[i]), Total(w, t), Sum(w, l), w(Find(f, t[i], key).value), w(Entry(key, value)));
    } else {
      var l := Cons(Entry(key, value), t[i]);
      SumsUpdate(w, t, i, l, |t|);
      Cancel(Total(w, t[i := l]), Sum(w, t[i]), Total(w, t), Sum(w, l), multiset{}, w(Entry(key, value)));
    }
  }

  /** A new pair comes to the front of its bucket; a stored one keeps its place. */
  lemma PutInOrder<K, V, R>(f: Keys<K, R>, t: Buckets<K, V>, key: K, value: V, i: nat)
    requires i < |t|
    ensures var r, l := Put(f, t, key, value), t[i];
            if i != f.hash(key) % |t| then r[i] == l
            else if Lookup(f, t, key).None? then r[i] == Cons(Entry(key, value), l)
            else exists a, e, b :: l == CText.Append(a, Cons(e, b)) && Same(f, e.key, key) && r[i] == CText.Append(a, Cons(Entry(key, value), b))
  {
    if i == f.hash(key) % |t| && Lookup(f, t, key).Some? { var a, e, b := ReplacedAt(f, t[i], key, value); }
  }

  lemma {:induction false} ReplacedAt<K, V, R>(f: Keys<K, R>, l: List<Entry<K, V>>, key: K, value: V)
    returns (a: List<Entry<K, V>>, e: Entry<K, V>, b: List<Entry<K, V>>)
    requires Find(f, l, key).Some?
    ensures l == CText.Append(a, Cons(e, b)) && Same(f, e.key, key) && Replace(f, l, key, value) == CText.Append(a, Cons(Entry(key, value), b))
  {
    if Same(f, key, l.head.key) {
      a, e, b := Nil, l.head, l.tail;
    } else {
      var a';
      a', e, b := ReplacedAt(f, l.tail, key, value);
      a := Cons(l.head, a');
    }
  }

  lemma RemoveKeeps<K, V, R, T>(f: Keys<K, R>, w: Entry<K, V> -> multiset<T>, t: Buckets<K, V>, key: K)
    requires IsTable(f, t)
    ensures IsTable(f, Remove(f, t, key))
    ensures var old_ := Lookup(f, t, key);
            Total(w, Remove(f, t, key)) + (if old_.Some? then w(old_.value) else multiset{}) == Total(w, t)
  {
    var i := Slot(f, t, key);
    var l := Without(f, t[i], key);
    if Find(f, t[i], key).Some? {
      SumsUpdate(w, t, i, l, |t|);
      WithoutInBucket(f, w, t[i], i, |t|, key);
      Drop(Total(w, t[i := l]), Sum(w, t[i]), Total(w, t), Sum(w, l), w(Find(f, t[i], key).value));
    } else {
      NothingRemoved(f, t[i], key);
      assert t[i := l] == t;
    }
  }

  lemma Drop<T>(a: multiset<T>, b: multiset<T>, c: multiset<T>, d: multiset<T>, x: multiset<T>)
    requires a + b == c + d && d + x == b
    ensures a + x == c
  {
    assert (a + x) + d == a + (d + x);
    CancelOne(a + x, c, d);
  }

  lemma {:induction false} NothingRemoved<K, V, R>(f: Keys<K, R>, l: List<Entry<K, V>>, key: K)
    requires Find(f, l, key).None?
    ensures Without(f, l, key) == l
  {
    if l.Cons? { NothingRemoved(f, l.tail, key); }
  }

  lemma LookupPut<K(!new), V, R>(f: Keys<K, R>, t: Buckets<K, V>, key: K, value: V, k: K)
    requires IsTable(f, t) && Respects(f)
    ensures Lookup(f, Put(f, t, key, value), k) == if Same(f, k, key) then Some(Entry(key, value)) else Lookup(f, t, k)
  {
    var i := Slot(f, t, key);
    if Find(f, t[i], key).Some? { FindReplaced(f, t[i], key, value, k); }
  }

  lemma LookupRemove<K(!new), V, R>(f: Keys<K, R>, t: Buckets<K, V>, key: K, k: K)
    requires IsTable(f, t) && Respects(f)
    ensures Lookup(f, Remove(f, t, key), k) == if Same(f, k, key) then None else Lookup(f, t, k)
  {
    var i := Slot(f, t, key);
    FindWithout(f, t[i], i, |t|, key, k);
  }

  // ----- rehash -----

  /** No key of `l` is equal to a key of `t`. */
  ghost predicate Apart<K, V, R>(f: Keys<K, R>, l: List<Entry<K, V>>, t: Buckets<K, V>)
    requires |t| > 0
  {
    match l
    case Nil => true
    case Cons(e, rest) => Lookup(f, t, e.key).None? && Apart(f, rest, t)
  }

  function Pushed<K, V, R>(f: Keys<K, R>, t: Buckets<K, V>, e: Entry<K, V>): (r: Buckets<K, V>)
    requires |t| > 0
    ensures |r| == |t|
  {
    t[Slot(f, t, e.key) := Cons(e, t[Slot(f, t, e.key)])]
  }

  lemma PushKeeps<K(!new), V, R, T>(f: Keys<K, R>, w: Entry<K, V> -> multiset<T>, t: Buckets<K, V>, e: Entry<K, V>)
    requires IsTable(f, t) && Respects(f) && Lookup(f, t, e.key).None?
    ensures IsTable(f, Pushed(f, t, e)) && Total(w, Pushed(f, t, e)) == Total(w, t) + w(e)
    ensures forall k :: Lookup(f, Pushed(f, t, e), k) == if Same(f, k, e.key) then Some(e) else Lookup(f, t, k)
  {
    PutKeeps(f, w, t, e.key, e.value);
    assert Pushed(f, t, e) == Put(f, t, e.key, e.value);
    forall k ensures Lookup(f, Pushed(f, t, e), k) == if Same(f, k, e.key) then Some(e) else Lookup(f, t, k) {
      LookupPut(f, t, e.key, e.value, k);
    }
  }

  lemma {:induction false} ApartPushed<K(!new), V, R>(f: Keys<K, R>, l: List<Entry<K, V>>, t: Buckets<K, V>, e: Entry<K, V>)
    requires IsTable(f, t) && Respects(f) && Lookup(f, t, e.key).None? && Apart(f, l, t) && Find(f, l, e.key).None?
    ensures Apart(f, l, Pushed(f, t, e))
  {
    if l.Cons? {
      PushKeeps(f, One, t, e);
      ApartPushed(f, l.tail, t, e);
    }
  }

  lemma {:induction false} SpreadKeeps<K(!new), V, R, T>(f: Keys<K, R>, w: Entry<K, V> -> multiset<T>, l: List<Entry<K, V>>, i: nat, n: nat, t: Buckets<K, V>)
    requires n > 0 && InBucket(f, l, i, n) && IsTable(f, t) && Respects(f) && Apart(f, l, t)
    ensures IsTable(f, Spread(f, l, t)) && Total(w, Spread(f, l, t)) == Total(w, t) + Sum(w, l)
    decreases l
  {
    if l.Cons? {
      PushKeeps(f, w, t, l.head);
      ApartPushed(f, l.tail, t, l.head);
      SpreadKeeps(f, w, l.tail, i, n, Pushed(f, t, l.head));
    }
  }

  lemma {:induction false} SpreadLookup<K(!new), V, R>(f: Keys<K, R>, l: List<Entry<K, V>>, t: Buckets<K, V>, k: K)
    requires |t| > 0 && Respects(f) && Find(f, l, k).None? && Lookup(f, t, k).None?
    ensures Lookup(f, Spread(f, l, t), k).None?
    decreases l
  {
    if l.Cons? { SpreadLookup(f, l.tail, Pushed(f, t, l.head), k); }
  }

  /** The keys of another bucket stay apart. */
  lemma {:induction false} ApartSpread<K(!new), V, R>(f: Keys<K, R>, l: List<Entry<K, V>>, j: nat, m: List<Entry<K, V>>, i: nat, n: nat, t: Buckets<K, V>)
    requires n > 0 && i != j && InBucket(f, l, j, n) && InBucket(f, m, i, n) && |t| > 0 && Respects(f) && Apart(f, l, t)
    ensures Apart(f, l, Spread(f, m, t))
  {
    if l.Cons? {
      var k := l.head.key;
      if Find(f, m, k).Some? { FoundHere(f, m, i, n, k); }
      SpreadLookup(f, m, t, k);
      ApartSpread(f, l.tail, j, m, i, n, t);
    }
  }

  lemma {:induction false} SpreadAllKeeps<K(!new), V, R, T>(f: Keys<K, R>, w: Entry<K, V> -> multiset<T>, s: Buckets<K, V>, i: nat, t: Buckets<K, V>)
    requires IsTable(f, s) && i <= |s| && IsTable(f, t) && Respects(f)
    requires forall j :: i <= j < |s| ==> Apart(f, s[j], t)
    ensures IsTable(f, SpreadAll(f, s, i, t)) && Total(w, SpreadAll(f, s, i, t)) + Sums(w, s, i) == Total(w, t) + Total(w, s)
    decreases |s| - i
  {
    hide Apart, InBucket, Spread, Sum;
    if i < |s| {
      SpreadKeeps(f, w, s[i], i, |s|, t);
      var t1 := Spread(f, s[i], t);
      forall j | i + 1 <= j < |s| ensures Apart(f, s[j], t1) {
        ApartSpread(f, s[j], j, s[i], i, |s|, t);
      }
      SpreadAllKeeps(f, w, s, i + 1, t1);
      Shift(Total(w, SpreadAll(f, s, i, t)), Sums(w, s, i), Sum(w, s[i]), Total(w, t), Total(w, s));
    }
  }

  lemma Shift<T>(a: multiset<T>, b: multiset<T>, x: multiset<T>, c: multiset<T>, d: multiset<T>)
    requires a + (b + x) == (c + x) + d
    ensures a + b == c + d
  {
    assert a + (b + x) == (a + b) + x;
    assert (c + x) + d == (c + d) + x;
    CancelOne(a + b, c + d, x);
  }

  lemma {:induction false} EmptySums<K, V, T>(w: Entry<K, V> -> multiset<T>, n: nat, i: nat)
    requires i <= n
    ensures Sums(w, Empty<K, V>(n), i) == multiset{}
  {
    if i > 0 { EmptySums<K, V, T>(w, n, i - 1); }
  }

  lemma {:induction false} ApartEmpty<K, V, R>(f: Keys<K, R>, l: List<Entry<K, V>>, n: nat)
    requires n > 0
    ensures Apart(f, l, Empty(n))
  {
    if l.Cons? { ApartEmpty(f, l.tail, n); }
  }

  /** Rehashing to any positive number of buckets moves every entry to its new bucket, without loss or duplication. */
  lemma RehashKeeps<K(!new), V, R, T>(f: Keys<K, R>, w: Entry<K, V> -> multiset<T>, t: Buckets<K, V>, n: nat)
    requires IsTable(f, t) && Respects(f) && n > 0
    ensures IsTable(f, Rehash(f, t, n)) && Total(w, Rehash(f, t, n)) == Total(w, t)
  {
    if n != |t| {
      var e := Empty<K, V>(n);
      var r := SpreadAll(f, t, 0, e);
      EmptySums<K, V, T>(w, n, n);
      forall j | 0 <= j < |t| ensures Apart(f, t[j], Empty(n)) { ApartEmpty(f, t[j], n); }
      SpreadAllKeeps(f, w, t, 0, e);
      assert Sums(w, t, 0) == multiset{} && Total(w, e) == multiset{};
      assert Total(w, r) == Total(w, r) + multiset{} == multiset{} + Total(w, t) == Total(w, t);
    }
  }

  /** Two tables with the same entries answer every look-up alike. */
  lemma SameEntries<K(!new), V, R>(f: Keys<K, R>, t: Buckets<K, V>, t': Buckets<K, V>, k: K)
    requires IsTable(f, t) && IsTable(f, t') && Respects(f) && All(t) == All(t')
    ensures Lookup(f, t, k) == Lookup(f, t', k)
  {
    if Lookup(f, t, k).Some? {
      FoundIsStored(f, t, t', k);
    } else if Lookup(f, t', k).Some? {
      FoundIsStored(f, t', t, k);
    }
  }

  lemma FoundIsStored<K(!new), V, R>(f: Keys<K, R>, t: Buckets<K, V>, t': Buckets<K, V>, k: K)
    requires IsTable(f, t) && IsTable(f, t') && Respects(f) && All(t) == All(t') && Lookup(f, t, k).Some?
    ensures Lookup(f, t', k) == Lookup(f, t, k)
  {
    var e := Lookup(f, t, k).value;
    FoundHere(f, t[Slot(f, t, k)], Slot(f, t, k), |t|, k);
    SumIn(t, Slot(f, t, k), |t|, e);
    Stored(f, t', e);
    FindSame(f, t'[Slot(f, t', k)], k, e.key);
  }

  // ----- adding up in order -----

  ghost function Poured<K, V, T>(acc: multiset<T>, w: Entry<K, V> -> multiset<T>, l: List<Entry<K, V>>): multiset<T>
    decreases l
  {
    match l
    case Nil => acc
    case Cons(e, t) => Poured(acc + w(e), w, t)
  }

  ghost function PouredAll<K, V, T>(acc: multiset<T>, w: Entry<K, V> -> multiset<T>, t: Buckets<K, V>, i: nat): multiset<T>
    requires i <= |t|
    decreases |t| - i
  {
    if i == |t| then acc else PouredAll(Poured(acc, w, t[i]), w, t, i + 1)
  }

  lemma {:induction false} PouredSum<K, V, T>(acc: multiset<T>, w: Entry<K, V> -> multiset<T>, l: List<Entry<K, V>>)
    ensures Poured(acc, w, l) == acc + Sum(w, l)
    decreases l
  {
    if l.Cons? {
      PouredSum(acc + w(l.head), w, l.tail);
      Regroup(acc, w(l.head), Sum(w, l.tail));
    }
  }

  lemma Regroup<T>(a: multiset<T>, b: multiset<T>, c: multiset<T>)
    ensures (a + b) + c == a + (c + b)
    ensures (a + c) + b == a + (c + b)
  {
  }

  lemma {:induction false} PouredTotal<K, V, T>(acc: multiset<T>, w: Entry<K, V> -> multiset<T>, t: Buckets<K, V>, i: nat)
    requires i <= |t|
    ensures PouredAll(acc + Sums(w, t, i), w, t, i) == acc + Total(w, t)
    decreases |t| - i
  {
    if i < |t| {
      PouredSum(acc + Sums(w, t, i), w, t[i]);
      Regroup(acc, Sum(w, t[i]), Sums(w, t, i));
      PouredTotal(acc, w, t, i + 1);
    }
  }

  lemma PouredOut<K, V, T>(acc: multiset<T>, w: Entry<K, V> -> multiset<T>, t: Buckets<K, V>)
    ensures PouredAll(acc, w, t, 0) == acc + Total(w, t)
  {
    PouredTotal(acc, w, t, 0);
    assert acc + Sums(w, t, 0) == acc;
  }

  // ----- walking through the table -----

  /** The entries of the buckets from `i` on, in order. */
  function Flat<K, V>(t: Buckets<K, V>, i: nat): List<Entry<K, V>>
    requires i <= |t|
    decreases |t| - i
  {
    if i == |t| then Nil else CText.Append(t[i], Flat(t, i + 1))
  }

  /** The pairs of a later bucket come later. */
  lemma {:induction false} FlatLast<K, V>(t: Buckets<K, V>, l: List<Entry<K, V>>, i: nat)
    requires i <= |t|
    ensures Flat(t + [l], i) == CText.Append(Flat(t, i), l)
    decreases |t| - i
  {
    if i == |t| {
      assert Flat(t + [l], |t| + 1) == Nil;
      AppendNil(l);
    } else {
      FlatLast(t, l, i + 1);
      AppendAssociates(t[i], Flat(t, i + 1), l);
    }
  }

  lemma {:induction false} SumAppend<K, V, T>(w: Entry<K, V> -> multiset<T>, a: List<Entry<K, V>>, b: List<Entry<K, V>>)
    ensures Sum(w, CText.Append(a, b)) == Sum(w, a) + Sum(w, b)
  {
    if a.Cons? {
      SumAppend(w, a.tail, b);
      Regroup(Sum(w, a.tail), Sum(w, b), w(a.head));
      Regroup(Sum(w, a.tail), w(a.head), Sum(w, b));
    }
  }

  /** Walking meets every stored entry exactly once. */
  lemma {:induction false} FlatMeetsAll<K, V, T>(w: Entry<K, V> -> multiset<T>, t: Buckets<K, V>, i: nat)
    requires i <= |t|
    ensures Sums(w, t, i) + Sum(w, Flat(t, i)) == Total(w, t)
    decreases |t| - i
  {
    if i < |t| {
      SumAppend(w, t[i], Flat(t, i + 1));
      FlatMeetsAll(w, t, i + 1);
      Regroup(Sums(w, t, i), Sum(w, t[i]), Sum(w, Flat(t, i + 1)));
      assert Sum(w, Flat(t, i + 1)) + Sum(w, t[i]) == Sum(w, t[i]) + Sum(w, Flat(t, i + 1));
    }
  }
}
