/** String keys for the hash table: the hash and comparison functions of utilHashtable.c. */
module StringKeys {
  import opened CText
  import opened HashModel
  import opened HashRuns
  import opened Arithmetic

  /** The range of an unsigned long. */
  const WORD: nat := 0x1_0000_0000_0000_0000

  function HashFrom(s: string, upper: bool, i: nat, h: nat): nat
    requires i <= |s|
    decreases |s| - i
  {
    if i == |s| then h
    else HashFrom(s, upper, i + 1, (h * 37 + (if upper then Upper(s[i]) else s[i]) as int) % WORD)
  }

  method CharHashFunction(str: string) returns (hashValue: nat)
    ensures hashValue == HashFrom(str, false, 0, 0)
  {
    hashValue := 0;
    for i := 0 to |str|
      invariant HashFrom(str, false, i, hashValue) == HashFrom(str, false, 0, 0)
    {
      hashValue := (hashValue * 37 + str[i] as int) % WORD;
    }
  }

  method CharIcHashFunction(str: string) returns (hashValue: nat)
    ensures hashValue == HashFrom(str, true, 0, 0)
  {
    hashValue := 0;
    for i := 0 to |str|
      invariant HashFrom(str, true, i, hashValue) == HashFrom(str, true, 0, 0)
    {
      hashValue := (hashValue * 37 + Upper(str[i]) as int) % WORD;
    }
  }

  /** The characters, or their upper-case letters, as the digits of a number in base 37. */
  function InBase37(s: string, upper: bool): nat {
    if s == "" then 0
    else InBase37(s[..|s| - 1], upper) * 37 + (if upper then Upper(s[|s| - 1]) else s[|s| - 1]) as int
  }

  lemma Wrapped(a: nat, b: nat, c: nat)
    requires b == a % WORD
    ensures (b * 37 + c) % WORD == (a * 37 + c) % WORD
  {
    var q := a / WORD;
    assert a == b + WORD * q;
    Periodic(b * 37 + c, WORD, 37 * q);
  }

  lemma {:induction false} HashIsNumber(s: string, upper: bool, i: nat)
    requires i <= |s|
    ensures HashFrom(s, upper, i, InBase37(s[..i], upper) % WORD) == InBase37(s, upper) % WORD
    decreases |s| - i
  {
    if i == |s| {
      assert s[..i] == s;
    } else {
      var c: nat := (if upper then Upper(s[i]) else s[i]) as int;
      assert s[..i + 1][..i] == s[..i];
      Wrapped(InBase37(s[..i], upper), InBase37(s[..i], upper) % WORD, c);
      HashIsNumber(s, upper, i + 1);
    }
  }

  /** The hash of a key is that number, held to 64 bits. */
  lemma HashValue(s: string, upper: bool)
    ensures HashFrom(s, upper, 0, 0) == InBase37(s, upper) % WORD
  {
    assert s[..0] == "";
    HashIsNumber(s, upper, 0);
  }

  function Lowered(s: string): string { seq(|s|, i requires 0 <= i < |s| => Lower(s[i])) }

  lemma LowerUpper(a: char, b: char)
    requires Lower(a) == Lower(b)
    ensures Upper(a) == Upper(b)
  {
  }

  /** strcasecmp compares lower-case letters, the hash takes upper-case ones: equal keys still hash alike. */
  lemma {:induction false} IcHashRespects(a: string, b: string, i: nat, h: nat)
    requires SameNoCase(a, b) && i <= |a|
    ensures HashFrom(a, true, i, h) == HashFrom(b, true, i, h)
    decreases |a| - i
  {
    if i < |a| {
      LowerUpper(a[i], b[i]);
      IcHashRespects(a, b, i + 1, (h * 37 + Upper(a[i]) as int) % WORD);
    }
  }

  lemma LoweredSame(a: string, b: string)
    ensures Lowered(a) == Lowered(b) <==> SameNoCase(a, b)
  {
    if Lowered(a) == Lowered(b) {
      assert |Lowered(a)| == |a| && |Lowered(b)| == |b|;
      forall i | 0 <= i < |a| ensures Lower(a[i]) == Lower(b[i]) {
        assert Lowered(a)[i] == Lower(a[i]) && Lowered(b)[i] == Lower(b[i]);
      }
    }
  }

  /** charIcCmpFunction with charIcHashFunction, and charCmpFunction with charHashFunction. */
  function IcKeys(): Keys<string, string> { Keys(Lowered, s => HashFrom(s, true, 0, 0)) }

  function CharKeys(): Keys<string, string> { Keys(s => s, s => HashFrom(s, false, 0, 0)) }

  lemma StringKeysRespect()
    ensures Respects(IcKeys()) && Respects(CharKeys())
  {
    forall a, b | IcKeys().rep(a) == IcKeys().rep(b) ensures IcKeys().hash(a) == IcKeys().hash(b) {
      LoweredSame(a, b);
      IcHashRespects(a, b, 0, 0);
    }
  }

  /** Look-ups in a table keyed without regard to case: after a run that puts `v` under `key` last, every spelling of
      the key finds it. */
  lemma AnySpelling<V>(d: Release, n: nat, ops: seq<Op<string, V>>, key: string, v: V, k: string)
    requires n > 0 && SameNoCase(k, key)
    ensures Respects(IcKeys())
    ensures var t := Run(IcKeys(), d, n, ops + [PutOp(key, v)]).buckets;
            Lookup(IcKeys(), t, k).Some? && Lookup(IcKeys(), t, k).value.value == v
  {
    var all := ops + [PutOp(key, v)];
    assert all[..|all| - 1] == ops;
    StringKeysRespect();
    LoweredSame(k, key);
    RunRefinesMap(IcKeys(), d, n, all, k);
  }
}
