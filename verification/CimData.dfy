/** Key values and object paths, and the text of a value. */
module CimData {
  import opened CText

  /** A CMPIValue with its type; `bits` is the width of an integer type. */
  datatype Scalar = Bool(b: bool) | Uint(bits: nat, n: nat) | Sint(bits: nat, i: int) | Str(s: string)

  datatype Path = Path(ns: Option<string>, cls: Option<string>, keys: List<Key>)

  datatype Key = Key(name: string, value: KeyVal)

  datatype KeyVal = Plain(v: Scalar) | Ref(path: Path)

  predicate IsWidth(bits: nat) { bits == 8 || bits == 16 || bits == 32 || bits == 64 }

  /** 2 to the power `bits` - 1. */
  function Half(bits: nat): (h: int)
    ensures h > 0
  {
    match bits
    case 8 => 0x80
    case 16 => 0x8000
    case 32 => 0x8000_0000
    case _ => 0x8000_0000_0000_0000
  }

  /** The C type of the value holds it. */
  predicate IsScalar(v: Scalar) {
    match v
    case Uint(bits, n) => IsWidth(bits) && n < 2 * Half(bits)
    case Sint(bits, i) => IsWidth(bits) && -Half(bits) <= i < Half(bits)
    case _ => true
  }

  // ----- decimal numbers -----

  function DigitChar(d: nat): char
    requires d < 10
  {
    ('0' as int + d) as char
  }

  function DigitVal(c: char): (d: nat)
    requires IsDigit(c)
    ensures d < 10
  {
    c as int - '0' as int
  }

  /** "%u" */
  function Dec(n: nat): (s: string)
    ensures s != "" && forall i :: 0 <= i < |s| ==> IsDigit(s[i])
  {
    if n < 10 then [DigitChar(n)] else Dec(n / 10) + [DigitChar(n % 10)]
  }

  /** "%d" */
  function SignedDec(i: int): (s: string)
    ensures s != ""
  {
    if i < 0 then "-" + Dec(-i) else Dec(i)
  }

  /** The number of digits from position `i` on. */
  function Digits(s: string, i: nat): (k: nat)
    requires i <= |s|
    ensures i + k <= |s| && forall j :: i <= j < i + k ==> IsDigit(s[j])
    decreases |s| - i
  {
    if i < |s| && IsDigit(s[i]) then 1 + Digits(s, i + 1) else 0
  }

  function NumberOf(s: string): nat
    requires forall j :: 0 <= j < |s| ==> IsDigit(s[j])
  {
    if s == "" then 0 else 10 * NumberOf(s[..|s| - 1]) + DigitVal(s[|s| - 1])
  }

  /** sscanf of "%llu" and "%lld" at `i`, where no sign is left: nothing if there is no digit. */
  function ScanNumber(s: string, i: nat): Option<nat>
    requires i <= |s|
  {
    var k := Digits(s, i);
    if k == 0 then None else Some(NumberOf(s[i..i + k]))
  }

  lemma {:induction false} DecDigits(s: string, i: nat)
    requires i <= |s| && forall j :: i <= j < |s| ==> IsDigit(s[j])
    ensures Digits(s, i) == |s| - i
    decreases |s| - i
  {
    if i < |s| { DecDigits(s, i + 1); }
  }

  lemma {:induction false} DigitsCounted(s: string, i: nat, j: nat)
    requires i <= j <= |s| && (forall k :: i <= k < j ==> IsDigit(s[k])) && (j < |s| ==> !IsDigit(s[j]))
    ensures Digits(s, i) == j - i
    decreases j - i
  {
    if i < j { DigitsCounted(s, i + 1, j); }
  }

  lemma {:induction false} DecNumber(n: nat)
    ensures NumberOf(Dec(n)) == n
  {
    if n < 10 {
      assert [DigitChar(n)][..0] == "";
    } else {
      var s := Dec(n);
      assert s[..|s| - 1] == Dec(n / 10);
      DecNumber(n / 10);
    }
  }

  /** A number that was printed is read back, with or without a character before it. */
  lemma DecScan(p: string, n: nat)
    ensures ScanNumber(p + Dec(n), |p|) == Some(n)
  {
    var s := p + Dec(n);
    DecDigits(s, |p|);
    assert s[|p|..|p| + Digits(s, |p|)] == Dec(n);
    DecNumber(n);
  }

  // ----- value2Chars -----

  function CharsOf(v: Scalar): string {
    match v
    case Bool(b) => if b then "true" else "false"
    case Uint(_, n) => Dec(n)
    case Sint(_, i) => SignedDec(i)
    case Str(s) => s
  }

  /** keytype2Chars */
  function KeyType(v: Scalar): string {
    match v
    case Bool(_) => "boolean"
    case Uint(_, _) => "numeric"
    case Sint(_, _) => "numeric"
    case Str(_) => "string"
  }

  // ----- getKeyValueTypePtr -----

  function Min(a: int, b: int): int { if a <= b then a else b }

  function Max(a: int, b: int): int { if a <= b then b else a }

  /** A numeric key, held to the range of the type; nothing is stored if there is no digit. */
  function ReadNumeric(v: string): Option<Scalar> {
    if v != "" && (v[0] == '+' || v[0] == '-') then
      match ScanNumber(v, 1)
      case None => None
      case Some(n) => Some(Sint(64, if v[0] == '-' then Max(-(n as int), -Half(64)) else Min(n, Half(64) - 1)))
    else
      match ScanNumber(v, 0)
      case None => None
      case Some(n) => Some(Uint(64, if n < 2 * Half(64) then n else 2 * Half(64) - 1))
  }

  predicate HasSign(s: string) { s != "" && (s[0] == '+' || s[0] == '-') }

  /** The low bits of a number as an unsigned and as a signed type. */
  function LowBits(bits: nat, m: int): (n: nat)
    ensures n < 2 * Half(bits)
  {
    m % (2 * Half(bits))
  }

  function SignedBits(bits: nat, m: int): (i: int)
    ensures -Half(bits) <= i < Half(bits)
  {
    var n := LowBits(bits, m);
    if n < Half(bits) then n else n - 2 * Half(bits)
  }

  lemma BitsKept(bits: nat, m: int)
    requires IsWidth(bits)
    ensures 0 <= m < 2 * Half(bits) ==> LowBits(bits, m) == m
    ensures -Half(bits) <= m < Half(bits) ==> SignedBits(bits, m) == m
  {
  }

  /** str2CMPIValue for unsigned types: sscanf holds the number to 64 bits and negates modulo 2 to the 64, and the
      type keeps its low bits. */
  function ReadUint(bits: nat, s: string): Option<Scalar> {
    match ScanNumber(s, if HasSign(s) then 1 else 0)
    case None => None
    case Some(n) =>
      var all := 2 * Half(64);
      var m := if n >= all then all - 1 else if s[0] == '-' then (all - n) % all else n;
      Some(Uint(bits, LowBits(bits, m)))
  }

  /** The same for signed types. */
  function ReadSint(bits: nat, s: string): Option<Scalar> {
    match ScanNumber(s, if HasSign(s) then 1 else 0)
    case None => None
    case Some(n) =>
      var m: int := if s[0] == '-' then Max(-(n as int), -Half(64)) else Min(n, Half(64) - 1);
      Some(Sint(bits, SignedBits(bits, m)))
  }

  lemma UintPropertyRead(bits: nat, n: nat)
    requires IsWidth(bits) && n < 2 * Half(bits)
    ensures Trim(Dec(n)) == Dec(n) && ReadUint(bits, Dec(n)) == Some(Uint(bits, n))
  {
    hide Trim, NumberOf, LowBits;
    TrimNumber(Dec(n));
    DecScan("", n);
    assert "" + Dec(n) == Dec(n);
    BitsKept(bits, n);
  }

  lemma SintPropertyRead(bits: nat, i: int)
    requires IsWidth(bits) && -Half(bits) <= i < Half(bits)
    ensures Trim(SignedDec(i)) == SignedDec(i) && ReadSint(bits, SignedDec(i)) == Some(Sint(bits, i))
  {
    hide Trim, NumberOf, SignedBits;
    TrimNumber(SignedDec(i));
    BitsKept(bits, i);
    if i < 0 {
      DecScan("-", -i);
    } else {
      DecScan("", i);
      assert "" + Dec(i) == Dec(i);
    }
  }

  /** A key value that is no reference. The branch for boolean keys compares the type, not the value, with "true".
      There is nothing to store for a string without content, and no reference to read for a type "ref". */
  function ReadScalar(typ: Option<string>, v: Option<string>): Option<Scalar> {
    if v.None? then None
    else if typ.None? || SameNoCase(typ.value, "string") then Some(Str(v.value))
    else if SameNoCase(typ.value, "boolean") then Some(Bool(SameNoCase(typ.value, "true")))
    else if SameNoCase(typ.value, "numeric") then ReadNumeric(v.value)
    else if SameNoCase(typ.value, "ref") then None
    else Some(Str(v.value))
  }

  /** What a scalar key becomes on its way through XML: integers are widened, booleans are false, and strings
      are trimmed. */
  function NormalScalar(v: Scalar): Scalar {
    match v
    case Bool(_) => Bool(false)
    case Uint(_, n) => Uint(64, n)
    case Sint(_, i) => if i < 0 then Sint(64, i) else Uint(64, i)
    case Str(s) => Str(Trim(s))
  }

  lemma TrimNumber(s: string)
    requires s != "" && forall i :: 0 <= i < |s| ==> !IsBlank(s[i])
    ensures Trim(s) == s
  {
  }

  lemma UintRead(n: nat)
    requires n < 2 * Half(64)
    ensures Trim(Dec(n)) == Dec(n) && ReadNumeric(Dec(n)) == Some(Uint(64, n))
  {
    hide Trim, NumberOf;
    TrimNumber(Dec(n));
    DecScan("", n);
    assert "" + Dec(n) == Dec(n);
  }

  lemma NegativeRead(i: int)
    requires -Half(64) <= i < 0
    ensures Trim(SignedDec(i)) == SignedDec(i) && ReadNumeric(SignedDec(i)) == Some(Sint(64, i))
  {
    TrimNumber(SignedDec(i));
    DecScan("-", -i);
  }

  lemma NonNegativeRead(i: int)
    requires 0 <= i < Half(64)
    ensures Trim(SignedDec(i)) == SignedDec(i) && ReadNumeric(SignedDec(i)) == Some(Uint(64, i))
  {
    UintRead(i);
  }

  lemma ScalarRead(v: Scalar)
    requires IsScalar(v)
    ensures ReadScalar(Some(KeyType(v)), Some(Trim(CharsOf(v)))) == Some(NormalScalar(v))
  {
    hide Trim, Dec, SignedDec, ReadNumeric;
    match v
    case Bool(b) =>
      assert |"boolean"| != |"string"| && |"boolean"| != |"true"|;
    case Uint(_, n) =>
      assert |"numeric"| != |"string"| && Lower("numeric"[0]) != Lower("boolean"[0]);
      UintRead(n);
    case Sint(_, i) =>
      assert |"numeric"| != |"string"| && Lower("numeric"[0]) != Lower("boolean"[0]);
      if i < 0 {
        NegativeRead(i);
      } else {
        NonNegativeRead(i);
      }
    case Str(_) =>
  }

  /** No blanks at the ends. */
  predicate IsTrimmed(s: string) { s != "" ==> !IsBlank(s[0]) && !IsBlank(s[|s| - 1]) }

  /** Exactly the scalars that come back as they were. */
  predicate IsExact(v: Scalar) {
    match v
    case Bool(b) => !b
    case Uint(bits, _) => bits == 64
    case Sint(bits, i) => bits == 64 && i < 0
    case Str(s) => IsTrimmed(s)
  }

  lemma ExactScalars(v: Scalar)
    ensures NormalScalar(v) == v <==> IsExact(v)
  {
    if v.Str? { TrimExact(v.s); }
  }

  lemma TrimExact(s: string)
    ensures Trim(s) == s <==> IsTrimmed(s)
  {
    var a, b := Lead(s, 0), Tail(s, |s|);
    if s != "" && Trim(s) == s {
      assert a < |s| ==> a <= b;
      assert |s[a..b]| == b - a;
    }
  }
}
