/** Interval timestamps of datetime.c, in the format of DSP0004 section 5.2.4: ddddddddhhmmss.mmmmmm:000 */
module DateTimes {
  import opened CText
  import opened CimData
  import opened Arithmetic

  /** The range of a 64-bit unsigned number. */
  const WORD: nat := 0x1_0000_0000_0000_0000

  /** The first number of microseconds that needs more than eight digits for its days. */
  const LIMIT: nat := 8_640_000_000_000_000_000

  /** "%w.wllu": at least `w` digits. */
  function Pad(n: nat, w: nat): (s: string)
    ensures forall i :: 0 <= i < |s| ==> IsDigit(s[i])
    decreases w
  {
    if w == 0 then if n == 0 then "" else Dec(n) else Pad(n / 10, w - 1) + [DigitChar(n % 10)]
  }

  datatype Fields = Fields(days: nat, hrs: nat, mins: nat, secs: nat, usecs: nat)

  function Split(t: nat): (f: Fields)
    ensures f.hrs < 24 && f.mins < 60 && f.secs < 60 && f.usecs < 1_000_000 && Joined(f) == t
  {
    var s := t / 1_000_000;
    var m := s / 60;
    var h := m / 60;
    Fields(h / 24, h % 24, m % 60, s % 60, t % 1_000_000)
  }

  function Joined(f: Fields): nat { f.usecs + (f.secs + f.mins * 60 + f.hrs * 3600 + f.days * 86400) * 1_000_000 }

  /** bin2chars for an interval */
  function Format(f: Fields): string {
    Pad(f.days, 8) + Pad(f.hrs, 2) + Pad(f.mins, 2) + Pad(f.secs, 2) + "." + Pad(f.usecs, 6) + ":000"
  }

  function Bin2Chars(t: nat): string { Format(Split(t)) }

  // ----- padded numbers -----

  function Pow10(w: nat): nat { if w == 0 then 1 else 10 * Pow10(w - 1) }

  lemma {:induction false} PadLength(n: nat, w: nat)
    ensures |Pad(n, w)| >= w && (|Pad(n, w)| == w <==> n < Pow10(w))
  {
    if w > 0 { PadLength(n / 10, w - 1); }
  }

  lemma {:induction false} PadNumber(n: nat, w: nat)
    ensures NumberOf(Pad(n, w)) == n
  {
    if w == 0 {
      if n > 0 { DecNumber(n); }
    } else {
      var s := Pad(n, w);
      assert s[..|s| - 1] == Pad(n / 10, w - 1);
      PadNumber(n / 10, w - 1);
    }
  }

  lemma {:induction false} NumberPad(s: string)
    requires forall i :: 0 <= i < |s| ==> IsDigit(s[i])
    ensures Pad(NumberOf(s), |s|) == s && NumberOf(s) < Pow10(|s|)
  {
    if s != "" {
      NumberPad(s[..|s| - 1]);
      assert s == s[..|s| - 1] + [s[|s| - 1]];
    }
  }

  // ----- chars2bin -----

  predicate IsSpace(c: char) { c == ' ' || '\t' <= c <= '\r' }

  function SkipSpace(s: string, i: nat): (k: nat)
    requires i <= |s|
    ensures i <= k <= |s|
    decreases |s| - i
  {
    if i < |s| && IsSpace(s[i]) then SkipSpace(s, i + 1) else i
  }

  /** strtoull(s + i, NULL, 10): spaces, a sign, and digits, as many as follow. */
  function Strtoull(s: string, i: nat): (n: nat)
    requires i <= |s|
    ensures n < WORD
  {
    var j := SkipSpace(s, i);
    var signed := j < |s| && (s[j] == '+' || s[j] == '-');
    var k := if signed then j + 1 else j;
    var n := NumberOf(s[k..k + Digits(s, k)]);
    if n >= WORD then WORD - 1 else if signed && s[j] == '-' then (WORD - n) % WORD else n
  }

  /** White space and a sign are read over; a number too large becomes the largest one, and a minus wraps around. */
  lemma NumberRead(p: string, spaces: string, sign: string, digits: string, rest: string)
    requires forall i :: 0 <= i < |spaces| ==> spaces[i] == ' ' || '\t' <= spaces[i] <= '\r'
    requires sign == "" || sign == "+" || sign == "-"
    requires digits != "" && (forall i :: 0 <= i < |digits| ==> IsDigit(digits[i])) && (rest != "" ==> !IsDigit(rest[0]))
    ensures Strtoull(p + spaces + sign + digits + rest, |p|)
         == if NumberOf(digits) >= WORD then WORD - 1 else if sign == "-" then (WORD - NumberOf(digits)) % WORD else NumberOf(digits)
  {
    hide NumberOf, Digits, SkipSpace, Strtoull;
    var s := p + spaces + sign + digits + rest;
    var j := |p| + |spaces|;
    var k := j + |sign|;
    Layout(p, spaces, sign, digits, rest);
    SpacesSkipped(s, |p|, j);
    DigitsCounted(s, k, k + |digits|);
    AfterSpaces(s, |p|, j, sign, digits);
  }

  lemma AfterSpaces(s: string, i: nat, j: nat, sign: string, digits: string)
    requires i <= |s| && SkipSpace(s, i) == j && (sign == "" || sign == "+" || sign == "-") && digits != ""
    requires var k := j + |sign|; k + |digits| <= |s| && Digits(s, k) == |digits| && s[k..k + |digits|] == digits && s[k] == digits[0]
    requires IsDigit(digits[0]) && (sign != "" ==> s[j] == sign[0]) && forall x :: 0 <= x < |digits| ==> IsDigit(digits[x])
    ensures Strtoull(s, i)
         == if NumberOf(digits) >= WORD then WORD - 1 else if sign == "-" then (WORD - NumberOf(digits)) % WORD else NumberOf(digits)
  {
    hide NumberOf, Digits, SkipSpace;
  }

  /** Where the parts of such a text are. */
  lemma Layout(p: string, spaces: string, sign: string, digits: string, rest: string)
    requires |sign| <= 1 && digits != ""
    ensures var s, j := p + spaces + sign + digits + rest, |p| + |spaces|; var k := j + |sign|; var e := k + |digits|;
            && e <= |s| && s[k..e] == digits && s[k] == digits[0] && (sign != "" ==> s[j] == sign[0])
            && (e < |s| ==> rest != "" && s[e] == rest[0])
            && (forall i :: |p| <= i < j ==> s[i] == spaces[i - |p|]) && (forall i :: k <= i < e ==> s[i] == digits[i - k])
  {
  }

  lemma {:induction false} SpacesSkipped(s: string, i: nat, j: nat)
    requires i <= j < |s| && (forall k :: i <= k < j ==> IsSpace(s[k])) && !IsSpace(s[j])
    ensures SkipSpace(s, i) == j
    decreases j - i
  {
    if i < j { SpacesSkipped(s, i + 1, j); }
  }

  /** The fields, each read up to the next cut, from the right to the left. */
  function Read(s: string): (f: Fields)
    requires |s| >= 22
  {
    Fields(Strtoull(s[..8], 0), Strtoull(s[..10], 8), Strtoull(s[..12], 10), Strtoull(s[..14], 12), Strtoull(s[..21], 15))
  }

  /** The sum in 64-bit arithmetic. */
  function Word(n: nat): nat { n % WORD }

  function Sum(f: Fields): nat {
    var a := Word(f.secs + Word(f.mins * 60));
    var b := Word(a + Word(Word(f.hrs * 60) * 60));
    var c := Word(b + Word(Word(Word(f.days * 60) * 60) * 24));
    Word(f.usecs + Word(c * 1_000_000))
  }

  lemma WordAdd(a: nat, b: nat)
    ensures Word(a + Word(b)) == Word(a + b)
  {
    Periodic(a + Word(b), WORD, b / WORD);
  }

  lemma WordTimes(a: nat, k: nat)
    ensures Word(Word(a) * k) == Word(a * k)
  {
    var q := a / WORD;
    assert a * k == Word(a) * k + WORD * (q * k) by { assert a == Word(a) + WORD * q; Distribute(Word(a), q, k); }
    Periodic(Word(a) * k, WORD, q * k);
  }

  lemma Distribute(r: nat, q: nat, k: nat)
    ensures (r + WORD * q) * k == r * k + WORD * (q * k)
  {
  }

  /** Whatever was read, the sum is the interval in microseconds, held to 64 bits. */
  lemma SumWraps(f: Fields)
    ensures Sum(f) == Word(Joined(f))
  {
    hide Word;
    var h, d := f.hrs * 60, f.days * 60;
    var a := f.secs + f.mins * 60;
    WordAdd(f.secs, f.mins * 60);
    WordTimes(h, 60);
    WordAdd(Word(a), Word(h) * 60);
    WordAdd(Word(a), h * 60);
    WordAdd(h * 60, a);
    WordTimes(d, 60);
    WordTimes(Word(d) * 60, 24);
    WordTimes(d * 60, 24);
    var b := a + h * 60;
    var c := b + d * 60 * 24;
    WordAdd(Word(b), Word(Word(Word(d) * 60) * 24));
    WordAdd(Word(b), d * 60 * 24);
    WordAdd(d * 60 * 24, b);
    WordTimes(c, 1_000_000);
    WordAdd(f.usecs, Word(c) * 1_000_000);
    WordAdd(f.usecs, c * 1_000_000);
  }

  /** An interval in canonical form. */
  predicate IsInterval(s: string) {
    && |s| == 25 && s[14] == '.' && s[21..] == ":000"
    && (forall i :: 0 <= i < 21 && i != 14 ==> IsDigit(s[i]))
    && NumberOf(s[8..10]) < 24 && NumberOf(s[10..12]) < 60 && NumberOf(s[12..14]) < 60
  }

  lemma DigitsRead(t: string, i: nat)
    requires i < |t| && (forall k :: i <= k < |t| ==> IsDigit(t[k])) && NumberOf(t[i..]) < WORD
    ensures Strtoull(t, i) == NumberOf(t[i..])
  {
    hide NumberOf;
    assert IsDigit(t[i]);
    DecDigits(t, i);
    assert t[i..i + Digits(t, i)] == t[i..];
  }

  /** A field of digits is read as its number. */
  lemma FieldRead(s: string, i: nat, j: nat)
    requires i < j <= |s| && (forall k :: i <= k < j ==> IsDigit(s[k])) && j - i < 19
    ensures Strtoull(s[..j], i) == NumberOf(s[i..j]) < Pow10(j - i)
  {
    hide NumberOf, Strtoull, Pow10, Pad;
    NumberPad(s[i..j]);
    PowBound(j - i);
    assert s[..j][i..] == s[i..j];
    DigitsRead(s[..j], i);
  }

  lemma {:induction false} PowBound(w: nat)
    requires w < 19
    ensures Pow10(w) <= 1_000_000_000_000_000_000 && Pow10(w) < WORD
  {
    PowGrows(w, 18);
    assert Pow10(18) == 10 * Pow10(17) == 100 * Pow10(16) == 1000 * Pow10(15) == 10000 * Pow10(14);
    assert Pow10(14) == 10 * Pow10(13) == 100 * Pow10(12) == 1000 * Pow10(11) == 10000 * Pow10(10);
    assert Pow10(10) == 10 * Pow10(9) == 100 * Pow10(8) == 1000 * Pow10(7) == 10000 * Pow10(6);
    assert Pow10(6) == 10 * Pow10(5) == 100 * Pow10(4) == 1000 * Pow10(3) == 10000 * Pow10(2) == 1_000_000;
  }

  lemma {:induction false} PowGrows(a: nat, b: nat)
    requires a <= b
    ensures 1 <= Pow10(a) <= Pow10(b)
    decreases b
  {
    if a < b { PowGrows(a, b - 1); } else if a > 0 { PowGrows(a - 1, b - 1); }
  }

  lemma Fits(n: nat)
    requires n < WORD
    ensures Word(n) == n
  {
  }

  /** No step of the sum overflows. */
  lemma SumExact(f: Fields)
    requires f.hrs < 100 && f.mins < 100 && f.secs < 100 && f.usecs < 1_000_000 && f.days < 100_000_000
    ensures Sum(f) == Joined(f) < WORD
  {
    hide Word;
    Fits(f.mins * 60);
    Fits(f.secs + f.mins * 60);
    Fits(f.hrs * 60);
    Fits(f.hrs * 60 * 60);
    var b := f.secs + f.mins * 60 + f.hrs * 60 * 60;
    Fits(b);
    Fits(f.days * 60);
    Fits(f.days * 60 * 60);
    Fits(f.days * 60 * 60 * 24);
    var c := b + f.days * 60 * 60 * 24;
    Fits(c);
    Fits(c * 1_000_000);
    Fits(f.usecs + c * 1_000_000);
  }

  lemma Powers()
    ensures Pow10(2) == 100 && Pow10(6) == 1_000_000 && Pow10(8) == 100_000_000
  {
    assert Pow10(2) == 10 * Pow10(1);
    assert Pow10(6) == 10 * Pow10(5) == 100 * Pow10(4) == 1000 * Pow10(3) == 10000 * Pow10(2);
    assert Pow10(8) == 10 * Pow10(7) == 100 * Pow10(6);
  }

  /** The fields of a text in canonical form. */
  lemma CanonicalRead(s: string)
    requires IsInterval(s)
    ensures Read(s) == Fields(NumberOf(s[..8]), NumberOf(s[8..10]), NumberOf(s[10..12]), NumberOf(s[12..14]), NumberOf(s[15..21]))
    ensures var f := Read(s); f.days < 100_000_000 && f.hrs < 24 && f.mins < 60 && f.secs < 60 && f.usecs < 1_000_000
  {
    hide Strtoull;
    Powers();
    FieldRead(s, 0, 8);
    FieldRead(s, 8, 10);
    FieldRead(s, 10, 12);
    FieldRead(s, 12, 14);
    FieldRead(s, 15, 21);
    assert s[0..8] == s[..8];
  }

  /** The parts of a printed interval. */
  lemma FormatParts(f: Fields)
    requires f.days < 100_000_000 && f.hrs < 24 && f.mins < 60 && f.secs < 60 && f.usecs < 1_000_000
    ensures var s := Format(f);
            |s| == 25 && s[..8] == Pad(f.days, 8) && s[8..10] == Pad(f.hrs, 2) && s[10..12] == Pad(f.mins, 2) && s[12..14] == Pad(f.secs, 2)
            && s[14] == '.' && s[15..21] == Pad(f.usecs, 6) && s[21..] == ":000"
  {
    hide Pad;
    Powers();
    PadLength(f.days, 8);
    PadLength(f.hrs, 2);
    PadLength(f.mins, 2);
    PadLength(f.secs, 2);
    PadLength(f.usecs, 6);
  }

  lemma FormatIsInterval(f: Fields)
    requires f.days < 100_000_000 && f.hrs < 24 && f.mins < 60 && f.secs < 60 && f.usecs < 1_000_000
    ensures IsInterval(Format(f)) && Read(Format(f)) == f
  {
    hide Pad, Strtoull, Read;
    var s := Format(f);
    FormatParts(f);
    PadNumber(f.days, 8);
    PadNumber(f.hrs, 2);
    PadNumber(f.mins, 2);
    PadNumber(f.secs, 2);
    PadNumber(f.usecs, 6);
    DigitsAt(s, 0, 8);
    assert s[0..8] == s[..8];
    DigitsAt(s, 8, 10);
    DigitsAt(s, 10, 12);
    DigitsAt(s, 12, 14);
    DigitsAt(s, 15, 21);
    CanonicalRead(s);
  }

  lemma DigitsAt(s: string, i: nat, j: nat)
    requires i <= j <= |s| && forall k :: 0 <= k < j - i ==> IsDigit(s[i..j][k])
    ensures forall k :: i <= k < j ==> IsDigit(s[k])
  {
    forall k | i <= k < j ensures IsDigit(s[k]) {
      assert s[k] == s[i..j][k - i];
    }
  }

  lemma DaysFit(t: nat)
    ensures Split(t).days < 100_000_000 <==> t < LIMIT
  {
  }

  /** A printed interval is read back, in 25 characters and without an overflow. */
  lemma IntervalRoundTrip(t: nat)
    requires t < LIMIT
    ensures IsInterval(Bin2Chars(t)) && Sum(Read(Bin2Chars(t))) == t
  {
    hide Format, Read, Sum;
    DaysFit(t);
    FormatIsInterval(Split(t));
    SumExact(Split(t));
  }

  /** From the limit on the days take a ninth digit, and the text is longer than its buffer. */
  lemma TooLong(t: nat)
    requires t >= LIMIT
    ensures |Bin2Chars(t)| > 25
  {
    hide Pad;
    var f := Split(t);
    DaysFit(t);
    Powers();
    PadLength(f.days, 8);
    PadLength(f.hrs, 2);
    PadLength(f.mins, 2);
    PadLength(f.secs, 2);
    PadLength(f.usecs, 6);
  }

  lemma SplitJoined(f: Fields)
    requires f.hrs < 24 && f.mins < 60 && f.secs < 60 && f.usecs < 1_000_000
    ensures Split(Joined(f)) == f
  {
    var s := f.secs + f.mins * 60 + f.hrs * 3600 + f.days * 86400;
    assert Joined(f) / 1_000_000 == s && Joined(f) % 1_000_000 == f.usecs;
    assert s / 60 == f.mins + f.hrs * 60 + f.days * 1440 && s % 60 == f.secs;
    assert (f.mins + f.hrs * 60 + f.days * 1440) / 60 == f.hrs + f.days * 24;
  }

  /** A text in canonical form is printed again as it was. */
  lemma CanonicalRoundTrip(s: string)
    requires IsInterval(s)
    ensures Bin2Chars(Sum(Read(s))) == s
  {
    hide Pad, Strtoull, Read, Sum, Split, Joined;
    var f := Read(s);
    CanonicalRead(s);
    SumExact(f);
    SplitJoined(f);
    NumberPad(s[..8]);
    NumberPad(s[8..10]);
    NumberPad(s[10..12]);
    NumberPad(s[12..14]);
    NumberPad(s[15..21]);
    Assembled(s);
  }

  lemma Assembled(s: string)
    requires |s| == 25 && s[14] == '.' && s[21..] == ":000"
    ensures s == s[..8] + s[8..10] + s[10..12] + s[12..14] + "." + s[15..21] + ":000"
  {
  }

  // ----- the methods -----

  method Bin2CharsInterval(msecs: nat) returns (str_time: string)
    ensures str_time == Bin2Chars(msecs)
  {
    var seconds := msecs / 1_000_000;
    var useconds := msecs % 1_000_000;
    var mins := seconds / 60;
    seconds := seconds % 60;
    var hrs := mins / 60;
    mins := mins % 60;
    var days := hrs / 24;
    hrs := hrs % 24;
    str_time := Pad(days, 8) + Pad(hrs, 2) + Pad(mins, 2) + Pad(seconds, 2) + "." + Pad(useconds, 6) + ":000";
  }

  /** strtoull: the scan ends at the first terminator behind `i`, if not before. */
  method NumberAt(str: array<char>, i: nat, ghost s: string, ghost j: nat) returns (n: nat)
    requires i <= j < str.Length == |s| + 1 && str[j] == '\0' && str[..j] == s[..j]
    ensures n == Strtoull(s[..j], i)
  {
    ghost var t := s[..j];
    assert forall x :: 0 <= x < j ==> str[x] == str[..j][x] == t[x];
    var k := i;
    while IsSpace(str[k])
      invariant i <= k <= j && SkipSpace(t, k) == SkipSpace(t, i)
      decreases j - k
    {
      k := k + 1;
    }
    var negative := str[k] == '-';
    if negative || str[k] == '+' { k := k + 1; }
    n := DigitsAtPlace(str, k, t);
    if n >= WORD {
      n := WORD - 1;
    } else if negative {
      n := (WORD - n) % WORD;
    }
  }

  method DigitsAtPlace(str: array<char>, k: nat, ghost t: string) returns (n: nat)
    requires k <= |t| < str.Length && str[|t|] == '\0' && forall x :: 0 <= x < |t| ==> str[x] == t[x]
    ensures n == NumberOf(t[k..k + Digits(t, k)])
  {
    var p := k;
    n := 0;
    while IsDigit(str[p])
      invariant k <= p <= |t| && Digits(t, k) == p - k + Digits(t, p)
      invariant (forall x :: k <= x < p ==> IsDigit(t[x])) && n == NumberOf(t[k..p])
      decreases |t| - p
    {
      assert t[k..p + 1][..p - k] == t[k..p];
      n := n * 10 + DigitVal(str[p]);
      p := p + 1;
    }
  }

  /** chars2bin for an interval: a copy of the text is cut with terminators from the right to the left. */
  method Chars2BinInterval(s: string) returns (msecs: nat)
    requires |s| >= 22
    ensures msecs == Sum(Read(s))
  {
    hide Strtoull, Word;
    var str := new char[|s| + 1](i => if 0 <= i < |s| then s[i] else '\0');
    Cut(str, s, 21);
    var usecs := NumberAt(str, 15, s, 21);
    Cut(str, s, 14);
    var secs := NumberAt(str, 12, s, 14);
    Cut(str, s, 12);
    var mins := NumberAt(str, 10, s, 12);
    secs := Word(secs + Word(mins * 60));
    Cut(str, s, 10);
    var hrs := NumberAt(str, 8, s, 10);
    secs := Word(secs + Word(Word(hrs * 60) * 60));
    Cut(str, s, 8);
    var days := NumberAt(str, 0, s, 8);
    secs := Word(secs + Word(Word(Word(days * 60) * 60) * 24));
    msecs := Word(usecs + Word(secs * 1_000_000));
  }

  method Cut(str: array<char>, ghost s: string, j: nat)
    requires j < |s| < str.Length && str[..j] == s[..j]
    modifies str
    ensures str[j] == '\0' && str[..j] == s[..j]
  {
    str[j] := '\0';
    assert str[..j] == old(str[..j]);
  }
}
