/** Escaping of the five special characters, as in section 4.6 of XML 1.0. */
module Escaping {
  import opened CText

  predicate IsSpecial(c: char) { c == '"' || c == '&' || c == '\'' || c == '<' || c == '>' }

  /** The table XmlEscapes. */
  function Entity(c: char): (e: string)
    ensures 1 <= |e| <= 6 && (|e| > 1 <==> IsSpecial(c)) && (|e| == 1 || |e| >= 4)
  {
    match c
    case '"' => "&quot;"
    case '&' => "&amp;"
    case '\'' => "&apos;"
    case '<' => "&lt;"
    case '>' => "&gt;"
    case _ => [c]
  }

  function Escape(s: string): string {
    if s == "" then "" else Entity(s[0]) + Escape(s[1..])
  }

  /** XmlToAscii: the special character whose entity stands at the front, in the order of the table. */
  function EntityAt(t: string): Option<char> {
    if "&quot;" <= t then Some('"')
    else if "&amp;" <= t then Some('&')
    else if "&apos;" <= t then Some('\'')
    else if "&lt;" <= t then Some('<')
    else if "&gt;" <= t then Some('>')
    else None
  }

  lemma EntityAtPrefix(t: string)
    ensures EntityAt(t).Some? ==> Entity(EntityAt(t).value) <= t && IsSpecial(EntityAt(t).value)
  {
  }

  /** How many characters XmlToAscii consumes. */
  function Step(t: string): (n: nat)
    requires t != ""
    ensures 1 <= n <= |t|
  {
    EntityAtPrefix(t);
    if EntityAt(t).Some? then |Entity(EntityAt(t).value)| else 1
  }

  function First(t: string): char
    requires t != ""
  {
    if EntityAt(t).Some? then EntityAt(t).value else t[0]
  }

  function Unescape(t: string): string
    decreases |t|
  {
    if t == "" then "" else [First(t)] + Unescape(t[Step(t)..])
  }

  /** The five entities of XML, each for its character; every other character stands for itself. */
  lemma EntityNames(c: char)
    ensures Entity('"') == "&quot;" && Entity('&') == "&amp;" && Entity('\'') == "&apos;" && Entity('<') == "&lt;" && Entity('>') == "&gt;"
    ensures c != '"' && c != '&' && c != '\'' && c != '<' && c != '>' ==> Entity(c) == [c]
  {
  }

  /** Where none of the five stands, a character is taken as it is, an '&' included. */
  lemma NotAnEntity(t: string)
    requires t != "" && !("&quot;" <= t) && !("&amp;" <= t) && !("&apos;" <= t) && !("&lt;" <= t) && !("&gt;" <= t)
    ensures Unescape(t) == [t[0]] + Unescape(t[1..])
  {
  }

  /** An entity at the front is recognised as its own character, and nothing else is taken for an entity. */
  lemma EntityFound(c: char, rest: string)
    ensures EntityAt(Entity(c) + rest) == if IsSpecial(c) then Some(c) else None
  {
    var t := Entity(c) + rest;
    if IsSpecial(c) {
      assert Entity(c) <= t;
      assert t[1] == Entity(c)[1] && t[2] == Entity(c)[2];
    } else {
      assert t[0] == c;
    }
  }

  lemma {:induction false} EscapeRoundTrip(s: string)
    ensures Unescape(Escape(s)) == s
  {
    if s != "" {
      var rest := Escape(s[1..]);
      EntityFound(s[0], rest);
      assert (Entity(s[0]) + rest)[|Entity(s[0])|..] == rest;
      EscapeRoundTrip(s[1..]);
      assert Entity(s[0]) + rest != "";
      if !IsSpecial(s[0]) { assert (Entity(s[0]) + rest)[0] == s[0]; }
      assert [s[0]] + s[1..] == s;
    }
  }

  lemma Injective(s: string, s': string)
    requires Escape(s) == Escape(s')
    ensures s == s'
  {
    EscapeRoundTrip(s);
    EscapeRoundTrip(s');
  }

  /** Every '&' starts an entity. */
  ghost predicate Ampersands(t: string) {
    forall i :: 0 <= i < |t| && t[i] == '&' ==> EntityAt(t[i..]).Some?
  }

  /** Of the special characters only '&' is left. */
  lemma {:induction false} EscapedClean(s: string, c: char)
    requires IsSpecial(c) && c != '&'
    ensures Free(Escape(s), c)
  {
    if s != "" { EscapedClean(s[1..], c); }
  }

  lemma {:induction false} EscapedAmpersands(s: string)
    ensures Ampersands(Escape(s))
  {
    if s != "" {
      var e, rest := Entity(s[0]), Escape(s[1..]);
      var t := e + rest;
      EscapedAmpersands(s[1..]);
      forall i | 0 <= i < |t| && t[i] == '&' ensures EntityAt(t[i..]).Some? {
        if i < |e| {
          assert i == 0;
          assert t[0..] == t;
          EntityFound(s[0], rest);
        } else {
          assert t[i..] == rest[i - |e|..];
        }
      }
    }
  }

  lemma {:induction false} NeverLonger(t: string)
    ensures |Unescape(t)| <= |t|
    decreases |t|
  {
    if t != "" { NeverLonger(t[Step(t)..]); }
  }

  // ----- blanks at the ends are not touched -----

  lemma {:induction false} EscapeJoin(a: string, b: string)
    ensures Escape(a + b) == Escape(a) + Escape(b)
  {
    if a == "" {
      assert a + b == b;
    } else {
      assert (a + b)[1..] == a[1..] + b;
      EscapeJoin(a[1..], b);
    }
  }

  /** Escaping changes no blank and produces none. */
  lemma {:induction false} EscapedEnds(s: string)
    requires s != ""
    ensures var e := Escape(s); e != "" && (IsBlank(e[0]) <==> IsBlank(s[0])) && (IsBlank(e[|e| - 1]) <==> IsBlank(s[|s| - 1]))
  {
    if |s| > 1 {
      EscapedEnds(s[1..]);
    }
  }

  predicate AllBlank(s: string) { forall i :: 0 <= i < |s| ==> IsBlank(s[i]) }

  lemma {:induction false} EscapeBlanks(s: string)
    requires AllBlank(s)
    ensures Escape(s) == s
  {
    if s != "" { EscapeBlanks(s[1..]); }
  }

  lemma TrimAround(a: string, x: string, b: string)
    requires AllBlank(a) && AllBlank(b) && x != "" && !IsBlank(x[0]) && !IsBlank(x[|x| - 1])
    ensures Trim(a + x + b) == x
  {
    var s := a + x + b;
    var i, j := Lead(s, 0), Tail(s, |s|);
    assert !IsBlank(s[|a|]) && !IsBlank(s[|a| + |x| - 1]);
    assert i == |a| && j == |a| + |x|;
  }

  /** Content is trimmed by the lexer and then unescaped; what comes out is the original text, trimmed. */
  lemma EscapeTrim(s: string)
    ensures Unescape(Trim(Escape(s))) == Trim(s)
  {
    hide Unescape, Escape;
    var i, j := Lead(s, 0), Tail(s, |s|);
    if i == |s| {
      EscapeBlanks(s);
      Unescaped("");
    } else {
      assert i < j;
      var a, x, b := s[..i], s[i..j], s[j..];
      assert s == a + x + b;
      EscapeJoin(a + x, b);
      EscapeJoin(a, x);
      EscapeBlanks(a);
      EscapeBlanks(b);
      EscapedEnds(x);
      TrimAround(a, Escape(x), b);
      EscapeRoundTrip(x);
    }
  }

  // ----- the buffers -----

  /** XmlToAscii: the character at `xp`, and where the next one starts. */
  method XmlToAscii(t: string, xp: nat) returns (c: char, next: nat)
    requires xp < |t|
    ensures xp < next <= |t| && Unescape(t[xp..]) == [c] + Unescape(t[next..])
  {
    var rest := t[xp..];
    next := xp + Step(rest);
    assert t[next..] == rest[Step(rest)..];
    c := First(rest);
  }

  /** XmlToAsciiStr: the result is never longer than the input, so it fits the block of the input's size. */
  method XmlToAsciiStr(t: string) returns (ascii: array<char>, len: nat)
    ensures ascii.Length == |t| + 1 && len <= |t| && ascii[len] == '\0' && ascii[..len] == Unescape(t)
  {
    hide Unescape, EntityAt;
    ascii := new char[|t| + 1];
    len := 0;
    var xp := 0;
    assert t[0..] == t;
    while xp < |t|
      invariant len <= xp <= |t| && ascii[..len] + Unescape(t[xp..]) == Unescape(t)
    {
      var c, next := XmlToAscii(t, xp);
      ghost var done := ascii[..len];
      ascii[len] := c;
      assert ascii[..len + 1] == done + [c];
      len, xp := len + 1, next;
    }
    Unescaped(t[xp..]);
    ascii[len] := '\0';
  }

  lemma Unescaped(t: string)
    requires t == ""
    ensures Unescape(t) == ""
  {
  }

  /** Exactly the strings for which one doubling per character keeps every write of AsciiToXmlStr inside the block. */
  predicate Fits(s: string) {
    || |s| == 0
    || (|s| == 1 && !IsSpecial(s[0]))
    || (|s| == 2 && |Entity(s[0])| + |Entity(s[1])| < 12)
    || |s| >= 3
  }

  /** Make the block larger if an entity may not fit, and write one character's form. */
  method PutChar(a: array<char>, len: nat, c: char) returns (b: array<char>, n: nat, ok: bool)
    requires len <= a.Length
    modifies a
    ensures b == a || fresh(b)
    ensures b.Length == if a.Length <= len + 6 then 2 * a.Length else a.Length
    ensures n == len + |Entity(c)| && (ok <==> n <= b.Length)
    ensures ok ==> b[..n] == old(a[..len]) + Entity(c)
  {
    hide Entity;
    b := a;
    if a.Length <= len + 6 {
      b := new char[2 * a.Length];
      forall i | 0 <= i < a.Length { b[i] := a[i]; }
    }
    var e := Entity(c);
    n, ok := len + |e|, len + |e| <= b.Length;
    if ok {
      forall i | 0 <= i < |e| { b[len + i] := e[i]; }
    }
  }

  /** AsciiToXmlStr. `ok` is false if a write would fall outside the block. */
  method AsciiToXmlStr(s: string) returns (xml: array<char>, len: nat, ok: bool)
    ensures ok <==> Fits(s)
    ensures ok ==> len < xml.Length && xml[len] == '\0' && xml[..len] == Escape(s)
  {
    hide Escape, Entity;
    xml, len := new char[|s| + 1], 0;
    var i := 0;
    assert s[0..] == s;
    while i < |s|
      invariant fresh(xml) && i <= |s| && len <= xml.Length && xml[..len] + Escape(s[i..]) == Escape(s)
      invariant i == 0 ==> len == 0 && xml.Length == |s| + 1
      invariant |s| == 1 && i == 1 ==> xml.Length == 4 && len == |Entity(s[0])| <= 4
      invariant |s| == 2 && i == 1 ==> xml.Length == 6 && len == |Entity(s[0])|
      invariant |s| == 2 && i == 2 ==> xml.Length == 12 && len == |Entity(s[0])| + |Entity(s[1])|
      invariant |s| >= 3 && i > 0 ==> len < xml.Length && xml.Length >= 7
    {
      ghost var done := xml[..len];
      xml, len, ok := PutChar(xml, len, s[i]);
      if !ok { return; }
      EscapedStep(s[i..]);
      assert s[i..][1..] == s[i + 1..];
      assert done + (Entity(s[i]) + Escape(s[i + 1..])) == done + Entity(s[i]) + Escape(s[i + 1..]);
      i := i + 1;
    }
    NothingEscaped(s[i..]);
    ok := len < xml.Length;
    if ok { xml[len] := '\0'; }
  }

  lemma EscapedStep(s: string)
    requires s != ""
    ensures Escape(s) == Entity(s[0]) + Escape(s[1..])
  {
  }

  lemma NothingEscaped(s: string)
    requires s == ""
    ensures Escape(s) == ""
  {
  }
}
