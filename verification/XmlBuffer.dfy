/** The lexer's buffer: the response text is cut into strings in place, by overwriting a quote or a '<'
    with a terminator, and the strings handed out are pointers into it. */
module XmlParser {
  import opened CText
  import opened Lexing

  /** A `char *` the lexer hands out: NULL, the literal "", or an offset into the buffer. */
  datatype Ptr = Null | Literal | Offset(at: nat)

  datatype PtrToken = PtrToken(code: int, attrs: seq<Ptr>, content: Ptr)

  class XmlBuffer {
    const base: array<char>
    var cur: nat
    var eTagFound: bool
    var etag: int
    var nulledChar: char
    /** Every pointer handed out so far, with the string it denoted at that moment. */
    ghost var handed: set<(nat, string)>

    ghost function Last(): int { base.Length - 1 }

    /** From `i` on the buffer holds text up to its final terminator. */
    ghost predicate CleanFrom(i: nat)
      reads base
    {
      i < base.Length && base[Last()] == '\0' && forall j :: i <= j < Last() ==> base[j] != '\0'
    }

    ghost function Text(i: nat): Text
      requires i < base.Length
      reads base
      decreases base.Length - i
    {
      if i == Last() then End else Ch(base[i], Text(i + 1))
    }

    ghost predicate StringAt(at: nat, s: string, floor: nat)
      reads base
    {
      && at + |s| < floor <= base.Length && base[at + |s|] == '\0'
      && forall j :: 0 <= j < |s| ==> base[at + j] == s[j] != '\0'
    }

    /** Every string handed out ends below `floor` and is still what it was. */
    ghost predicate Intact(floor: nat)
      reads `handed, base
    {
      floor <= base.Length && forall h :: h in handed ==> StringAt(h.0, h.1, floor)
    }

    ghost predicate Nulled()
      reads `nulledChar
    {
      nulledChar != '\0'
    }

    ghost function Floor(): nat
      reads `nulledChar, `cur
    {
      if Nulled() || cur == Last() then cur + 1 else cur
    }

    ghost predicate Valid()
      reads this, base
    {
      && cur < base.Length
      && CleanFrom(if Nulled() then cur + 1 else cur)
      && (Nulled() ==> nulledChar == '<' && cur < Last() && base[cur] == '\0' && !eTagFound)
      && Intact(Floor())
    }

    ghost function State(): (st: LexState)
      requires Valid()
      reads this, base
      ensures WellFormed(st)
    {
      if Nulled() then LexState(Ch('<', Text(cur + 1)), None, true)
      else LexState(Text(cur), if eTagFound then Some(etag) else None, false)
    }

    /** `p` denotes `v`, and if it points into the buffer that is on record. */
    ghost predicate Denotes(p: Ptr, v: Option<string>)
      reads `handed
    {
      match p
      case Null => v == None
      case Literal => v == Some("")
      case Offset(at) => v.Some? && (at, v.value) in handed
    }

    ghost predicate DenotesToken(p: PtrToken, t: Token)
      reads `handed
    {
      && p.code == t.code
      && |p.attrs| == |t.attrs|
      && (forall i :: 0 <= i < |p.attrs| ==> Denotes(p.attrs[i], t.attrs[i]))
      && Denotes(p.content, t.content)
    }

    constructor (s: string)
      requires SevenBit(s)
      ensures Valid() && State() == LexState(Before(s, End), None, false) && handed == {}
      ensures fresh(base)
    {
      base := new char[|s| + 1](i => if 0 <= i < |s| then s[i] else '\0');
      cur := 0;
      eTagFound := false;
      nulledChar := '\0';
      etag := 0;
      handed := {};
      new;
      Loaded(s, 0);
    }

    lemma Loaded(s: string, i: nat)
      requires base.Length == |s| + 1 && i <= |s| && forall j :: 0 <= j < |s| ==> base[j] == s[j]
      ensures Text(i) == Before(s[i..], End)
      decreases |s| - i
    {
      if i < |s| {
        Loaded(s, i + 1);
        assert s[i..][1..] == s[i + 1..];
      }
    }

    // ----- character level -----

    method SkipWS()
      requires CleanFrom(cur)
      modifies `cur
      ensures old(cur) <= cur && CleanFrom(cur) && Text(cur) == CText.SkipWS(old(Text(cur)))
    {
      while base[cur] <= ' ' && base.Length - 1 > cur
        invariant old(cur) <= cur && CleanFrom(cur)
        invariant CText.SkipWS(Text(cur)) == CText.SkipWS(old(Text(cur)))
        decreases base.Length - cur
      {
        cur := cur + 1;
      }
    }

    /** strncmp or strncasecmp of `base + i` with a word. */
    method StartsWith(i: nat, w: string, xCase: bool) returns (b: bool)
      requires CleanFrom(i) && NulFree(w)
      ensures match After(Text(i), w, 0, xCase)
              case None => !b
              case Some(r) => b && i + |w| < base.Length && r == Text(i + |w|)
    {
      var k := 0;
      while k < |w| && SameChar(base[i + k], w[k], xCase)
        invariant k <= |w| && i + k <= Last()
        invariant After(Text(i), w, 0, xCase) == After(Text(i + k), w, k, xCase)
      {
        k := k + 1;
      }
      b := k == |w|;
    }

    /** nextEquals: a word and then no letter or digit. */
    method NextEquals(i: nat, w: string, xCase: bool) returns (b: bool)
      requires CleanFrom(i) && NulFree(w)
      ensures match Word(Text(i), w, xCase)
              case None => !b
              case Some(r) => b && i + |w| < base.Length && r == Text(i + |w|)
    {
      b := StartsWith(i, w, xCase);
      if b {
        b := !IsAlnum(base[i + |w|]);
      }
    }

    method GetChar(c: char) returns (b: bool)
      requires CleanFrom(cur) && c != '\0'
      modifies `cur
      ensures b == (Head(old(Text(cur))) == c) && CleanFrom(cur)
      ensures if b then cur == old(cur) + 1 && Text(cur) == old(Text(cur)).rest else cur == old(cur)
    {
      b := base[cur] == c;
      if b { cur := cur + 1; }
    }

    method GetWord(w: string, xCase: bool) returns (b: bool)
      requires CleanFrom(cur) && NulFree(w)
      modifies `cur
      ensures match Word(old(Text(cur)), w, xCase)
              case None => !b && cur == old(cur)
              case Some(r) => b && CleanFrom(cur) && cur == old(cur) + |w| && r == Text(cur)
    {
      b := NextEquals(cur, w, xCase);
      if b { cur := cur + |w|; }
    }

    /** strstr from `i`: the offset behind the first occurrence of `w`. */
    method StrStr(i: nat, w: string) returns (found: bool, k: nat)
      requires CleanFrom(i) && NulFree(w)
      ensures match AfterSub(Text(i), w)
              case None => !found
              case Some(r) => found && i + |w| <= k < base.Length && r == Text(k)
                              && After(Text(k - |w|), w, 0, true) == Some(r)
      ensures found ==> forall j :: i <= j < k - |w| ==> After(Text(j), w, 0, true).None?
    {
      k := i;
      while true
        invariant i <= k && CleanFrom(k)
        invariant forall j :: i <= j < k ==> After(Text(j), w, 0, true).None?
        invariant AfterSub(Text(k), w) == AfterSub(Text(i), w)
        decreases base.Length - k
      {
        found := StartsWith(k, w, true);
        if found {
          return true, k + |w|;
        }
        if k == base.Length - 1 {
          return;
        }
        k := k + 1;
      }
    }

    // ----- frames -----

    lemma IntactWeaker(floor: nat, floor': nat)
      requires Intact(floor) && floor <= floor' <= base.Length
      ensures Intact(floor')
    {
    }

    /** Writes at or above the floor leave the strings handed out alone. */
    twostate lemma IntactFrame(floor: nat)
      requires old(Intact(floor)) && handed == old(handed)
      requires forall j :: 0 <= j < floor ==> base[j] == old(base[j])
      ensures Intact(floor)
    {
      forall h | h in handed ensures StringAt(h.0, h.1, floor) {
        assert old(StringAt(h.0, h.1, floor));
      }
    }

    /** Writes below `i` leave the text from `i` on alone. */
    twostate lemma TextFrame(i: nat)
      requires i < base.Length && forall j :: i <= j < base.Length ==> base[j] == old(base[j])
      ensures Text(i) == old(Text(i))
      decreases base.Length - i
    {
      if i < Last() {
        TextFrame(i + 1);
      }
    }

    // ----- attribute values and content -----

    /** The scan to a delimiter; it stops at the final terminator, where the C code would run on. */
    method ScanTo(c: char) returns (ghost s: string)
      requires CleanFrom(cur) && c != '\0'
      modifies `cur
      ensures old(cur) <= cur && CleanFrom(cur) && UpTo(old(Text(cur)), c) == Cut(s, Text(cur))
      ensures |s| == cur - old(cur) && forall j :: 0 <= j < |s| ==> base[old(cur) + j] == s[j]
      ensures base[cur] == c || cur == Last()
    {
      s := "";
      while cur < base.Length - 1 && base[cur] != c
        invariant old(cur) <= cur && CleanFrom(cur)
        invariant |s| == cur - old(cur) && forall j :: 0 <= j < |s| ==> base[old(cur) + j] == s[j]
        invariant UpTo(old(Text(cur)), c) == Cut(s + UpTo(Text(cur), c).s, UpTo(Text(cur), c).rest)
        decreases base.Length - cur
      {
        assert s + UpTo(Text(cur), c).s == (s + [base[cur]]) + UpTo(Text(cur + 1), c).s;
        s := s + [base[cur]];
        cur := cur + 1;
      }
      assert s + "" == s;
    }

    /** Writes a terminator at `cur` and records the string from `at` up to it as handed out. */
    method CutAt(ghost floor: nat, ghost at: nat, ghost v: string)
      requires CleanFrom(at) && cur < Last()
      requires floor <= at && Intact(floor) && at + |v| == cur && forall j :: 0 <= j < |v| ==> base[at + j] == v[j]
      modifies `handed, base
      ensures base[cur] == '\0' && CleanFrom(cur + 1) && Text(cur + 1) == old(Text(cur + 1))
      ensures handed == old(handed) + {(at, v)} && Intact(cur + 1)
    {
      base[cur] := '\0';
      TextFrame(cur + 1);
      IntactFrame(floor);
      IntactWeaker(floor, cur + 1);
      handed := handed + {(at, v)};
    }

    /** getValue; `ok` is false when the closing quote is missing and the C code would run off the buffer. */
    method GetValue() returns (p: Ptr, ok: bool)
      requires CleanFrom(cur) && Intact(cur)
      modifies `cur, `handed, base
      ensures match Lexing.GetValue(old(Text(cur)))
              case NoValue(_) => !ok
              case Valued(v, rest) => ok && old(cur) <= cur && CleanFrom(cur) && Intact(cur) && Text(cur) == rest && Denotes(p, v) && old(handed) <= handed
    {
      ghost var floor := cur;
      SkipWS();
      var dlm := base[cur];
      var b := GetChar('"');
      if !b {
        b := GetChar('\'');
      }
      if !b {
        IntactWeaker(floor, cur);
        return Null, true;
      }
      var start := cur;
      ghost var s := ScanTo(dlm);
      if cur == base.Length - 1 {
        return Null, false;
      }
      CutAt(floor, start, s);
      cur := cur + 1;
      return Offset(start), true;
    }

    /** The white-space skip at the start of the content `c`, which starts at `i` and ends at `cur`. */
    method SkipLead(i: nat, ghost c: string) returns (start: nat)
      requires i + |c| == cur < base.Length && CleanFrom(i)
      requires base[cur] == '<' || cur == Last()
      requires forall j :: 0 <= j < |c| ==> base[i + j] == c[j]
      ensures start == i + Lead(c, 0)
    {
      start := i;
      while base[start] != '\0' && base[start] <= ' '
        invariant i <= start <= cur && Lead(c, start - i) == Lead(c, 0)
        decreases base.Length - start
      {
        assert start < cur ==> base[i + (start - i)] == c[start - i];
        start := start + 1;
      }
      assert start < cur ==> base[i + (start - i)] == c[start - i];
    }

    /** Overwrites the blanks at the end of the content `c` before the terminator at `cur`; the '>' of the
        start tag stops the loop at the latest. */
    method TrimTail(ghost i: nat, ghost c: string)
      requires 0 < i && i + |c| == cur < base.Length && c != "" && NulFree(c)
      requires base[i - 1] == '>' && base[cur] == '\0' && forall j :: 0 <= j < |c| ==> base[i + j] == c[j]
      modifies base
      ensures forall j :: 0 <= j < base.Length && !(i + Tail(c, |c|) <= j < cur) ==> base[j] == old(base[j])
      ensures forall j :: i + Tail(c, |c|) <= j < cur ==> base[j] == '\0'
    {
      var end := cur;
      if base[end - 1] <= ' ' {
        end := end - 1;
        while base[end] != '\0' && base[end] <= ' '
          invariant i - 1 <= end < cur && Tail(c, end + 1 - i) == Tail(c, |c|)
          invariant forall j :: 0 <= j < base.Length && !(end < j < cur) ==> base[j] == old(base[j])
          invariant forall j :: end < j < cur ==> base[j] == '\0'
          decreases end
        {
          assert i <= end ==> base[i + (end - i)] == old(base[i + (end - i)]) == c[end - i];
          base[end] := '\0';
          end := end - 1;
        }
        assert i <= end ==> base[i + (end - i)] == old(base[i + (end - i)]) == c[end - i];
        assert end + 1 - i == Tail(c, |c|);
      } else {
        assert base[i + (|c| - 1)] == c[|c| - 1];
      }
    }

    /** getContent, the non-empty content `c` from `i` up to `cur`. */
    method TakeContent(i: nat, ghost c: string) returns (p: Ptr)
      requires 0 < i && i + |c| == cur < base.Length && c != "" && CleanFrom(i) && Intact(i)
      requires forall j :: 0 <= j < |c| ==> base[i + j] == c[j]
      requires base[i - 1] == '>' && (base[cur] == '<' || cur == Last())
      modifies `handed, `nulledChar, base
      ensures nulledChar == old(base[cur]) && base[cur] == '\0' && Intact(cur + 1)
      ensures forall j :: cur < j < base.Length ==> base[j] == old(base[j])
      ensures p.Offset? && handed == old(handed) + {(p.at, Trim(c))}
    {
      var start := SkipLead(i, c);
      nulledChar := base[cur];
      base[cur] := '\0';
      assert NulFree(c);
      TrimTail(i, c);
      IntactFrame(i);
      IntactWeaker(i, cur + 1);
      Trimmed(i, c);
      handed := handed + {(start, Trim(c))};
      p := Offset(start);
    }

    lemma TrimmedAt(i: nat, c: string, a: nat, e: nat)
      requires a < e <= |c| && i + |c| == cur < base.Length && NulFree(c) && base[cur] == '\0'
      requires forall j :: 0 <= j < e ==> base[i + j] == c[j]
      requires forall j :: i + e <= j < cur ==> base[j] == '\0'
      ensures StringAt(i + a, c[a..e], cur + 1)
    {
      forall j | 0 <= j < e - a ensures base[i + a + j] == c[a..e][j] {
        assert base[i + (a + j)] == c[a + j];
      }
    }

    /** What the trimmed buffer holds. */
    lemma Trimmed(i: nat, c: string)
      requires i + |c| == cur < base.Length && c != "" && NulFree(c) && base[cur] == '\0'
      requires forall j :: 0 <= j < Tail(c, |c|) ==> base[i + j] == c[j]
      requires forall j :: i + Tail(c, |c|) <= j < cur ==> base[j] == '\0'
      ensures StringAt(i + Lead(c, 0), Trim(c), cur + 1)
    {
      var a, e := Lead(c, 0), Tail(c, |c|);
      if a < |c| {
        assert a < e && Trim(c) == c[a..e];
        TrimmedAt(i, c, a, e);
      }
    }

    /** The buffer after content has been taken: the '<' at `cur`, if any, lives on in nulledChar. */
    twostate lemma TakenState()
      requires cur == old(cur) < base.Length && old(CleanFrom(cur)) && !eTagFound
      requires nulledChar == old(base[cur]) && base[cur] == '\0' && Intact(cur + 1)
      requires cur < Last() ==> nulledChar == '<'
      requires forall j :: cur < j < base.Length ==> base[j] == old(base[j])
      ensures Valid() && State() == LexState(old(Text(cur)), None, cur < Last())
    {
      if cur < Last() {
        TextFrame(cur + 1);
      }
    }

    /** getContent */
    method GetContent() returns (p: Ptr)
      requires CleanFrom(cur) && Intact(cur) && !Nulled()
      requires !eTagFound ==> 0 < cur && base[cur - 1] == '>'
      modifies `cur, `handed, `nulledChar, base
      ensures eTagFound ==> p == Null && Valid() && State() == LexState(old(Text(cur)), Some(etag), false) && handed == old(handed)
      ensures !eTagFound ==>
        var k := UpTo(old(Text(cur)), '<');
        && Valid() && State() == LexState(k.rest, None, k.s != "" && k.rest.Ch?)
        && Denotes(p, Some(Trim(k.s))) && old(handed) <= handed
    {
      if eTagFound {
        IntactWeaker(cur, Floor());
        return Null;
      }
      var start := cur;
      ghost var c := ScanTo('<');
      if start == cur {
        IntactWeaker(cur, Floor());
        return Literal;
      }
      label L:
      p := TakeContent(start, c);
      TakenState@L();
    }

    // ----- attribute lists -----

    /** The pointers filled in so far denote the slots, and `wa` marks the attributes seen. */
    ghost predicate Filled(r: seq<Ptr>, wa: seq<bool>, got: seq<Slot>)
      reads `handed
    {
      && |r| == |wa| == |got|
      && forall i :: 0 <= i < |r| ==> Denotes(r[i], SlotValue(got[i])) && (wa[i] <==> got[i].Bound?)
    }

    /** The inner loop of attrsOk: which free attribute stands at `cur`; the cursor moves behind its name. */
    method MatchAttr(names: seq<string>, wa: seq<bool>, ghost got: seq<Slot>) returns (n: nat)
      requires CleanFrom(cur) && |names| == |wa| == |got|
      requires forall i :: 0 <= i < |names| ==> NulFree(names[i]) && (wa[i] <==> got[i].Bound?)
      modifies `cur
      ensures n == FindAttr(old(Text(cur)), names, got, 0) <= |names|
      ensures n < |names| ==> CleanFrom(cur) && old(cur) <= cur && Word(old(Text(cur)), names[n], false) == Some(Text(cur))
    {
      n := 0;
      while n < |names|
        invariant n <= |names| && cur == old(cur)
        invariant FindAttr(Text(cur), names, got, n) == FindAttr(Text(cur), names, got, 0)
      {
        if !wa[n] {
          var b := GetWord(names[n], false);
          if b {
            return;
          }
        }
        n := n + 1;
      }
    }

    /** The end of attrsOk: "/>", ">", or "?>" of the document header. */
    method CloseList(tag: string, endToken: int, ghost got: seq<Slot>) returns (ok: bool)
      requires CleanFrom(cur) && Intact(cur)
      modifies `cur, `eTagFound, `etag
      ensures match CloseTag(tag, old(Text(cur)), got)
              case AttrsStop(_) => !ok
              case AttrsOk(rest, _, closed) =>
                ok && CleanFrom(cur) && Intact(cur) && Text(cur) == rest && old(cur) < cur && eTagFound == closed
                && (closed ==> etag == endToken) && (!closed ==> base[cur - 1] == '>')
    {
      ghost var c0 := cur;
      eTagFound := false;
      var slash := GetTwo('/', '>');
      if slash {
        IntactWeaker(c0, cur);
        eTagFound, etag := true, endToken;
        return true;
      }
      ok := GetChar('>');
      if ok {
        IntactWeaker(c0, cur);
        return;
      }
      var mark := GetTwo('?', '>');
      if mark && tag == "?xml" {
        IntactWeaker(c0, cur);
        eTagFound, etag := true, endToken;
        return true;
      }
      return false;
    }

    /** getChars of a two-character string. */
    method GetTwo(a: char, b: char) returns (ok: bool)
      requires CleanFrom(cur) && a != '\0' && b != '\0'
      modifies `cur
      ensures ok == (Head(old(Text(cur))) == a && Head(old(Text(cur)).rest) == b)
      ensures if ok then CleanFrom(cur) && cur == old(cur) + 2 && Text(cur) == old(Text(cur)).rest.rest else cur == old(cur)
    {
      ok := base[cur] == a && base[cur + 1] == b;
      if ok { cur := cur + 2; }
    }

    /** The '=' after an attribute's name, and its value. */
    method AttrValue() returns (p: Ptr, ok: bool)
      requires CleanFrom(cur) && Intact(cur)
      modifies `cur, `handed, base
      ensures match Lexing.AttrValue(old(Text(cur)))
              case NoValue(_) => !ok
              case Valued(v, rest) => ok && old(cur) < cur && CleanFrom(cur) && Intact(cur) && Text(cur) == rest && Denotes(p, v) && old(handed) <= handed
    {
      ghost var c0 := cur;
      SkipWS();
      var eq := GetChar('=');
      if !eq {
        return Null, false;
      }
      IntactWeaker(c0, cur);
      p, ok := GetValue();
    }

    /** One round of the attribute loop. */
    method OneAttr(tag: string, names: seq<string>, r: seq<Ptr>, wa: seq<bool>, ghost got: seq<Slot>)
      returns (r': seq<Ptr>, wa': seq<bool>, ok: bool, ghost got': seq<Slot>)
      requires CleanFrom(cur) && Intact(cur) && IsAlpha(base[cur]) && |names| == |got| && Filled(r, wa, got)
      requires forall i :: 0 <= i < |names| ==> NulFree(names[i])
      modifies `cur, `handed, base
      ensures !ok ==> AttrList(tag, old(Text(cur)), names, got).AttrsStop?
      ensures ok ==>
        && old(cur) < cur && CleanFrom(cur) && Intact(cur) && |got'| == |names|
        && Filled(r', wa', got') && old(handed) <= handed
        && AttrList(tag, old(Text(cur)), names, got) == AttrList(tag, Text(cur), names, got')
    {
      ghost var c0 := cur;
      var n := MatchAttr(names, wa, got);
      if n == |names| {
        return r, wa, false, got;
      }
      IntactWeaker(c0, cur);
      ghost var av := Lexing.AttrValue(Text(cur));
      var p;
      p, ok := AttrValue();
      if !ok {
        return r, wa, false, got;
      }
      FilledMore(r, wa, got);
      c0 := cur;
      SkipWS();
      IntactWeaker(c0, cur);
      return r[n := p], wa[n := true], true, got[n := Bound(av.v)];
    }

    twostate lemma FilledMore(r: seq<Ptr>, new wa: seq<bool>, new got: seq<Slot>)
      requires old(Filled(r, wa, got)) && old(handed) <= handed
      ensures Filled(r, wa, got)
    {
      forall i | 0 <= i < |r| ensures Denotes(r[i], SlotValue(got[i])) {
        assert old(Denotes(r[i], SlotValue(got[i])));
      }
    }

    /** attrsOk; `ok` is false where the C code throws or runs off the buffer. */
    method AttrsOk(tag: string, names: seq<string>, endToken: int) returns (r: seq<Ptr>, ok: bool)
      requires CleanFrom(cur) && Intact(cur)
      requires forall i :: 0 <= i < |names| ==> NulFree(names[i])
      modifies `cur, `eTagFound, `etag, `handed, base
      ensures match AttrList(tag, CText.SkipWS(old(Text(cur))), names, Unsets(|names|))
              case AttrsStop(_) => !ok
              case AttrsOk(rest, got, closed) =>
                ok && CleanFrom(cur) && Intact(cur) && Text(cur) == rest && old(cur) < cur && eTagFound == closed
                && (closed ==> etag == endToken) && (!closed ==> base[cur - 1] == '>')
                && |r| == |names| && (forall i :: 0 <= i < |r| ==> Denotes(r[i], SlotValue(got[i]))) && old(handed) <= handed
    {
      ghost var got := Unsets(|names|);
      var wa := seq(|names|, _ => false);
      r := seq(|names|, _ => Null);
      SkipWS();
      IntactWeaker(old(cur), cur);
      ghost var goal := AttrList(tag, Text(cur), names, got);
      while IsAlpha(base[cur])
        invariant old(cur) <= cur && CleanFrom(cur) && Intact(cur) && |got| == |names|
        invariant Filled(r, wa, got) && old(handed) <= handed
        invariant AttrList(tag, Text(cur), names, got) == goal
        decreases base.Length - cur
      {
        r, wa, ok, got := OneAttr(tag, names, r, wa, got);
        if !ok {
          return;
        }
      }
      ok := CloseList(tag, endToken, got);
    }

    // ----- tags -----

    /** Between nextTag and the end of the token: `cur` is at the '<' of a tag, or at the terminator that
        has replaced it. */
    ghost predicate AtTag()
      reads this, base
    {
      && cur < Last() && CleanFrom(cur + 1) && Intact(cur + 1) && !Nulled()
      && (base[cur] == '<' || base[cur] == '\0')
    }

    /** tagEquals; on failure the C code puts `cur` back, or makes it a null pointer if the '<' had been overwritten. */
    method TagEquals(t: string) returns (b: bool)
      requires AtTag() && NulFree(t)
      modifies `cur
      ensures match Word(CText.SkipWS(old(Text(cur + 1))), t, true)
              case None => !b
              case Some(r) => b && old(cur) < cur && CleanFrom(cur) && Intact(cur) && Text(cur) == r
    {
      var start, sz := 0, false;
      ghost var c0 := cur;
      if base[cur] == '\0' {
        cur := cur + 1;
        sz := true;
      } else {
        start := cur;
      }
      SkipWS();
      var lt := false;
      if !sz {
        lt := GetChar('<');
      }
      if sz || lt {
        SkipWS();
        SkipTwice(old(Text(cur + 1)));
        b := GetWord(t, true);
        if b {
          IntactWeaker(c0 + 1, cur);
          return;
        }
      }
      cur := start;
      return false;
    }

    lemma SkipTwice(t: CText.Text)
      ensures CText.SkipWS(CText.SkipWS(t)) == CText.SkipWS(t)
    {
    }

    /** nextTag: NULL, or the offset behind the next '<'. */
    method NextTag() returns (found: bool)
      requires Valid()
      modifies `cur, `nulledChar
      ensures old(cur) <= cur
      ensures var st := old(State()); var t := if st.nulled then st.text else CText.SkipWS(st.text);
              if Head(t) == '<'
              then found && AtTag() && t == Ch('<', Text(cur + 1)) && (base[cur] == '\0' <==> st.nulled)
                   && (!st.nulled ==> CleanFrom(cur) && Text(cur) == t && Intact(cur))
              else !found
    {
      if nulledChar != '\0' {
        nulledChar := '\0';
        return true;
      }
      ghost var f0 := Floor();
      SkipWS();
      if base[cur] == '<' {
        IntactWeaker(f0, cur);
        IntactWeaker(f0, cur + 1);
        return true;
      }
      return false;
    }

    /** The search for a row of the tag table. */
    method LookUp(tags: seq<Tag>, i: nat) returns (k: nat)
      requires CleanFrom(i) && ValidTags(tags)
      ensures k == FindTag(tags, Text(i), 0)
    {
      k := 0;
      while k < |tags|
        invariant k <= |tags| && FindTag(tags, Text(i), k) == FindTag(tags, Text(i), 0)
      {
        var b := NextEquals(i, tags[k].name, true);
        if b {
          return;
        }
        k := k + 1;
      }
    }

    /** skipTag; `ok` is false if there is no '>', where the C code leaves the buffer. */
    method SkipTag() returns (ok: bool)
      requires AtTag()
      modifies `cur
      ensures var k := UpTo(old(Text(cur + 1)), '>').rest;
              ok == k.Ch? && (ok ==> old(cur) + 1 < cur && CleanFrom(cur) && Text(cur) == k.rest)
    {
      ghost var k := UpTo(Text(cur + 1), '>').rest;
      while base[cur] != '>' && base.Length - 1 > cur
        invariant old(cur) <= cur < base.Length && CleanFrom(if cur == old(cur) then cur + 1 else cur)
        invariant cur == old(cur) ==> base[cur] != '>' && cur < Last() && k == UpTo(Text(cur + 1), '>').rest
        invariant cur > old(cur) ==> k == UpTo(Text(cur), '>').rest
        decreases base.Length - cur
      {
        cur := cur + 1;
      }
      if cur == base.Length - 1 {
        return false;
      }
      cur := cur + 1;
      return true;
    }

    /** An end tag. */
    method LexEndTag(tags: seq<Tag>) returns (p: PtrToken, ok: bool)
      requires AtTag() && base[cur + 1] == '/' && !eTagFound && ValidTags(tags)
      modifies `cur
      ensures match EndTag(tags, old(Text(cur + 1)).rest)
              case Stop(_) => !ok
              case Tok(t, next) => ok && old(cur) < cur && Valid() && State() == next && DenotesToken(p, t)
    {
      ghost var c0 := cur;
      p := PtrToken(0, [], Null);
      var i := LookUp(tags, cur + 2);
      if i == |tags| {
        return p, false;
      }
      ok := SkipTag();
      if ok {
        IntactWeaker(c0 + 1, Floor());
        p := PtrToken(tags[i].end, [], Null);
      }
    }

    /** strcasecmp of a string handed out with a literal. */
    method SameText(p: Ptr, ghost v: string, s: string) returns (b: bool)
      requires !p.Null? && Denotes(p, Some(v)) && Intact(Floor()) && NulFree(s)
      ensures b == SameNoCase(v, s)
    {
      if p == Literal {
        return s == "";
      }
      assert StringAt(p.at, v, Floor());
      var k := 0;
      while k < |s| && base[p.at + k] != '\0' && Lower(base[p.at + k]) == Lower(s[k])
        invariant k <= |s| && k <= |v|
        invariant forall j :: 0 <= j < k ==> Lower(v[j]) == Lower(s[j])
      {
        k := k + 1;
      }
      b := k == |s| && base[p.at + k] == '\0';
      assert k < |v| ==> base[p.at + k] == v[k];
      if k < |s| && k < |v| {
        assert Lower(v[k]) != Lower(s[k]);
      }
    }

    /** What the process functions demand of the attributes. */
    method CheckAttrs(check: Check, r: seq<Ptr>, ghost attrs: seq<Option<string>>) returns (ok: bool)
      requires Intact(Floor()) && |r| == |attrs| && forall i :: 0 <= i < |r| ==> Denotes(r[i], attrs[i])
      requires check.MustBe? ==> NulFree(check.text)
      ensures ok == Checked(check, attrs).None?
    {
      match check
      case NoCheck => ok := true;
      case MustBe(s) =>
        if |r| == 0 || r[0] == Null {
          ok := false;
        } else {
          assert Denotes(r[0], attrs[0]);
          ok := SameText(r[0], attrs[0].value, s);
        }
      case EmbeddedObject(k) =>
        ok := true;
        if k < |r| && r[k] != Null {
          assert Denotes(r[k], attrs[k]);
          ok := SameText(r[k], attrs[k].value, "instance");
          if !ok {
            ok := SameText(r[k], attrs[k].value, "object");
          }
        }
    }

    /** The process function of an element. */
    method LexElement(t: Tag) returns (p: PtrToken, ok: bool)
      requires AtTag() && ValidTag(t) && t.Element? && Word(Text(cur + 1), t.name, true).Some?
      modifies `cur, `eTagFound, `etag, `nulledChar, `handed, base
      ensures match ProcessElement(t, Word(old(Text(cur + 1)), t.name, true).value)
              case Stop(_) => !ok
              case Tok(t, next) => ok && Valid() && State() == next && DenotesToken(p, t) && old(handed) <= handed
    {
      p := PtrToken(0, [], Null);
      var eq := TagEquals(t.name);
      ghost var al := AttrList(t.name, CText.SkipWS(Text(cur)), t.attrs, Unsets(|t.attrs|));
      var r;
      r, ok := AttrsOk(t.name, t.attrs, t.selfEnd);
      if !ok {
        return;
      }
      IntactWeaker(cur, Floor());
      ghost var attrs := SlotValues(al.got);
      ok := CheckAttrs(t.check, r, attrs);
      if !ok {
        return;
      }
      p := PtrToken(t.xtok, r, Null);
      if t.content {
        label L:
        var content := GetContent();
        DenotesMore@L(r, attrs);
        p := PtrToken(t.xtok, r, content);
      }
    }

    twostate lemma DenotesMore(r: seq<Ptr>, new attrs: seq<Option<string>>)
      requires old(allocated(attrs))
      requires |r| == |attrs| && (forall i :: 0 <= i < |r| ==> old(Denotes(r[i], attrs[i]))) && old(handed) <= handed
      ensures forall i :: 0 <= i < |r| ==> Denotes(r[i], attrs[i])
    {
    }

    /** Overwriting the first "]]" before a '>' with "</" closes the section. */
    twostate lemma CdataClosed(i: nat, new v: nat)
      requires i <= v && v + 3 < base.Length && old(CleanFrom(i))
      requires forall j :: i <= j < v ==> old(After(Text(j), "]]>", 0, true)).None?
      requires old(After(Text(v), "]]>", 0, true)) == Some(old(Text(v + 3)))
      requires base[v] == '<' && base[v + 1] == '/' && forall j :: i <= j < base.Length && j != v && j != v + 1 ==> base[j] == old(base[j])
      ensures CleanFrom(i) && CloseCdata(old(Text(i))) == Some(Text(i))
      decreases v - i
    {
      if i < v {
        CdataClosed(i + 1, v);
      } else {
        TextFrame(v + 3);
        assert Text(v + 2) == Ch(base[v + 2], Text(v + 3));
        assert old(Text(v + 2)) == Ch(old(base[v + 2]), old(Text(v + 3)));
        assert old(Text(v + 1)) == Ch(old(base[v + 1]), old(Text(v + 2)));
        ClosingMark(old(Text(v)));
      }
    }

    lemma ClosingMark(t: CText.Text)
      requires After(t, "]]>", 0, true).Some?
      ensures t.Ch? && t.rest.Ch? && t.rest.rest.Ch? && t.rest.rest.c == '>'
    {
      assert After(t, "]]>", 0, true) == After(t.rest, "]]>", 1, true) == After(t.rest.rest, "]]>", 2, true);
    }

    lemma NoMark(t: CText.Text)
      ensures AfterSub(t, "]]>").None? <==> CloseCdata(t).None?
    {
    }

    /** procCdata */
    method LexCdata(t: Tag) returns (p: PtrToken, ok: bool)
      requires AtTag() && !eTagFound && t.Cdata?
      modifies `cur, `eTagFound, `etag, `handed, base
      ensures match ProcessCdata(t, old(Text(cur + 1)))
              case Stop(_) => !ok
              case Tok(t, next) => ok && Valid() && State() == next && DenotesToken(p, t) && old(handed) <= handed
    {
      p := PtrToken(0, [], Null);
      ghost var c0 := cur;
      ok := TagEquals("![CDATA[");
      if !ok {
        return;
      }
      label L:
      cur := cur - 1;
      base[cur] := '>';
      IntactFrame(c0 + 1);
      TextFrame@L(cur + 1);
      EnterCdata(c0, t.end);
      ok := RewriteEnd();
      if ok {
        p := PtrToken(t.xtok, [], Null);
      }
    }

    /** attrsOk at the '>' that has replaced the '[' of the section's start. */
    method EnterCdata(ghost c0: nat, endToken: int)
      requires CleanFrom(cur) && c0 < cur < Last() && Intact(c0 + 1) && base[cur] == '>'
      modifies `cur, `eTagFound, `etag, `handed, base
      ensures CleanFrom(cur) && Intact(cur) && Text(cur) == old(Text(cur + 1))
      ensures !eTagFound && old(handed) <= handed
    {
      IntactWeaker(c0 + 1, cur);
      assert Text(cur) == Ch('>', Text(cur + 1));
      var _, _ := AttrsOk("![CDATA[", [], endToken);
    }

    /** The rewriting of the section's end. */
    method RewriteEnd() returns (ok: bool)
      requires CleanFrom(cur) && Intact(cur) && !eTagFound && !Nulled()
      modifies base
      ensures match CloseCdata(old(Text(cur)))
              case None => !ok
              case Some(r) => ok && Valid() && State() == LexState(r, None, false)
    {
      NoMark(Text(cur));
      var k;
      ok, k := StrStr(cur, "]]>");
      if !ok {
        return;
      }
      label M:
      base[k - 3], base[k - 2] := '<', '/';
      CdataClosed@M(cur, k - 3);
      IntactFrame(cur);
      IntactWeaker(cur, Floor());
    }

    /** A start tag. */
    method LexStartTag(tags: seq<Tag>) returns (p: PtrToken, ok: bool)
      requires AtTag() && !eTagFound && ValidTags(tags)
      modifies `cur, `eTagFound, `etag, `nulledChar, `handed, base
      ensures match StartTag(tags, old(Text(cur + 1)))
              case Stop(_) => !ok
              case Tok(t, next) => ok && Valid() && State() == next && DenotesToken(p, t) && old(handed) <= handed
    {
      var i := LookUp(tags, cur + 1);
      if i == |tags| {
        return PtrToken(0, [], Null), false;
      }
      match tags[i]
      case Element(_, _, _, _, _, _, _) => p, ok := LexElement(tags[i]);
      case Cdata(_, _, _) => p, ok := LexCdata(tags[i]);
    }

    /** The part of the loop of sfccLex behind nextTag, at a start tag or a comment. */
    method LexOpening(tags: seq<Tag>) returns (p: PtrToken, ok: bool, again: bool)
      requires AtTag() && !eTagFound && ValidTags(tags)
      requires base[cur] == '<' ==> CleanFrom(cur) && Intact(cur)
      modifies `cur, `eTagFound, `etag, `nulledChar, `handed, base
      ensures var t := Ch('<', old(Text(cur + 1)));
              if old(base[cur]) == '<' && After(t, "<!--", 0, true).Some? then
                if AfterSub(t, "-->").Some? then
                  ok && again && old(cur) < cur && Valid() && State() == LexState(AfterSub(t, "-->").value, None, false) && handed == old(handed)
                else !ok && !again
              else
                !again &&
                match StartTag(tags, t.rest)
                case Stop(_) => !ok
                case Tok(tk, next) => ok && Valid() && State() == next && DenotesToken(p, tk) && old(handed) <= handed
    {
      p, again := PtrToken(0, [], Null), false;
      if base[cur] == '<' {
        again := StartsWith(cur, "<!--", true);
      }
      if again {
        var k;
        ok, k := StrStr(cur, "-->");
        if !ok {
          again := false;
          return;
        }
        IntactWeaker(cur, if k == Last() then k + 1 else k);
        cur := k;
      } else {
        p, ok := LexStartTag(tags);
      }
    }

    /** sfccLex. `ok` is false where it returns 0 or the process ends; no more tokens are read then. */
    method SfccLex(tags: seq<Tag>) returns (p: PtrToken, ok: bool)
      requires Valid() && ValidTags(tags)
      modifies `cur, `eTagFound, `etag, `nulledChar, `handed, base
      ensures match Lex(tags, old(State()))
              case Stop(_) => !ok
              case Tok(t, next) => ok && Valid() && State() == next && DenotesToken(p, t) && old(handed) <= handed
    {
      hide AfterSub, StartTag, EndTag, CText.SkipWS;
      p := PtrToken(0, [], Null);
      ghost var goal := Lex(tags, State());
      while true
        invariant Valid() && Lex(tags, State()) == goal && handed == old(handed)
        decreases base.Length - cur
      {
        ok := NextTag();
        if !ok {
          return;
        }
        if eTagFound {
          eTagFound := false;
          return PtrToken(etag, [], Null), true;
        }
        if base[cur + 1] == '/' {
          p, ok := LexEndTag(tags);
          return;
        }
        var again;
        p, ok, again := LexOpening(tags);
        if !again {
          return;
        }
      }
    }

    // ----- reading what has been handed out -----

    /** The string at a pointer handed out. */
    method ReadString(p: Ptr, ghost v: Option<string>) returns (r: Option<string>)
      requires Valid() && Denotes(p, v)
      ensures r == v
    {
      match p
      case Null => r := None;
      case Literal => r := Some("");
      case Offset(at) =>
        assert StringAt(at, v.value, Floor());
        assert forall j :: 0 <= j < |v.value| ==> base[at + j] == v.value[j] != '\0';
        var s, k := "", 0;
        while base[at + k] != '\0'
          invariant k <= |v.value| && s == v.value[..k]
          invariant base[at + k] == if k < |v.value| then v.value[k] else '\0'
          decreases |v.value| - k
        {
          s := s + [base[at + k]];
          k := k + 1;
        }
        assert v.value[..k] == v.value;
        r := Some(s);
    }

    method ReadToken(p: PtrToken, ghost t: Token) returns (r: Token)
      requires Valid() && DenotesToken(p, t)
      ensures r == t
    {
      var attrs := [];
      for i := 0 to |p.attrs|
        invariant attrs == t.attrs[..i]
      {
        var a := ReadString(p.attrs[i], t.attrs[i]);
        attrs := attrs + [a];
      }
      var c := ReadString(p.content, t.content);
      r := Token(p.code, attrs, c);
    }
  }
}
