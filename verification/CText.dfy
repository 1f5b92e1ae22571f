/** C character classes, and the string.h functions the client uses. Text that is read from the front is a
    list of characters; strings that are stored are `string` values. */
module CText {

  datatype Option<+T> = None | Some(value: T)

  datatype List<+T> = Nil | Cons(head: T, tail: List<T>)

  function Size<T>(l: List<T>): nat {
    match l
    case Nil => 0
    case Cons(_, t) => 1 + Size(t)
  }

  function Append<T>(a: List<T>, b: List<T>): List<T> {
    match a
    case Nil => b
    case Cons(h, t) => Cons(h, Append(t, b))
  }

  lemma {:induction false} AppendNil<T>(a: List<T>)
    ensures Append(a, Nil) == a
  {
    if a.Cons? { AppendNil(a.tail); }
  }

  lemma {:induction false} AppendAssociates<T>(a: List<T>, b: List<T>, c: List<T>)
    ensures Append(Append(a, b), c) == Append(a, Append(b, c))
  {
    if a.Cons? { AppendAssociates(a.tail, b, c); }
  }

  lemma {:induction false} AppendMore<T>(a: List<T>, x: T, b: List<T>)
    ensures Append(Append(a, Cons(x, Nil)), b) == Append(a, Cons(x, b))
  {
    if a.Cons? { AppendMore(a.tail, x, b); }
  }

  /** The text from a `char *` up to its terminator. */
  datatype Text = End | Ch(c: char, rest: Text)

  predicate IsDigit(c: char) { '0' <= c <= '9' }

  predicate IsAlpha(c: char) { 'a' <= c <= 'z' || 'A' <= c <= 'Z' }

  predicate IsAlnum(c: char) { IsAlpha(c) || IsDigit(c) }

  /** The lexer's test for white space: anything up to and including the space character. */
  predicate IsBlank(c: char) { c <= ' ' }

  function Lower(c: char): char {
    if 'A' <= c <= 'Z' then (c as int + 32) as char else c
  }

  function Upper(c: char): char {
    if 'a' <= c <= 'z' then (c as int - 32) as char else c
  }

  /** The two cases of a letter are 32 apart; nothing else has cases. */
  lemma Cases(c: char)
    ensures Lower(Upper(c)) == Lower(c) && Upper(Lower(c)) == Upper(c)
    ensures 'a' <= c <= 'z' ==> Lower(c) == c && Upper(c) as int == c as int - 32
    ensures 'A' <= c <= 'Z' ==> Upper(c) == c && Lower(c) as int == c as int + 32
    ensures !('a' <= c <= 'z') && !('A' <= c <= 'Z') ==> Lower(c) == c == Upper(c)
  {
  }

  /** strcasecmp(a, b) == 0 */
  predicate SameNoCase(a: string, b: string) {
    |a| == |b| && forall i :: 0 <= i < |a| ==> Lower(a[i]) == Lower(b[i])
  }

  /** A C string: no character of it is the terminator. */
  predicate NulFree(s: string) {
    forall i :: 0 <= i < |s| ==> s[i] != '\0'
  }

  /** Text on which `char` comparisons do not depend on the signedness of `char`. */
  predicate SevenBit(s: string) {
    forall i :: 0 <= i < |s| ==> '\0' < s[i] < 128 as char
  }

  /** No `c` in `s`. */
  predicate Free(s: string, c: char) {
    forall i :: 0 <= i < |s| ==> s[i] != c
  }

  // ----- text read from the front -----

  function Length(t: Text): nat {
    match t
    case End => 0
    case Ch(_, r) => 1 + Length(r)
  }

  /** The character at the front, or the terminator. */
  function Head(t: Text): char {
    match t
    case End => '\0'
    case Ch(c, _) => c
  }

  /** `s` followed by `t`. */
  function Before(s: string, t: Text): Text {
    if s == [] then t else Ch(s[0], Before(s[1..], t))
  }

  function SameChar(a: char, b: char, xCase: bool): bool {
    if xCase then a == b else Lower(a) == Lower(b)
  }

  /** strncmp or strncasecmp with a word: what follows the word `w[i..]`, if it is at the front. */
  function After(t: Text, w: string, i: nat, xCase: bool): (r: Option<Text>)
    requires i <= |w|
    ensures r.Some? ==> Length(r.value) + |w| - i == Length(t)
    decreases |w| - i
  {
    if i == |w| then Some(t)
    else if t.Ch? && SameChar(t.c, w[i], xCase) then After(t.rest, w, i + 1, xCase)
    else None
  }

  /** The word at the front, and then no letter or digit. */
  function Word(t: Text, w: string, xCase: bool): (r: Option<Text>)
    ensures r.Some? ==> Length(r.value) + |w| == Length(t)
  {
    var r := After(t, w, 0, xCase);
    if r.Some? && !IsAlnum(Head(r.value)) then r else None
  }

  datatype Cut = Cut(s: string, rest: Text)

  /** What stands before the first `c`, or before the end. */
  function UpTo(t: Text, c: char): (k: Cut)
    ensures Length(k.rest) + |k.s| == Length(t)
    ensures k.rest.Ch? ==> k.rest.c == c
  {
    if t.End? || t.c == c then Cut("", t)
    else
      var k := UpTo(t.rest, c);
      Cut([t.c] + k.s, k.rest)
  }

  /** strstr: what follows the first occurrence of `w`. */
  function AfterSub(t: Text, w: string): (r: Option<Text>)
    ensures r.Some? ==> Length(r.value) + |w| <= Length(t)
  {
    var r := After(t, w, 0, true);
    if r.Some? then r
    else if t.End? then None
    else AfterSub(t.rest, w)
  }

  function SkipWS(t: Text): (r: Text)
    ensures Length(r) <= Length(t)
  {
    if t.Ch? && IsBlank(t.c) then SkipWS(t.rest) else t
  }

  // ----- trimming -----

  /** Index of the first character from `i` on that is not blank. */
  function Lead(s: string, i: nat): (k: nat)
    requires i <= |s|
    ensures i <= k <= |s|
    ensures k < |s| ==> !IsBlank(s[k])
    ensures forall j :: i <= j < k ==> IsBlank(s[j])
    decreases |s| - i
  {
    if i < |s| && IsBlank(s[i]) then Lead(s, i + 1) else i
  }

  /** Index behind the last character before `i` that is not blank. */
  function Tail(s: string, i: nat): (k: nat)
    requires i <= |s|
    ensures k <= i
    ensures k > 0 ==> !IsBlank(s[k - 1])
    ensures forall j :: k <= j < i ==> IsBlank(s[j])
  {
    if i > 0 && IsBlank(s[i - 1]) then Tail(s, i - 1) else i
  }

  /** `s` without leading and trailing blanks. */
  function Trim(s: string): string {
    var a := Lead(s, 0);
    if a == |s| then "" else s[a..Tail(s, |s|)]
  }
}
