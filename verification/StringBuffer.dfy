/** The growing text buffer of utilStringBuffer.c. */
module StringBuffers {
  import opened CText

  datatype Op = Append(s: string) | Block(s: string) | Reset

  /** What a run of operations leaves in a new buffer. */
  function Replay(ops: seq<Op>): string {
    if ops == [] then ""
    else
      match ops[|ops| - 1]
      case Append(s) => Replay(ops[..|ops| - 1]) + s
      case Block(s) => Replay(ops[..|ops| - 1]) + s
      case Reset => ""
  }

  function Concat(ops: seq<Op>): string
    requires forall i :: 0 <= i < |ops| ==> !ops[i].Reset?
  {
    if ops == [] then "" else Concat(ops[..|ops| - 1]) + ops[|ops| - 1].s
  }

  /** The contents are the texts appended since the last reset, in order. */
  lemma {:induction false} SinceReset(before: seq<Op>, ops: seq<Op>)
    requires forall i :: 0 <= i < |ops| ==> !ops[i].Reset?
    requires before == [] || before[|before| - 1].Reset?
    ensures Replay(before + ops) == Concat(ops)
  {
    if ops == [] {
      assert before + ops == before;
    } else {
      var n := |ops| - 1;
      SinceReset(before, ops[..n]);
      assert (before + ops)[..|before| + n] == before + ops[..n];
    }
  }

  function Max(a: nat, b: nat): nat { if a <= b then b else a }

  class StringBuffer {
    var hdl: array<char>
    var max: nat
    var len: nat
    /** The first capacity, the greatest length so far, and the text characters copied by reallocations. */
    ghost var first: nat
    ghost var longest: nat
    ghost var copied: nat

    /** The capacity; an empty clone has none until it grows to 8. */
    ghost function Capacity(): nat
      reads `max
    {
      if max == 0 then 8 else max
    }

    /** The text is terminated inside the block; the capacity is at most twice what was needed, and pays for all copying. */
    ghost predicate Valid()
      reads this, hdl
    {
      && len < hdl.Length && len <= max <= hdl.Length <= max + 2
      && hdl[len] == '\0'
      && len <= longest
      && Capacity() <= Max(first, 2 * (longest + 1))
      && copied + first <= Capacity()
    }

    ghost function Contents(): string
      requires len <= hdl.Length
      reads this, hdl
    {
      hdl[..len]
    }

    /** newStringBuffer */
    constructor (s: nat)
      ensures Valid() && fresh(hdl) && Contents() == ""
      ensures first == (if s == 0 then 32 else s) && copied == 0 && longest == 0
    {
      var n := if s == 0 then 32 else s;
      hdl := new char[n];
      max, len := n, 0;
      first, longest, copied := n, 0, 0;
      new;
      hdl[0] := '\0';
    }

    /** Make room for `sl` more characters and the terminator. */
    method Grow(sl: nat)
      requires Valid()
      modifies this
      ensures hdl == old(hdl) || fresh(hdl)
      ensures len == old(len) && len < hdl.Length && Contents() == old(Contents())
      ensures first == old(first) && longest == Max(old(longest), old(len) + sl)
      ensures sl + len + 1 < max <= hdl.Length <= max + 2
      ensures Capacity() <= Max(first, 2 * (longest + 1)) && copied + first <= Capacity()
    {
      longest := Max(longest, len + sl);
      if sl + len + 1 >= max {
        copied := copied + len;
        ghost var c0 := Capacity();
        var m := if max == 0 then 8 else max;
        while sl + len + 1 >= m
          invariant 0 < c0 && (m == c0 || m >= 2 * c0)
          invariant m <= Max(first, 2 * (longest + 1))
          decreases sl + len + 1 - m
        {
          m := m * 2;
        }
        max := m;
        var ns := new char[m + 2];
        forall i | 0 <= i < hdl.Length { ns[i] := hdl[i]; }
        hdl := ns;
      }
    }

    /** memcpy of the text and a terminator. */
    static method CopyTo(a: array<char>, at: nat, s: string)
      requires at + |s| < a.Length
      modifies a
      ensures a[..at] == old(a[..at]) && a[at..at + |s|] == s && a[at + |s|] == '\0'
    {
      forall i | 0 <= i < |s| { a[at + i] := s[i]; }
      a[at + |s|] := '\0';
    }

    method CopyIn(s: string)
      requires Valid()
      modifies this, hdl
      ensures Valid() && (hdl == old(hdl) || fresh(hdl))
      ensures Contents() == old(Contents()) + s
      ensures first == old(first) && longest == Max(old(longest), len)
    {
      Grow(|s|);
      ghost var before := Contents();
      CopyTo(hdl, len, s);
      assert hdl[..len + |s|] == before + s;
      len := len + |s|;
    }

    method AppendChars(chars: Option<string>)
      requires Valid()
      modifies this, hdl
      ensures Valid() && (hdl == old(hdl) || fresh(hdl))
      ensures Contents() == old(Contents()) + if chars.Some? then chars.value else ""
      ensures first == old(first) && longest == Max(old(longest), len)
    {
      if chars.None? { return; }
      CopyIn(chars.value);
    }

    method AppendBlock(data: Option<string>)
      requires Valid()
      modifies this, hdl
      ensures Valid() && (hdl == old(hdl) || fresh(hdl))
      ensures Contents() == old(Contents()) + if data.Some? then data.value else ""
      ensures first == old(first) && longest == Max(old(longest), len)
    {
      if data.None? { return; }
      CopyIn(data.value);
    }

    /** An empty clone has no capacity to clear, and its text is empty already. */
    method ResetBuffer()
      requires Valid()
      modifies this, hdl
      ensures Valid() && hdl == old(hdl) && Contents() == ""
      ensures first == old(first) && longest == old(longest) && copied == old(copied) && max == old(max)
    {
      if max != 0 { hdl[0] := '\0'; }
      len := 0;
    }

    /** strdup copies up to the terminator. */
    constructor Clone(sb: StringBuffer)
      requires sb.Valid() && NulFree(sb.Contents())
      ensures Valid() && fresh(hdl) && Contents() == sb.Contents() && max == sb.len
    {
      var n := sb.len;
      hdl := new char[n + 1](i requires 0 <= i < sb.hdl.Length reads sb, sb.hdl => sb.hdl[i]);
      max, len := n, n;
      first, longest, copied := if n == 0 then 8 else n, n, 0;
    }
  }

  /** Any run of operations on a new buffer. */
  method Run(s: nat, ops: seq<Op>) returns (sb: StringBuffer)
    ensures fresh(sb) && sb.Valid() && sb.Contents() == Replay(ops)
    ensures sb.first == if s == 0 then 32 else s
  {
    sb := new StringBuffer(s);
    var i := 0;
    while i < |ops|
      invariant 0 <= i <= |ops| && fresh(sb) && fresh(sb.hdl) && sb.Valid()
      invariant sb.Contents() == Replay(ops[..i]) && sb.first == if s == 0 then 32 else s
    {
      assert ops[..i + 1][..i] == ops[..i];
      match ops[i] {
        case Append(t) => sb.AppendChars(Some(t));
        case Block(t) => sb.AppendBlock(Some(t));
        case Reset => sb.ResetBuffer();
      }
      i := i + 1;
    }
    assert ops[..i] == ops;
  }
}
