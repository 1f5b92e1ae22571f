/** Where the lexer finds the tag names the client prints. */
module TagLookup {
  import opened CText
  import opened Lexing
  import opened TokenCodes
  import opened CimTags

  // ----- words at the front of printed text -----

  /** A character that ends a name in a tag. */
  predicate IsDelimiter(c: char) { IsBlank(c) || c == '>' || c == '/' || c == '=' }

  predicate InName(c: char) { IsAlnum(c) || c == '.' }

  lemma {:induction false} AfterRest(v: string, t: Text, w: string, i: nat, xCase: bool)
    requires i <= |w| <= |v|
    ensures var r := After(Before(v[i..], t), w, i, xCase); r.Some? ==> r.value == Before(v[|w|..], t)
    decreases |w| - i
  {
    if i < |w| {
      assert v[i..][1..] == v[i + 1..];
      AfterRest(v, t, w, i + 1, xCase);
    }
  }

  lemma {:induction false} AfterSelf(v: string, t: Text, i: nat, xCase: bool)
    requires i <= |v|
    ensures After(Before(v[i..], t), v, i, xCase) == Some(t)
    decreases |v| - i
  {
    if i < |v| {
      assert v[i..][1..] == v[i + 1..];
      AfterSelf(v, t, i + 1, xCase);
    }
  }

  /** Text that differs from `w` at position `p` does not start with `w`. */
  lemma {:induction false} AfterNone(v: string, t: Text, w: string, i: nat, p: nat)
    requires i <= p < |w| && p <= |v| && w[p] != if p < |v| then v[p] else Head(t)
    ensures After(Before(v[i..], t), w, i, true).None?
    decreases p - i
  {
    if i < p {
      assert v[i..][1..] == v[i + 1..];
      AfterNone(v, t, w, i + 1, p);
    } else if i < |v| {
      assert Before(v[i..], t) == Ch(v[i], Before(v[i..][1..], t));
    }
  }

  lemma WordSelf(v: string, t: Text, xCase: bool)
    requires IsDelimiter(Head(t))
    ensures Word(Before(v, t), v, xCase) == Some(t)
  {
    AfterSelf(v, t, 0, xCase);
    assert v[0..] == v;
  }

  /** `v`, followed by a delimiter, and the row name `w` part at position `p`. */
  predicate Part(v: string, w: string, p: nat) {
    || (p < |w| && p < |v| && v[p] != w[p])
    || (p < |w| && p == |v| && InName(w[p]))
    || (p == |w| && p < |v| && IsAlnum(v[p]))
  }

  lemma WordNone(v: string, t: Text, w: string, p: nat)
    requires IsDelimiter(Head(t)) && Part(v, w, p)
    ensures Word(Before(v, t), w, true).None?
  {
    assert v[0..] == v;
    if p < |w| {
      AfterNone(v, t, w, 0, p);
    } else {
      AfterRest(v, t, w, 0, true);
      assert Before(v[p..], t) == Ch(v[p], Before(v[p..][1..], t));
    }
  }

  // ----- rows -----

  lemma SkipRow(v: string, t: Text, i: nat, p: nat)
    requires i < 45 && IsDelimiter(Head(t)) && Part(v, TagAt(i).name, p)
    ensures FindTag(Tags(), Before(v, t), i) == FindTag(Tags(), Before(v, t), i + 1)
  {
    WordNone(v, t, TagAt(i).name, p);
  }

  /** Rows whose names start with another character. */
  lemma {:induction false} SkipRows(v: string, t: Text, i: nat, j: nat)
    requires i <= j <= 44 && IsDelimiter(Head(t)) && v != "" && forall r :: i <= r < j ==> FIRSTS[r] != v[0]
    ensures FindTag(Tags(), Before(v, t), i) == FindTag(Tags(), Before(v, t), j)
    decreases j - i
  {
    if i < j {
      if i < 22 { LowFirsts(i); } else { HighFirsts(i); }
      WordNone(v, t, TagAt(i).name, 0);
      SkipRows(v, t, i + 1, j);
    }
  }

  lemma ThisRow(v: string, t: Text, i: nat)
    requires i < 45 && IsDelimiter(Head(t)) && TagAt(i).name == v
    ensures FindTag(Tags(), Before(v, t), i) == i && Word(Before(v, t), v, true) == Some(t)
  {
    WordSelf(v, t, true);
  }

  /** The table finds row `i` for its own name, followed by `t`. */
  ghost predicate Found(i: nat, t: Text)
    requires i < 45
  {
    FindTag(Tags(), Before(TagAt(i).name, t), 0) == i && Word(Before(TagAt(i).name, t), TagAt(i).name, true) == Some(t)
  }

  lemma KeyBindingRow(t: Text)
    requires IsDelimiter(Head(t))
    ensures Found(22, t)
  {
    hide FindTag, Word, Before, Tags, IsDelimiter;
    SkipRows("KEYBINDING", t, 0, 21);
    SkipRow("KEYBINDING", t, 21, 3);
    ThisRow("KEYBINDING", t, 22);
  }

  lemma KeyValueRow(t: Text)
    requires IsDelimiter(Head(t))
    ensures Found(21, t)
  {
    hide FindTag, Word, Before, Tags, IsDelimiter;
    SkipRows("KEYVALUE", t, 0, 21);
    ThisRow("KEYVALUE", t, 21);
  }

  lemma ValueReferenceRow(t: Text)
    requires IsDelimiter(Head(t))
    ensures Found(16, t)
  {
    hide FindTag, Word, Before, Tags, IsDelimiter;
    SkipRows("VALUE.REFERENCE", t, 0, 14);
    SkipRow("VALUE.REFERENCE", t, 14, 6);
    SkipRow("VALUE.REFERENCE", t, 15, 6);
    ThisRow("VALUE.REFERENCE", t, 16);
  }

  lemma ValueArrayRow(t: Text)
    requires IsDelimiter(Head(t))
    ensures Found(14, t)
  {
    hide FindTag, Word, Before, Tags, IsDelimiter;
    SkipRows("VALUE.ARRAY", t, 0, 14);
    ThisRow("VALUE.ARRAY", t, 14);
  }

  lemma ValueRow(t: Text)
    requires IsDelimiter(Head(t))
    ensures Found(19, t)
  {
    hide FindTag, Word, Before, Tags, IsDelimiter;
    SkipRows("VALUE", t, 0, 14);
    ValueRows(t);
    ValueRest(t);
  }

  lemma ValueRows(t: Text)
    requires IsDelimiter(Head(t))
    ensures FindTag(Tags(), Before("VALUE", t), 14) == FindTag(Tags(), Before("VALUE", t), 17)
  {
    hide FindTag, Word, Before, Tags, IsDelimiter;
    SkipRow("VALUE", t, 14, 5);
    SkipRow("VALUE", t, 15, 5);
    SkipRow("VALUE", t, 16, 5);
  }

  lemma ValueRest(t: Text)
    requires IsDelimiter(Head(t))
    ensures FindTag(Tags(), Before("VALUE", t), 17) == 19 && Word(Before("VALUE", t), "VALUE", true) == Some(t)
  {
    hide FindTag, Word, Before, Tags, IsDelimiter;
    SkipRow("VALUE", t, 17, 5);
    SkipRow("VALUE", t, 18, 5);
    ThisRow("VALUE", t, 19);
  }

  lemma InstancePathRow(t: Text)
    requires IsDelimiter(Head(t))
    ensures Found(23, t)
  {
    hide FindTag, Word, Before, Tags, IsDelimiter;
    SkipRows("INSTANCEPATH", t, 0, 5);
    SkipRow("INSTANCEPATH", t, 5, 1);
    SkipRow("INSTANCEPATH", t, 6, 1);
    SkipRows("INSTANCEPATH", t, 7, 23);
    ThisRow("INSTANCEPATH", t, 23);
  }

  lemma LocalInstancePathRow(t: Text)
    requires IsDelimiter(Head(t))
    ensures Found(8, t)
  {
    hide FindTag, Word, Before, Tags, IsDelimiter;
    SkipRows("LOCALINSTANCEPATH", t, 0, 7);
    SkipRow("LOCALINSTANCEPATH", t, 7, 5);
    ThisRow("LOCALINSTANCEPATH", t, 8);
  }

  lemma NameSpacePathRow(t: Text)
    requires IsDelimiter(Head(t))
    ensures Found(10, t)
  {
    hide FindTag, Word, Before, Tags, IsDelimiter;
    SkipRows("NAMESPACEPATH", t, 0, 10);
    ThisRow("NAMESPACEPATH", t, 10);
  }

  lemma HostRow(t: Text)
    requires IsDelimiter(Head(t))
    ensures Found(20, t)
  {
    hide FindTag, Word, Before, Tags, IsDelimiter;
    SkipRows("HOST", t, 0, 20);
    ThisRow("HOST", t, 20);
  }

  lemma LocalNameSpacePathRow(t: Text)
    requires IsDelimiter(Head(t))
    ensures Found(7, t)
  {
    hide FindTag, Word, Before, Tags, IsDelimiter;
    SkipRows("LOCALNAMESPACEPATH", t, 0, 7);
    ThisRow("LOCALNAMESPACEPATH", t, 7);
  }

  lemma NameSpaceRow(t: Text)
    requires IsDelimiter(Head(t))
    ensures Found(11, t)
  {
    hide FindTag, Word, Before, Tags, IsDelimiter;
    SkipRows("NAMESPACE", t, 0, 10);
    SkipRow("NAMESPACE", t, 10, 9);
    ThisRow("NAMESPACE", t, 11);
  }

  lemma InstanceNameRow(t: Text)
    requires IsDelimiter(Head(t))
    ensures Found(24, t)
  {
    hide FindTag, Word, Before, Tags, IsDelimiter;
    SkipRows("INSTANCENAME", t, 0, 5);
    SkipRow("INSTANCENAME", t, 5, 1);
    SkipRow("INSTANCENAME", t, 6, 1);
    SkipRows("INSTANCENAME", t, 7, 23);
    InstanceNameRest(t);
  }

  lemma InstanceNameRest(t: Text)
    requires IsDelimiter(Head(t))
    ensures FindTag(Tags(), Before("INSTANCENAME", t), 23) == 24 && Word(Before("INSTANCENAME", t), "INSTANCENAME", true) == Some(t)
  {
    hide FindTag, Word, Before, Tags, IsDelimiter;
    SkipRow("INSTANCENAME", t, 23, 8);
    ThisRow("INSTANCENAME", t, 24);
  }

  lemma InstanceRow(t: Text)
    requires IsDelimiter(Head(t))
    ensures Found(25, t)
  {
    hide FindTag, Word, Before, Tags, IsDelimiter;
    SkipRows("INSTANCE", t, 0, 5);
    SkipRow("INSTANCE", t, 5, 1);
    SkipRow("INSTANCE", t, 6, 1);
    SkipRows("INSTANCE", t, 7, 23);
    InstanceRest(t);
  }

  lemma InstanceRest(t: Text)
    requires IsDelimiter(Head(t))
    ensures FindTag(Tags(), Before("INSTANCE", t), 23) == 25 && Word(Before("INSTANCE", t), "INSTANCE", true) == Some(t)
  {
    hide FindTag, Word, Before, Tags, IsDelimiter;
    SkipRow("INSTANCE", t, 23, 8);
    SkipRow("INSTANCE", t, 24, 8);
    ThisRow("INSTANCE", t, 25);
  }

  lemma PropertyRow(t: Text)
    requires IsDelimiter(Head(t))
    ensures Found(28, t)
  {
    hide FindTag, Word, Before, Tags, IsDelimiter;
    SkipRows("PROPERTY", t, 0, 12);
    SkipRow("PROPERTY", t, 12, 1);
    SkipRows("PROPERTY", t, 13, 26);
    PropertyRest(t);
  }

  lemma PropertyRest(t: Text)
    requires IsDelimiter(Head(t))
    ensures FindTag(Tags(), Before("PROPERTY", t), 26) == 28 && Word(Before("PROPERTY", t), "PROPERTY", true) == Some(t)
  {
    hide FindTag, Word, Before, Tags, IsDelimiter;
    SkipRow("PROPERTY", t, 26, 8);
    SkipRow("PROPERTY", t, 27, 8);
    ThisRow("PROPERTY", t, 28);
  }

  lemma PropertyArrayRow(t: Text)
    requires IsDelimiter(Head(t))
    ensures Found(27, t)
  {
    hide FindTag, Word, Before, Tags, IsDelimiter;
    SkipRows("PROPERTY.ARRAY", t, 0, 12);
    SkipRow("PROPERTY.ARRAY", t, 12, 1);
    SkipRows("PROPERTY.ARRAY", t, 13, 26);
    SkipRow("PROPERTY.ARRAY", t, 26, 9);
    ThisRow("PROPERTY.ARRAY", t, 27);
  }

  lemma PropertyReferenceRow(t: Text)
    requires IsDelimiter(Head(t))
    ensures Found(26, t)
  {
    hide FindTag, Word, Before, Tags, IsDelimiter;
    SkipRows("PROPERTY.REFERENCE", t, 0, 12);
    SkipRow("PROPERTY.REFERENCE", t, 12, 1);
    SkipRows("PROPERTY.REFERENCE", t, 13, 26);
    ThisRow("PROPERTY.REFERENCE", t, 26);
  }

  /** The rows of the elements the client prints. */
  predicate IsPrinted(i: nat) {
    i == 7 || i == 8 || i == 10 || i == 11 || i == 14 || i == 16 || 19 <= i <= 28
  }

  /** The table finds the row of each of them, whatever delimiter and text follow the name. */
  lemma PrintedRow(i: nat, t: Text)
    requires IsPrinted(i) && IsDelimiter(Head(t))
    ensures Found(i, t)
  {
    hide Found;
    match i
    case 7 => LocalNameSpacePathRow(t);
    case 8 => LocalInstancePathRow(t);
    case 10 => NameSpacePathRow(t);
    case 11 => NameSpaceRow(t);
    case 14 => ValueArrayRow(t);
    case 16 => ValueReferenceRow(t);
    case 19 => ValueRow(t);
    case 20 => HostRow(t);
    case 21 => KeyValueRow(t);
    case 22 => KeyBindingRow(t);
    case 23 => InstancePathRow(t);
    case 24 => InstanceNameRow(t);
    case 25 => InstanceRow(t);
    case 26 => PropertyReferenceRow(t);
    case 27 => PropertyArrayRow(t);
    case 28 => PropertyRow(t);
  }
}
