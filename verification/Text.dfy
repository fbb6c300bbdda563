/**
 The string operations the runtime relies on. A Go string is modelled by its
 bytes, one `char` per byte, so that lengths and slices are byte lengths and
 byte slices. White space is the Unicode White_Space property on UTF-8: the
 first byte of a multi-byte space is never a continuation byte, so a space can
 be recognised without decoding the text around it.
 */
module Text {

  predicate AsciiSpace(c: char) {
    c == ' ' || '\t' <= c <= '\r'
  }

  /** U+0085 and U+00A0. */
  predicate TwoByteSpace(a: char, b: char) {
    a as int == 0xC2 && (b as int == 0x85 || b as int == 0xA0)
  }

  /** U+1680, U+2000 to U+200A, U+2028, U+2029, U+202F, U+205F and U+3000. */
  predicate ThreeByteSpace(a: char, b: char, c: char) {
    || (a as int == 0xE1 && b as int == 0x9A && c as int == 0x80)
    || (a as int == 0xE2 && b as int == 0x80
        && (0x80 <= c as int <= 0x8A || c as int == 0xA8 || c as int == 0xA9 || c as int == 0xAF))
    || (a as int == 0xE2 && b as int == 0x81 && c as int == 0x9F)
    || (a as int == 0xE3 && b as int == 0x80 && c as int == 0x80)
  }

  /** The width of the space that starts `s`, or 0. */
  function SpacePrefix(s: string): (w: nat)
    ensures w <= |s|
  {
    if |s| >= 1 && AsciiSpace(s[0]) then 1
    else if |s| >= 2 && TwoByteSpace(s[0], s[1]) then 2
    else if |s| >= 3 && ThreeByteSpace(s[0], s[1], s[2]) then 3
    else 0
  }

  /** The width of the space that ends `s`, or 0. */
  function SpaceSuffix(s: string): (w: nat)
    ensures w <= |s|
  {
    var n := |s|;
    if n >= 1 && AsciiSpace(s[n - 1]) then 1
    else if n >= 2 && TwoByteSpace(s[n - 2], s[n - 1]) then 2
    else if n >= 3 && ThreeByteSpace(s[n - 3], s[n - 2], s[n - 1]) then 3
    else 0
  }

  predicate Trimmed(s: string) {
    SpacePrefix(s) == 0 && SpaceSuffix(s) == 0
  }

  function TrimLeft(s: string): (r: string)
    ensures SpacePrefix(r) == 0
    ensures SpacePrefix(s) == 0 ==> r == s
    decreases |s|
  {
    if SpacePrefix(s) == 0 then s else TrimLeft(s[SpacePrefix(s)..])
  }

  function TrimRight(s: string): (r: string)
    ensures SpaceSuffix(r) == 0
    ensures SpaceSuffix(s) == 0 ==> r == s
    ensures SpacePrefix(s) == 0 ==> SpacePrefix(r) == 0
    decreases |s|
  {
    if SpaceSuffix(s) == 0 then s else TrimRight(s[..|s| - SpaceSuffix(s)])
  }

  /** strings.TrimSpace: the result is trimmed, and trimmed text is left alone. */
  function TrimSpace(s: string): (r: string)
    ensures Trimmed(r)
    ensures Trimmed(s) ==> r == s
  {
    TrimRight(TrimLeft(s))
  }

  predicate Blank(s: string) {
    TrimSpace(s) == ""
  }

  /** Spaces and nothing else. */
  predicate Spaces(s: string)
    decreases |s|
  {
    s == "" || (SpacePrefix(s) > 0 && Spaces(s[SpacePrefix(s)..]))
  }

  /** One space, whole. */
  predicate OneSpace(s: string) {
    s != "" && SpacePrefix(s) == |s|
  }

  lemma PrefixIsSpace(s: string)
    ensures SpacePrefix(s) > 0 ==> OneSpace(s[..SpacePrefix(s)])
  {
  }

  lemma SuffixIsSpace(s: string)
    ensures SpaceSuffix(s) > 0 ==> OneSpace(s[|s| - SpaceSuffix(s)..])
  {
  }

  lemma SpaceThenSpaces(space: string, rest: string)
    requires OneSpace(space) && Spaces(rest)
    ensures Spaces(space + rest)
  {
    var s := space + rest;
    assert SpacePrefix(s) == |space| && s[|space|..] == rest;
  }

  lemma {:induction false} SpacesThenSpace(spaces: string, space: string)
    requires Spaces(spaces) && OneSpace(space)
    ensures Spaces(spaces + space)
    decreases |spaces|
  {
    hide SpacePrefix;
    if spaces == "" {
      assert spaces + space == space + "";
      SpaceThenSpaces(space, "");
    } else {
      var w := SpacePrefix(spaces);
      PrefixIsSpace(spaces);
      SpacesThenSpace(spaces[w..], space);
      SpaceThenSpaces(spaces[..w], spaces[w..] + space);
      assert spaces + space == spaces[..w] + (spaces[w..] + space);
    }
  }

  lemma {:induction false} LeftSpaces(s: string) returns (before: string)
    ensures s == before + TrimLeft(s) && Spaces(before)
    decreases |s|
  {
    hide SpacePrefix, OneSpace;
    var w := SpacePrefix(s);
    before := "";
    if w > 0 {
      before := LeftSpaces(s[w..]);
      PrefixIsSpace(s);
      SpaceThenSpaces(s[..w], before);
      assert s == s[..w] + s[w..];
      before := s[..w] + before;
    }
  }

  lemma {:induction false} RightSpaces(s: string) returns (behind: string)
    ensures s == TrimRight(s) + behind && Spaces(behind)
    decreases |s|
  {
    hide SpacePrefix, SpaceSuffix, OneSpace;
    var w := SpaceSuffix(s);
    behind := "";
    if w > 0 {
      behind := RightSpaces(s[..|s| - w]);
      SuffixIsSpace(s);
      SpacesThenSpace(behind, s[|s| - w..]);
      assert s == s[..|s| - w] + s[|s| - w..];
      behind := behind + s[|s| - w..];
    }
  }

  /** Trimming takes away the spaces at both ends and nothing else. */
  lemma {:induction false} TrimTakesOnlySpaces(s: string) returns (before: string, behind: string)
    ensures s == before + TrimSpace(s) + behind && Spaces(before) && Spaces(behind)
  {
    hide SpacePrefix, SpaceSuffix;
    before := LeftSpaces(s);
    behind := RightSpaces(TrimLeft(s));
    assert s == before + (TrimSpace(s) + behind);
  }

  predicate PlainChar(c: char) {
    !AsciiSpace(c) && c as int < 0x80
  }

  /** Only bytes below 0x80 that are not spaces. */
  predicate Plain(s: string) {
    forall i :: 0 <= i < |s| ==> PlainChar(s[i])
  }

  lemma PlainEndsAreTrimmed(s: string)
    requires s != "" && PlainChar(s[0]) && PlainChar(s[|s| - 1])
    ensures Trimmed(s)
  {
  }

  lemma PlainIsTrimmed(s: string)
    requires Plain(s)
    ensures Trimmed(s) && TrimSpace(s) == s
  {
    if s != "" {
      PlainEndsAreTrimmed(s);
    }
  }

  lemma EmptyIsBlank()
    ensures Blank("")
  {
    PlainIsTrimmed("");
  }

  function LowerChar(c: char): char {
    if 'A' <= c <= 'Z' then (c as int + 32) as char else c
  }

  /** strings.ToLower on ASCII letters. */
  function ToLower(s: string): (r: string)
    ensures |r| == |s|
    ensures forall i :: 0 <= i < |s| ==> r[i] == LowerChar(s[i])
  {
    seq(|s|, i requires 0 <= i < |s| => LowerChar(s[i]))
  }

  const SMALL_LETTERS := "abcdefghijklmnopqrstuvwxyz"

  /** Capitals become the small letters they are, and nothing else changes. */
  lemma LowerIsExact(s: string)
    ensures forall i :: 0 <= i < |s| ==>
              ToLower(s)[i] == if 'A' <= s[i] <= 'Z' then SMALL_LETTERS[s[i] as int - 'A' as int] else s[i]
  {
    forall i | 0 <= i < |s| && 'A' <= s[i] <= 'Z'
      ensures SMALL_LETTERS[s[i] as int - 'A' as int] == LowerChar(s[i])
    {
      LettersAreInOrder(s[i] as int - 'A' as int);
    }
  }

  lemma LettersAreInOrder(k: nat)
    requires k < 26
    ensures SMALL_LETTERS[k] as int == 'a' as int + k
  {
  }

  lemma LowerKeepsTrimmed(s: string)
    requires Trimmed(s)
    ensures Trimmed(ToLower(s)) && ToLower(ToLower(s)) == ToLower(s)
  {
  }

  const PUBLIC := "public"
  const PRIVATE := "private"

  /** A visibility as it is recorded and sent: trimmed, lower case, public when blank. */
  function VisibilityOf(text: string): (v: string)
    ensures v != ""
  {
    var v := ToLower(TrimSpace(text));
    if v == "" then PUBLIC else v
  }

  lemma LowerTextIsStable(s: string)
    requires Trimmed(s) && ToLower(s) == s
    ensures s != "" ==> VisibilityOf(s) == s
  {
  }

  lemma VisibilityIsStable(text: string)
    ensures VisibilityOf(VisibilityOf(text)) == VisibilityOf(text)
  {
    var v := ToLower(TrimSpace(text));
    LowerKeepsTrimmed(TrimSpace(text));
    if v != "" {
      LowerTextIsStable(v);
    } else {
      PublicIsStable();
    }
  }

  lemma PublicIsStable()
    ensures VisibilityOf(PUBLIC) == PUBLIC
  {
    PlainIsTrimmed(PUBLIC);
    LowerTextIsStable(PUBLIC);
  }

  /** The two visibilities are in normal form. */
  lemma NormalVisibility(v: string)
    requires v == PUBLIC || v == PRIVATE
    ensures TrimSpace(v) == v && VisibilityOf(v) == v && v != ""
  {
    if v == PUBLIC {
      PlainIsTrimmed(PUBLIC);
      LowerTextIsStable(PUBLIC);
    } else {
      PlainIsTrimmed(PRIVATE);
      LowerTextIsStable(PRIVATE);
    }
  }
}
