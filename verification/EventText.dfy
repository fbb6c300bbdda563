/**
 How notification text is limited: runs of white space become single spaces, and
 text that is still too long ends in three dots. Lengths are in bytes.
 */
module EventText {
  import opened Text

  /** No white space starts anywhere in `w`. */
  predicate NoSpace(w: string) {
    forall i :: 0 <= i < |w| ==> SpacePrefix(w[i..]) == 0
  }

  /** The length of the word that starts `s`. */
  function WordLength(s: string): (k: nat)
    ensures k <= |s|
    ensures k > 0 <==> s != "" && SpacePrefix(s) == 0
  {
    if s == "" || SpacePrefix(s) > 0 then 0 else 1 + WordLength(s[1..])
  }

  /** strings.Fields: the words between runs of white space. */
  function Fields(s: string): seq<string>
    decreases |s|
  {
    if s == "" then []
    else if SpacePrefix(s) > 0 then Fields(s[SpacePrefix(s)..])
    else [s[..WordLength(s)]] + Fields(s[WordLength(s)..])
  }

  /** strings.Join with one space. */
  function Join(words: seq<string>): string {
    if words == [] then "" else if |words| == 1 then words[0] else words[0] + " " + Join(words[1..])
  }

  predicate WordsOk(words: seq<string>) {
    forall i :: 0 <= i < |words| ==> words[i] != "" && NoSpace(words[i])
  }

  /** Words with one space between each two of them, and nothing else. */
  predicate SingleSpaced(s: string) {
    forall i :: 0 <= i < |s| && SpacePrefix(s[i..]) > 0 ==>
      s[i] == ' ' && 0 < i < |s| - 1 && SpacePrefix(s[i + 1..]) == 0
  }

  const DOTS := "..."

  /** limitText. */
  function LimitText(text: string, max: int): string {
    var t := TrimSpace(Join(Fields(text)));
    if max <= 0 || |t| <= max then t
    else if max <= 3 then t[..max]
    else t[..max - 3] + DOTS
  }

  // ------------------------------------------------------------- words and spaces

  lemma {:induction false} WordIsOk(s: string)
    ensures var k := WordLength(s);
            && NoSpace(s[..k])
            && (k < |s| ==> SpacePrefix(s[k..]) > 0)
  {
    hide SpacePrefix;
    if s != "" && SpacePrefix(s) == 0 {
      var k := WordLength(s);
      WordIsOk(s[1..]);
      assert s[1..][k - 1..] == s[k..] && s[..k][1..] == s[1..][..k - 1];
      PrefixHasNoMore(s, k);
      ConsNoSpace(s[..k]);
    } else {
      assert s[0..] == s;
    }
  }

  lemma ConsNoSpace(w: string)
    ensures w != "" && SpacePrefix(w) == 0 && NoSpace(w[1..]) ==> NoSpace(w)
  {
    if w != "" && SpacePrefix(w) == 0 && NoSpace(w[1..]) {
      forall i | 0 <= i < |w| ensures SpacePrefix(w[i..]) == 0 {
        if i == 0 {
          assert w[0..] == w;
        } else {
          assert w[i..] == w[1..][i - 1..];
        }
      }
    }
  }

  /** Cutting text short starts no new space at its front. */
  lemma PrefixHasNoMore(s: string, k: nat)
    requires k <= |s| && SpacePrefix(s) == 0
    ensures SpacePrefix(s[..k]) == 0
  {
  }

  lemma {:induction false} FieldsAreOk(s: string)
    ensures WordsOk(Fields(s))
    decreases |s|
  {
    hide NoSpace;
    if s == "" {
    } else if SpacePrefix(s) > 0 {
      FieldsAreOk(s[SpacePrefix(s)..]);
    } else {
      WordIsOk(s);
      FieldsAreOk(s[WordLength(s)..]);
    }
  }

  /** Appending text that starts below 0x80 completes no space that was cut short. */
  lemma {:induction false} NothingStraddles(a: string, b: string, i: nat)
    requires i < |a| && (b == "" || b[0] as int < 0x80)
    ensures SpacePrefix((a + b)[i..]) == SpacePrefix(a[i..])
  {
    assert (a + b)[i..] == a[i..] + b;
  }

  /** A word in front of a space, and then single-spaced text, is single-spaced. */
  lemma {:induction false} ConsSingleSpaced(w: string, rest: string)
    requires w != "" && NoSpace(w) && rest != "" && SingleSpaced(rest)
    ensures SingleSpaced(w + " " + rest)
  {
    var s := w + " " + rest;
    assert s == w + (" " + rest);
    forall i | 0 <= i < |w| ensures SpacePrefix(s[i..]) == 0 {
      NothingStraddles(w, " " + rest, i);
    }
    forall i | |w| <= i < |s| && SpacePrefix(s[i..]) > 0
      ensures s[i] == ' ' && 0 < i < |s| - 1 && SpacePrefix(s[i + 1..]) == 0
    {
      StartsWithWord(rest);
      if i == |w| {
        assert s[i + 1..] == rest;
      } else {
        var j := i - |w| - 1;
        assert s[i..] == rest[j..] && s[i + 1..] == rest[j + 1..];
      }
    }
  }

  lemma StartsWithWord(s: string)
    requires s != "" && SingleSpaced(s)
    ensures SpacePrefix(s) == 0
  {
    assert s[0..] == s;
  }

  lemma {:induction false} JoinIsSingleSpaced(words: seq<string>)
    requires WordsOk(words)
    ensures SingleSpaced(Join(words)) && (words != [] ==> Join(words) != "")
  {
    hide NoSpace;
    if |words| == 1 {
      WordIsSingleSpaced(words[0]);
    } else if |words| > 1 {
      JoinIsSingleSpaced(words[1..]);
      ConsSingleSpaced(words[0], Join(words[1..]));
    }
  }

  lemma WordIsSingleSpaced(w: string)
    requires NoSpace(w)
    ensures SingleSpaced(w)
  {
  }

  lemma {:induction false} SingleSpacedIsTrimmed(s: string)
    requires SingleSpaced(s)
    ensures Trimmed(s)
  {
    if s != "" {
      StartsWithWord(s);
      var n := |s|;
      assert SpacePrefix(s[n - 1..]) == 0;
      assert n >= 2 ==> SpacePrefix(s[n - 2..]) < 2;
      assert n >= 3 ==> SpacePrefix(s[n - 3..]) < 3;
    }
  }

  lemma {:induction false} SuffixSingleSpaced(s: string, k: nat)
    requires SingleSpaced(s) && k < |s| && SpacePrefix(s[k..]) == 0
    ensures SingleSpaced(s[k..])
  {
    var t := s[k..];
    assert t[0..] == t;
    forall i | 0 <= i < |t| && SpacePrefix(t[i..]) > 0
      ensures t[i] == ' ' && 0 < i < |t| - 1 && SpacePrefix(t[i + 1..]) == 0
    {
      assert t[i..] == s[k + i..] && t[i + 1..] == s[k + i + 1..];
    }
  }

  /** Single-spaced text is the join of its words. */
  lemma {:induction false} JoinOfFields(s: string)
    requires SingleSpaced(s)
    ensures Join(Fields(s)) == s
    decreases |s|
  {
    hide SingleSpaced, SpacePrefix, NoSpace;
    if s == "" {
      return;
    }
    StartsWithWord(s);
    var k := WordLength(s);
    WordIsOk(s);
    if k < |s| {
      var rest := s[k + 1..];
      AfterWord(s, k);
      JoinOfFields(rest);
      FieldsOfTwo(s, k);
      ConsJoin(s[..k], Fields(rest));
      assert s == s[..k] + " " + rest;
    } else {
      assert s[..k] == s && s[k..] == "";
    }
  }

  lemma {:induction false} AfterWord(s: string, k: nat)
    requires SingleSpaced(s) && k < |s| && SpacePrefix(s[k..]) > 0
    ensures s[k] == ' ' && k + 1 < |s| && SpacePrefix(s[k + 1..]) == 0 && SingleSpaced(s[k + 1..])
  {
    SuffixSingleSpaced(s, k + 1);
  }

  lemma {:induction false} FieldsOfTwo(s: string, k: nat)
    requires 0 < k == WordLength(s) && k + 1 < |s| && s[k] == ' ' && SpacePrefix(s[k + 1..]) == 0
    ensures Fields(s) == [s[..k]] + Fields(s[k + 1..]) && Fields(s[k + 1..]) != []
  {
    assert SpacePrefix(s[k..]) == 1 && s[k..][1..] == s[k + 1..];
  }

  lemma ConsJoin(w: string, words: seq<string>)
    requires words != []
    ensures Join([w] + words) == w + " " + Join(words)
  {
    assert ([w] + words)[1..] == words;
  }

  /** Joining loses no word: the words of the result are the words of the text. */
  lemma {:induction false} FieldsOfJoin(words: seq<string>)
    requires WordsOk(words)
    ensures Fields(Join(words)) == words
  {
    hide NoSpace;
    if |words| == 1 {
      WholeWord(words[0], "");
      assert words[0] + "" == words[0];
      assert words == [words[0]];
    } else if |words| > 1 {
      var rest := Join(words[1..]);
      FieldsOfJoin(words[1..]);
      var s := words[0] + (" " + rest);
      assert s == Join(words);
      WholeWord(words[0], " " + rest);
      var k := |words[0]|;
      assert s[..k] == words[0] && s[k..] == " " + rest;
      assert (" " + rest)[1..] == rest;
      assert Fields(" " + rest) == Fields(rest);
    }
  }

  /** A word before a space, or at the end, is found whole. */
  lemma {:induction false} WholeWord(w: string, rest: string)
    requires w != "" && NoSpace(w) && (rest == "" || rest[0] == ' ')
    ensures WordLength(w + rest) == |w|
    decreases |w|
  {
    var s := w + rest;
    NothingStraddles(w, rest, 0);
    assert s[0..] == s && w[0..] == w;
    if |w| > 1 {
      assert s[1..] == w[1..] + rest;
      forall i | 0 <= i < |w| - 1 ensures SpacePrefix(w[1..][i..]) == 0 {
        assert w[1..][i..] == w[i + 1..];
      }
      WholeWord(w[1..], rest);
    } else {
      assert s[1..] == rest;
    }
  }

  // -------------------------------------------------------------------- blankness

  lemma {:induction false} TrimRightKeepsSome(s: string)
    requires s != "" && SpacePrefix(s) == 0
    ensures TrimRight(s) != ""
    decreases |s|
  {
    if SpaceSuffix(s) > 0 {
      TrimRightKeepsSome(s[..|s| - SpaceSuffix(s)]);
    }
  }

  lemma {:induction false} FieldsIgnoreLeft(s: string)
    ensures Fields(TrimLeft(s)) == Fields(s)
    ensures TrimLeft(s) == "" <==> Fields(s) == []
    decreases |s|
  {
    if SpacePrefix(s) > 0 {
      FieldsIgnoreLeft(s[SpacePrefix(s)..]);
    }
  }

  /** Text is blank exactly when it has no words. */
  lemma {:induction false} BlankHasNoWords(s: string)
    ensures Blank(s) <==> Fields(s) == []
  {
    hide Fields, TrimLeft;
    FieldsIgnoreLeft(s);
    if TrimLeft(s) != "" {
      TrimRightKeepsSome(TrimLeft(s));
    }
  }

  // --------------------------------------------------------------------- limiting

  /** The text before it is cut: its own words, one space between each two. */
  lemma {:induction false} CollapsedIs(text: string)
    ensures var t := TrimSpace(Join(Fields(text)));
            && t == Join(Fields(text)) && SingleSpaced(t) && Fields(t) == Fields(text)
            && (t == "" <==> Blank(text))
  {
    hide Fields, Join, TrimSpace, SingleSpaced, WordsOk;
    FieldsAreOk(text);
    JoinIsSingleSpaced(Fields(text));
    SingleSpacedIsTrimmed(Join(Fields(text)));
    TrimmedIsKept(Join(Fields(text)));
    FieldsOfJoin(Fields(text));
    BlankHasNoWords(text);
    NoWordsJoinToNothing(Fields(text));
  }

  lemma TrimmedIsKept(s: string)
    requires Trimmed(s)
    ensures TrimSpace(s) == s
  {
  }

  lemma NoWordsJoinToNothing(words: seq<string>)
    ensures words == [] ==> Join(words) == ""
  {
  }

  /** Cutting single-spaced text and adding dots leaves it single-spaced. */
  lemma {:induction false} CutIsSingleSpaced(t: string, k: nat)
    requires SingleSpaced(t) && 0 < k <= |t|
    ensures SingleSpaced(t[..k] + DOTS)
  {
    var s := t[..k] + DOTS;
    forall i | k <= i < |s| ensures SpacePrefix(s[i..]) == 0 {
      assert s[i] == '.';
    }
    forall i | 0 <= i < k && SpacePrefix(s[i..]) > 0
      ensures s[i] == ' ' && 0 < i < |s| - 1 && SpacePrefix(s[i + 1..]) == 0
    {
      NothingStraddles(t[..k], DOTS, i);
      CutStartsNoSpace(t, k, i);
      if i + 1 < k {
        NothingStraddles(t[..k], DOTS, i + 1);
        CutStartsNoSpace(t, k, i + 1);
      }
    }
  }

  lemma CutStartsNoSpace(t: string, k: nat, i: nat)
    requires i < k <= |t|
    ensures SpacePrefix(t[..k][i..]) > 0 ==> SpacePrefix(t[i..]) == SpacePrefix(t[..k][i..])
  {
    assert t[..k][i..] == t[i..][..k - i];
  }

  /** Single-spaced text that fits is left alone. */
  lemma {:induction false} FittingIsKept(s: string, max: int)
    requires SingleSpaced(s) && (max <= 0 || |s| <= max)
    ensures LimitText(s, max) == s
  {
    hide Fields, Join, TrimSpace, SingleSpaced;
    JoinOfFields(s);
    SingleSpacedIsTrimmed(s);
    TrimmedIsKept(s);
  }

  /** A limit of zero or less means no limit. Limited text is single-spaced, fits, and is empty only for blank text. */
  lemma {:induction false} LimitedIsSingleSpaced(text: string, max: int)
    requires max <= 0 || max > 3
    ensures var r := LimitText(text, max);
            && SingleSpaced(r) && (max > 0 ==> |r| <= max)
            && (r == "" <==> Blank(text))
  {
    hide Fields, Join, TrimSpace, SingleSpaced;
    CollapsedIs(text);
    var t := TrimSpace(Join(Fields(text)));
    if max > 3 && |t| > max {
      CutIsSingleSpaced(t, max - 3);
    }
  }

  /** What is kept of text too long for its limit: its words up to a byte position, then dots. */
  lemma {:induction false} LimitedKeepsTheFront(text: string, max: int)
    requires max > 3
    ensures var whole := Join(Fields(text));
            LimitText(text, max) == if |whole| <= max then whole else whole[..max - 3] + "..."
  {
    hide Fields, Join, TrimSpace;
    CollapsedIs(text);
  }

  lemma {:induction false} LimitedIsStable(text: string, max: int)
    requires max <= 0 || max > 3
    ensures LimitText(LimitText(text, max), max) == LimitText(text, max)
  {
    hide LimitText, SingleSpaced;
    LimitedIsSingleSpaced(text, max);
    FittingIsKept(LimitText(text, max), max);
  }

  /** A single byte cut off trimmed text is no space, so it is kept. */
  lemma {:induction false} OneByteIsStable(text: string)
    ensures LimitText(LimitText(text, 1), 1) == LimitText(text, 1)
  {
    hide Fields, Join, TrimSpace;
    CollapsedIs(text);
    var t := TrimSpace(Join(Fields(text)));
    if |t| > 1 {
      StartsWithWord(t);
      PrefixHasNoMore(t, 1);
      ByteIsSingleSpaced(t[..1]);
    }
    FittingIsKept(LimitText(text, 1), 1);
  }

  lemma ByteIsSingleSpaced(s: string)
    requires |s| == 1 && SpacePrefix(s) == 0
    ensures SingleSpaced(s)
  {
    assert s[0..] == s;
  }

  predicate Stable(max: int, text: string) {
    LimitText(LimitText(text, max), max) == LimitText(text, max)
  }

  /** Text one byte longer than a limit of two or three, with its space where the cut falls. */
  lemma {:induction false} ShortLimitsAreUnstable(max: int) returns (text: string)
    requires max == 2 || max == 3
    ensures !Stable(max, text)
  {
    var word := if max == 2 then "a" else "ab";
    text := word + " " + "c";
    PairIsKept(word, "c");
    var cut := LimitText(text, max);
    assert cut == word + " ";
    TrailingSpaceGoes(word);
  }

  lemma {:induction false} PairIsKept(a: string, b: string)
    requires a != "" && b != "" && NoSpace(a) && NoSpace(b)
    ensures TrimSpace(Join(Fields(a + " " + b))) == a + " " + b
  {
    hide Fields, Join, TrimSpace, NoSpace;
    CollapsedIs(a + " " + b);
    WordIsSingleSpaced(b);
    ConsSingleSpaced(a, b);
    JoinOfFields(a + " " + b);
  }

  lemma {:induction false} TrailingSpaceGoes(word: string)
    requires word != "" && NoSpace(word)
    ensures TrimSpace(Join(Fields(word + " "))) == word
  {
    var s := word + " ";
    WholeWord(word, " ");
    assert s[..|word|] == word && s[|word|..] == " ";
    assert Fields(" ") == Fields(" "[1..]) == [];
    assert Fields(s) == [word];
    WordIsSingleSpaced(word);
    SingleSpacedIsTrimmed(word);
  }

  /** Limiting twice changes nothing, for every text, exactly for limits other than two and three. */
  lemma {:induction false} StableLimits(max: int)
    ensures (forall text :: Stable(max, text)) <==> max != 2 && max != 3
  {
    hide LimitText;
    if max == 2 || max == 3 {
      var text := ShortLimitsAreUnstable(max);
    } else {
      forall text ensures Stable(max, text) {
        if max == 1 {
          OneByteIsStable(text);
        } else {
          LimitedIsStable(text, max);
        }
      }
    }
  }
}
