/**
 * Backward lexical scanning over the statement text that precedes the cursor.
 *
 * The completion context answers its word and prefix queries from the text of
 * the statement up to the cursor. It walks that text backwards with two scanners:
 * one over whitespace and one over an identifier, which may have a leading `$`.
 * Both scanners return a position, meaning the number of characters before it.
 * `Start` means "scan the characters before this position".
 */
module TextScan {

  import opened JavaInt

  /** A whitespace character, as Java's `Character.isWhitespace` classifies the ASCII range. */
  predicate IsWhitespace(c: char) {
    c == ' ' || (9 <= c as int <= 13) || (0x1C <= c as int <= 0x1F)
  }

  /** A character that may occur inside an identifier: an ASCII letter or digit, or `_`. */
  predicate IsIdentifierPart(c: char) {
    ('a' <= c <= 'z') || ('A' <= c <= 'Z') || ('0' <= c <= '9') || c == '_'
  }

  predicate AllWhitespace(s: string) {
    forall i :: 0 <= i < |s| ==> IsWhitespace(s[i])
  }

  predicate AllIdentifierParts(s: string) {
    forall i :: 0 <= i < |s| ==> IsIdentifierPart(s[i])
  }

  /**
   * An identifier as the scanner reads it: identifier characters, optionally
   * preceded by one `$`.
   */
  predicate IdentifierShaped(s: string) {
    AllIdentifierParts(s) || (|s| > 0 && s[0] == '$' && AllIdentifierParts(s[1..]))
  }

  /**
   * `readBackwardSpaces(text, start)`. It moves back from `start` while the
   * character before the position is whitespace. A position `start <= 0` is
   * returned unchanged, so `-1` comes back as `-1`.
   */
  function ReadBackwardSpaces(text: string, start: int): (r: int)
    requires start <= |text|
    ensures start <= 0 ==> r == start
    ensures start > 0 ==> 0 <= r <= start
    decreases if start < 0 then 0 else start
  {
    if start <= 0 then start
    else if IsWhitespace(text[start - 1]) then ReadBackwardSpaces(text, start - 1)
    else start
  }

  /** The whitespace scan stops after a maximal run of whitespace. */
  lemma {:induction false} BackwardSpacesRun(text: string, start: int)
    requires 0 < start <= |text|
    ensures var r := ReadBackwardSpaces(text, start);
      AllWhitespace(text[r..start]) && (r == 0 || !IsWhitespace(text[r - 1]))
    decreases start
  {
    if IsWhitespace(text[start - 1]) && start > 1 {
      BackwardSpacesRun(text, start - 1);
      var r := ReadBackwardSpaces(text, start);
      assert text[r..start] == text[r..start - 1] + [text[start - 1]];
    }
  }

  /** The start of the run of identifier characters that ends at `start`. */
  function IdentifierRunStart(text: string, start: int): (r: int)
    requires start <= |text|
    ensures start <= 0 ==> r == start
    ensures start > 0 ==> 0 <= r <= start
    decreases if start < 0 then 0 else start
  {
    if start <= 0 then start
    else if IsIdentifierPart(text[start - 1]) then IdentifierRunStart(text, start - 1)
    else start
  }

  /** The identifier scan stops after a maximal run of identifier characters. */
  lemma {:induction false} IdentifierRun(text: string, start: int)
    requires 0 < start <= |text|
    ensures var r := IdentifierRunStart(text, start);
      AllIdentifierParts(text[r..start]) && (r == 0 || !IsIdentifierPart(text[r - 1]))
    decreases start
  {
    if IsIdentifierPart(text[start - 1]) && start > 1 {
      IdentifierRun(text, start - 1);
      var r := IdentifierRunStart(text, start);
      assert text[r..start] == text[r..start - 1] + [text[start - 1]];
    }
  }

  /**
   * `readIdentifierStartIndex(version, text, start, true)`. It finds the start
   * of the identifier that ends at `start`. The `true` argument means a `$`
   * just before that identifier is included.
   */
  function ReadIdentifierStartIndex(text: string, start: int): (r: int)
    requires start <= |text|
    ensures start <= 0 ==> r == start
    ensures start > 0 ==> 0 <= r <= start
  {
    var run := IdentifierRunStart(text, start);
    if run > 0 && text[run - 1] == '$' then run - 1 else run
  }

  /**
   * The identifier scan reads an identifier with at most one `$` in front.
   * It is maximal: the scan stops at the start of the text, at the `$` it
   * took, or before a character that is neither an identifier character nor `$`.
   */
  lemma {:induction false} IdentifierStartShape(text: string, start: int)
    requires 0 < start <= |text|
    ensures var r := ReadIdentifierStartIndex(text, start);
      IdentifierShaped(text[r..start]) &&
      (r == 0 || (r < start && text[r] == '$') || (!IsIdentifierPart(text[r - 1]) && text[r - 1] != '$'))
  {
    IdentifierRun(text, start);
    var run := IdentifierRunStart(text, start);
    if run > 0 && text[run - 1] == '$' {
      assert text[run - 1..start][1..] == text[run..start];
    }
  }

  /** The run of whitespace before `start` is exactly `text[p..start]`, so the scan stops at `p`. */
  lemma {:induction false} BackwardSpacesStopAt(text: string, start: int, p: int)
    requires 0 <= p <= start <= |text|
    requires AllWhitespace(text[p..start])
    requires p == 0 || !IsWhitespace(text[p - 1])
    ensures ReadBackwardSpaces(text, start) == p
  {
    if start > 0 {
      BackwardSpacesRun(text, start);
    }
  }

  /** The identifier characters before `start` are exactly `text[p..start]`, so the run starts at `p`. */
  lemma {:induction false} IdentifierRunStopsAt(text: string, start: int, p: int)
    requires 0 <= p <= start <= |text|
    requires AllIdentifierParts(text[p..start])
    requires p == 0 || !IsIdentifierPart(text[p - 1])
    ensures IdentifierRunStart(text, start) == p
  {
    if start > 0 {
      IdentifierRun(text, start);
    }
  }

  /** The statement text ends in whitespace: the backward whitespace scan from its end moves. */
  function HasWhitespaceBeforeCursor(text: string): (r: bool)
    ensures r <==> |text| > 0 && IsWhitespace(text[|text| - 1])
  {
    ReadBackwardSpaces(text, |text|) != |text|
  }

  /**
   * `getPrefixWithoutProcessing`. After whitespace it is empty. Otherwise it is
   * the identifier that ends at the cursor, with its `$`.
   */
  function Prefix(text: string): (r: string)
    ensures HasWhitespaceBeforeCursor(text) ==> r == ""
    ensures |r| <= |text| && text[|text| - |r|..] == r
    ensures IdentifierShaped(r)
    ensures |r| < |text| && !HasWhitespaceBeforeCursor(text) ==>
      (|r| > 0 && r[0] == '$') || (!IsIdentifierPart(text[|text| - |r| - 1]) && text[|text| - |r| - 1] != '$')
  {
    if HasWhitespaceBeforeCursor(text) then ""
    else
      var prefixEnd := ReadBackwardSpaces(text, |text|);
      var prefixStart := ReadIdentifierStartIndex(text, prefixEnd);
      if prefixEnd > 0 then
        IdentifierStartShape(text, prefixEnd);
        text[prefixStart..prefixEnd]
      else
        text[prefixStart..prefixEnd]
  }

  /**
   * The word between `wordStart` and `wordEnd`, or `""` when the scan left no
   * word there (`wordStart < 0`, `wordEnd < 0` or `wordStart > wordEnd`).
   */
  function WordBetween(text: string, wordStart: int, wordEnd: int): (r: string)
    requires wordEnd <= |text|
    ensures r == "" || (0 <= wordStart <= wordEnd && r == text[wordStart..wordEnd])
    ensures 0 <= wordStart <= wordEnd ==> r == text[wordStart..wordEnd]
    ensures !(0 <= wordStart <= wordEnd) ==> r == ""
  {
    if wordStart < 0 || wordEnd < 0 || wordStart > wordEnd then "" else text[wordStart..wordEnd]
  }

  /**
   * The end of `getPreviousWord()` and `getPreviousWord(int)`, once the
   * word bounds are found. With whitespace before the cursor, the word found is
   * the answer. Without it, that word is the one being typed. Its start is then
   * stepped back by one and the word before it is read instead.
   */
  function PreviousWordFrom(text: string, wordStart: int, wordEnd: int): (r: string)
    requires wordEnd <= |text|
  {
    if wordStart < 0 || wordEnd < 0 || wordStart > wordEnd then ""
    else if HasWhitespaceBeforeCursor(text) then text[wordStart..wordEnd]
    else
      var wordEnd' := ReadBackwardSpaces(text, wordStart - 1);
      var wordStart' := ReadIdentifierStartIndex(text, wordEnd');
      WordBetween(text, wordStart', wordEnd')
  }

  /** The bounds of the word that ends before the whitespace preceding `start`. */
  function WordBefore(text: string, start: int): (bounds: (int, int))
    requires 0 <= start <= |text|
    ensures 0 <= bounds.0 <= bounds.1 <= start
  {
    var wordEnd := ReadBackwardSpaces(text, start);
    (ReadIdentifierStartIndex(text, wordEnd), wordEnd)
  }

  /** `WordBefore` finds an identifier followed by nothing but whitespace up to `start`. */
  lemma {:induction false} WordBeforeShape(text: string, start: int)
    requires 0 <= start <= |text|
    ensures var bounds := WordBefore(text, start);
      AllWhitespace(text[bounds.1..start]) && IdentifierShaped(text[bounds.0..bounds.1])
  {
    var wordEnd := ReadBackwardSpaces(text, start);
    if start > 0 {
      BackwardSpacesRun(text, start);
    }
    if wordEnd > 0 {
      IdentifierStartShape(text, wordEnd);
    }
  }

  /** `getPreviousWord()`. */
  function PreviousWord(text: string): (r: string)
    ensures r == "" || exists i, j :: 0 <= i <= j <= |text| && r == text[i..j] && IdentifierShaped(r)
  {
    var bounds := WordBefore(text, |text|);
    WordBeforeShape(text, |text|);
    PreviousWordShaped(text, bounds.0, bounds.1);
    PreviousWordFrom(text, bounds.0, bounds.1)
  }

  /** A word read by `PreviousWordFrom` from scanner bounds is a slice of the text shaped like an identifier. */
  lemma {:induction false} PreviousWordShaped(text: string, wordStart: int, wordEnd: int)
    requires 0 <= wordStart <= wordEnd <= |text| && IdentifierShaped(text[wordStart..wordEnd])
    ensures var r := PreviousWordFrom(text, wordStart, wordEnd);
      r == "" || exists i, j :: 0 <= i <= j <= |text| && r == text[i..j] && IdentifierShaped(r)
  {
    var r := PreviousWordFrom(text, wordStart, wordEnd);
    if r != "" {
      if HasWhitespaceBeforeCursor(text) {
        assert r == text[wordStart..wordEnd];
      } else {
        var wordEnd' := ReadBackwardSpaces(text, wordStart - 1);
        var wordStart' := ReadIdentifierStartIndex(text, wordEnd');
        IdentifierStartShape(text, wordEnd');
        assert r == text[wordStart'..wordEnd'];
      }
    }
  }

  /** The word bounds after the loop of `getPreviousWord(times)` has stepped back `steps` more words. */
  function WordBoundsAfter(text: string, steps: nat): (bounds: (int, int))
    ensures 0 <= bounds.0 <= bounds.1 <= |text|
  {
    if steps == 0 then WordBefore(text, |text|)
    else WordBefore(text, WordBoundsAfter(text, steps - 1).0)
  }

  /** The answer of `getPreviousWord` once the loop has stepped back `steps` more words. */
  function PreviousWordAfter(text: string, steps: nat): string {
    var bounds := WordBoundsAfter(text, steps);
    PreviousWordFrom(text, bounds.0, bounds.1)
  }

  /**
   * How many times the loop of `getPreviousWord(times)` runs: its bound is the
   * Java `int` `times - 1`, which wraps to the largest `int` when `times` is
   * the smallest one.
   */
  function ExtraSteps(times: Int32): (steps: nat)
    ensures MinInt32 < times ==> steps == if times <= 1 then 0 else times - 1
    ensures times == MinInt32 ==> steps == MaxInt32
  {
    var bound := AddInt32(times, -1);
    if bound <= 0 then 0 else bound
  }

  /**
   * `getPreviousWord(times)`. It reads the last word, then `times - 1` times
   * restarts the scan at the start of the word just found. After that it ends
   * as `getPreviousWord()` does.
   */
  method PreviousWordTimes(text: string, times: Int32) returns (r: string)
    ensures r == PreviousWordAfter(text, ExtraSteps(times))
  {
    var statementLength := |text|;
    var wordEnd := ReadBackwardSpaces(text, statementLength);
    var wordStart := ReadIdentifierStartIndex(text, wordEnd);
    assert (wordStart, wordEnd) == WordBoundsAfter(text, 0);
    // Java evaluates `times - 1` on each test; it does not change in the loop.
    var bound := AddInt32(times, -1);
    assert ExtraSteps(times) == if bound <= 0 then 0 else bound;
    var i := 0;
    while i < bound
      invariant 0 <= i <= ExtraSteps(times)
      invariant (wordStart, wordEnd) == WordBoundsAfter(text, i)
    {
      statementLength := wordStart;
      wordEnd := ReadBackwardSpaces(text, statementLength);
      wordStart := ReadIdentifierStartIndex(text, wordEnd);
      assert (wordStart, wordEnd) == WordBefore(text, statementLength);
      i := i + 1;
    }
    assert i == ExtraSteps(times);
    r := PreviousWordFrom(text, wordStart, wordEnd);
  }

  /**
   * `getPreviousWord(times)` with `MinInt32 < times <= 1` runs no loop step and
   * answers as `getPreviousWord()` does.
   */
  lemma {:induction false} PreviousWordTimesOne(text: string, times: Int32)
    requires MinInt32 < times <= 1
    ensures PreviousWordAfter(text, ExtraSteps(times)) == PreviousWord(text)
  {
  }

  /** Once the word bounds reach the start of the text, every further loop step leaves them at `(0, 0)`. */
  lemma {:induction false} BoundsStayAtStart(text: string, k0: nat, k: nat)
    requires k0 < k && WordBoundsAfter(text, k0).0 == 0
    ensures WordBoundsAfter(text, k) == (0, 0)
    decreases k
  {
    if k > k0 + 1 {
      BoundsStayAtStart(text, k0, k - 1);
    }
  }

  /**
   * `getPreviousWord(Integer.MIN_VALUE)`: the wrapped bound makes the loop step
   * back the largest `int` number of words, so on two words followed by
   * whitespace it answers "" where `getPreviousWord(2)` answers the first word.
   */
  lemma {:induction false} PreviousWordTimesWraps(first: string, sp1: string, second: string, sp2: string)
    requires AllIdentifierParts(first) && |first| > 0
    requires AllWhitespace(sp1) && |sp1| > 0
    requires AllIdentifierParts(second) && |second| > 0
    requires AllWhitespace(sp2) && |sp2| > 0
    ensures PreviousWordAfter(first + sp1 + second + sp2, 1) == first
    ensures PreviousWordAfter(first + sp1 + second + sp2, ExtraSteps(MinInt32)) == ""
  {
    var text := first + sp1 + second + sp2;
    assert [] + first + sp1 + second + sp2 == text;
    SecondPreviousWord([], first, sp1, second, sp2);
    BoundsStayAtStart(text, 1, ExtraSteps(MinInt32));
    assert text[|text| - 1] == sp2[|sp2| - 1];
  }

  /** The scanners read a word `w` back from the end of `head + w`, when `head` does not continue it. */
  lemma {:induction false} WordRead(head: string, w: string)
    requires AllIdentifierParts(w)
    requires head == [] || (!IsIdentifierPart(head[|head| - 1]) && head[|head| - 1] != '$')
    ensures ReadIdentifierStartIndex(head + w, |head + w|) == |head|
  {
    var text := head + w;
    assert text[|head|..|text|] == w;
    if |head| > 0 {
      assert text[|head| - 1] == head[|head| - 1];
    }
    IdentifierRunStopsAt(text, |text|, |head|);
  }

  /** The whitespace scan skips exactly the run `sp` at the end of `head + sp`, when `head` does not end in whitespace. */
  lemma {:induction false} SpacesRead(head: string, sp: string)
    requires AllWhitespace(sp)
    requires head == [] || !IsWhitespace(head[|head| - 1])
    ensures ReadBackwardSpaces(head + sp, |head + sp|) == |head|
  {
    var text := head + sp;
    assert text[|head|..|text|] == sp;
    if |head| > 0 {
      assert text[|head| - 1] == head[|head| - 1];
    }
    BackwardSpacesStopAt(text, |text|, |head|);
  }

  /**
   * With whitespace before the cursor, `getPreviousWord()` returns the word
   * just before that whitespace.
   */
  lemma {:induction false} PreviousWordAfterSpace(head: string, word: string, sp: string)
    requires AllIdentifierParts(word) && |word| > 0
    requires head == [] || (!IsIdentifierPart(head[|head| - 1]) && head[|head| - 1] != '$')
    requires AllWhitespace(sp) && |sp| > 0
    ensures PreviousWord(head + word + sp) == word
  {
    var text := head + word + sp;
    SpacesRead(head + word, sp);
    assert (head + word)[|head + word| - 1] == word[|word| - 1];
    assert text[..|head + word|] == head + word;
    WordRead(head, word);
    var wordEnd := |head + word|;
    assert ReadIdentifierStartIndex(text, wordEnd) == ReadIdentifierStartIndex(head + word, wordEnd) by {
      ScanPrefixOnly(head + word, sp);
    }
    assert text[|text| - 1] == sp[|sp| - 1];
    assert text[|head|..wordEnd] == word;
  }

  /** The identifier scan from the end of `t` reads only `t`, whatever follows it. */
  lemma {:induction false} ScanPrefixOnly(t: string, rest: string)
    ensures ReadIdentifierStartIndex(t + rest, |t|) == ReadIdentifierStartIndex(t, |t|)
  {
    if |t| > 0 {
      IdentifierRun(t, |t|);
      var r := IdentifierRunStart(t, |t|);
      assert (t + rest)[r..|t|] == t[r..|t|];
      if r > 0 {
        assert (t + rest)[r - 1] == t[r - 1];
      }
      IdentifierRunStopsAt(t + rest, |t|, r);
    }
  }

  /** The whitespace scan from the end of `t` reads only `t`, whatever follows it. */
  lemma {:induction false} SpacesPrefixOnly(t: string, rest: string)
    ensures ReadBackwardSpaces(t + rest, |t|) == ReadBackwardSpaces(t, |t|)
  {
    if |t| > 0 {
      BackwardSpacesRun(t, |t|);
      var r := ReadBackwardSpaces(t, |t|);
      assert (t + rest)[r..|t|] == t[r..|t|];
      if r > 0 {
        assert (t + rest)[r - 1] == t[r - 1];
      }
      BackwardSpacesStopAt(t + rest, |t|, r);
    }
  }

  /**
   * Without whitespace before the cursor, `getPreviousWord()` skips the word
   * being typed (`typed`, empty when the cursor follows the separator) and the
   * one separator character before it, and scans on from the end of `before`.
   */
  lemma {:induction false} TypedWordSkipped(before: string, sep: char, typed: string)
    requires !IsIdentifierPart(sep) && sep != '$'
    requires AllIdentifierParts(typed) && (|typed| > 0 || !IsWhitespace(sep))
    ensures var text := before + [sep] + typed;
      var wordEnd := ReadBackwardSpaces(text, |before|);
      PreviousWord(text) == WordBetween(text, ReadIdentifierStartIndex(text, wordEnd), wordEnd)
  {
    var text := before + [sep] + typed;
    if |typed| > 0 {
      assert text[|text| - 1] == typed[|typed| - 1];
    } else {
      assert text[|text| - 1] == sep;
    }
    assert ReadBackwardSpaces(text, |text|) == |text|;
    assert (before + [sep])[|before|] == sep;
    WordRead(before + [sep], typed);
    assert WordBefore(text, |text|) == (|before| + 1, |text|);
  }

  /**
   * Scanning back from the end of `head + word + sp`, whatever follows it,
   * skips the whitespace `sp` and then reads exactly `word`.
   */
  lemma {:induction false} WordBeforeSpacesRead(head: string, word: string, sp: string, rest: string)
    requires AllIdentifierParts(word) && |word| > 0
    requires head == [] || (!IsIdentifierPart(head[|head| - 1]) && head[|head| - 1] != '$')
    requires AllWhitespace(sp)
    ensures var before := head + word + sp;
      var text := before + rest;
      && ReadBackwardSpaces(text, |before|) == |head + word|
      && ReadIdentifierStartIndex(text, |head + word|) == |head|
      && text[|head|..|head + word|] == word
  {
    var hw := head + word;
    var text := hw + sp + rest;
    assert text == (hw + sp) + rest;
    SpacesPrefixOnly(hw + sp, rest);
    assert hw[|hw| - 1] == word[|word| - 1];
    SpacesRead(hw, sp);
    assert text == hw + (sp + rest);
    ScanPrefixOnly(hw, sp + rest);
    WordRead(head, word);
    assert text[|head|..|hw|] == word;
  }

  /**
   * Without whitespace before the cursor, `getPreviousWord()` skips the word
   * being typed (`typed`, possibly empty) and the one separator character
   * before it. Any further whitespace is skipped too, and the word before that
   * is returned.
   */
  lemma {:induction false} PreviousWordSkipsTypedWord(head: string, word: string, sep: char, sp: string, typed: string)
    requires AllIdentifierParts(word) && |word| > 0
    requires head == [] || (!IsIdentifierPart(head[|head| - 1]) && head[|head| - 1] != '$')
    requires AllWhitespace(sp)
    requires !IsIdentifierPart(sep) && sep != '$'
    requires AllIdentifierParts(typed) && (|typed| > 0 || !IsWhitespace(sep))
    ensures PreviousWord(head + word + sp + [sep] + typed) == word
  {
    var before := head + word + sp;
    var text := before + [sep] + typed;
    var wordEnd := |head + word|;
    assert ReadBackwardSpaces(text, |before|) == wordEnd
      && ReadIdentifierStartIndex(text, wordEnd) == |head|
      && text[|head|..wordEnd] == word by {
      assert text == before + ([sep] + typed);
      WordBeforeSpacesRead(head, word, sp, [sep] + typed);
    }
    TypedWordSkipped(before, sep, typed);
  }

  /**
   * With whitespace before the cursor, `getPreviousWord(2)` steps back over
   * the last word and returns the one before it.
   */
  lemma {:induction false} SecondPreviousWord(head: string, first: string, sp1: string, second: string, sp2: string)
    requires AllIdentifierParts(first) && |first| > 0
    requires head == [] || (!IsIdentifierPart(head[|head| - 1]) && head[|head| - 1] != '$')
    requires AllWhitespace(sp1) && |sp1| > 0
    requires AllIdentifierParts(second) && |second| > 0
    requires AllWhitespace(sp2) && |sp2| > 0
    ensures WordBoundsAfter(head + first + sp1 + second + sp2, 1) == (|head|, |head + first|)
    ensures PreviousWordAfter(head + first + sp1 + second + sp2, 1) == first
  {
    var a := head + first;
    var b := a + sp1;
    var c := b + second;
    var text := c + sp2;
    assert text == head + first + sp1 + second + sp2;
    // the last word, `second`
    assert c[|c| - 1] == second[|second| - 1];
    SpacesRead(c, sp2);
    assert b[|b| - 1] == sp1[|sp1| - 1];
    WordRead(b, second);
    ScanPrefixOnly(c, sp2);
    assert WordBoundsAfter(text, 0) == (|b|, |c|);
    // one step back: `first`
    assert a[|a| - 1] == first[|first| - 1];
    SpacesRead(a, sp1);
    assert text == b + (second + sp2);
    SpacesPrefixOnly(b, second + sp2);
    WordRead(head, first);
    assert text == a + (sp1 + second + sp2);
    ScanPrefixOnly(a, sp1 + second + sp2);
    assert WordBoundsAfter(text, 1) == (|head|, |a|);
    assert text[|text| - 1] == sp2[|sp2| - 1];
    assert text[|head|..|a|] == first;
  }

  /** Without whitespace before the cursor, the prefix is the identifier being typed, whole. */
  lemma {:induction false} PrefixIsTypedWord(head: string, typed: string)
    requires AllIdentifierParts(typed) && |typed| > 0
    requires head == [] || (!IsIdentifierPart(head[|head| - 1]) && head[|head| - 1] != '$')
    ensures Prefix(head + typed) == typed
  {
    var text := head + typed;
    assert text[|text| - 1] == typed[|typed| - 1];
    assert ReadBackwardSpaces(text, |text|) == |text|;
    WordRead(head, typed);
    assert text[|head|..|text|] == typed;
  }

  /** Statement text `foo.b` with the cursor after `b`: the prefix is `b`. */
  lemma PrefixExample()
    ensures Prefix("foo.b") == "b"
  {
    PrefixIsTypedWord("foo.", "b");
    assert "foo." + "b" == "foo.b";
  }

  /** Statement text `foo. ` with the cursor after the space: the prefix is empty. */
  lemma PrefixAfterSpaceExample()
    ensures Prefix("foo. ") == ""
  {
  }

  /** Statement text `foo.` with the cursor right after the dot: the previous word is `foo`. */
  lemma PreviousWordAfterSeparatorExample()
    ensures PreviousWord("foo.") == "foo"
  {
    PreviousWordSkipsTypedWord("", "foo", '.', "", "");
    assert "" + "foo" + "" + ['.'] + "" == "foo.";
  }

  /** Statement text `foo bar` with the cursor after `bar`: the previous word is `foo`, not the partial `bar`. */
  lemma PreviousWordExample()
    ensures PreviousWord("foo bar") == "foo"
  {
    PreviousWordSkipsTypedWord("", "foo", ' ', "", "bar");
    assert "" + "foo" + "" == "foo";
    assert "foo" + [' '] + "bar" == "foo bar";
  }
}
