/**
 * PHP's `str_word_count` (returning the count, with no extra word characters)
 * under the C locale. The characters words are made of are the ASCII letters,
 * `'` and `-`, and every maximal run of them is one word. Before the scan, one
 * `'` or `-` at the very start of the text is skipped and one `-` at its very
 * end is dropped; nowhere else are `'` and `-` treated apart from letters, so
 * a hyphen standing alone between spaces is a word of its own.
 */
module Words {

  predicate IsLetter(c: char) {
    'a' <= c <= 'z' || 'A' <= c <= 'Z'
  }

  /** A character words are made of. */
  predicate IsWordChar(c: char) {
    IsLetter(c) || c == '\'' || c == '-'
  }

  /** The first character of the text is skipped when it is `'` or `-`. */
  function SkipLead(s: string): string {
    if s != [] && (s[0] == '\'' || s[0] == '-') then s[1..] else s
  }

  /** The last character of the text is dropped when it is `-`. */
  function DropTrail(s: string): string {
    if s != [] && s[|s| - 1] == '-' then s[..|s| - 1] else s
  }

  /**
   * The part of the text the counting loop walks. (For a one-character text
   * the lead is skipped first, so nothing is left to drop.)
   */
  function Scanned(s: string): string {
    DropTrail(SkipLead(s))
  }

  /**
   * The number of maximal runs of word characters that start in `s`; `inRun`
   * says whether the character just before `s` was a word character.
   */
  function RunsFrom(s: string, inRun: bool): nat
  {
    if s == [] then 0
    else if IsWordChar(s[0]) then (if inRun then 0 else 1) + RunsFrom(s[1..], true)
    else RunsFrom(s[1..], false)
  }

  function Runs(s: string): nat {
    RunsFrom(s, false)
  }

  /** Two runs need a separator between them, so a run takes at least two characters but the last. */
  lemma {:induction false} RunsFromBound(s: string, inRun: bool)
    ensures 2 * RunsFrom(s, inRun) <= |s| + (if inRun then 0 else 1)
  {
    if s != [] {
      if IsWordChar(s[0]) {
        RunsFromBound(s[1..], true);
      } else {
        RunsFromBound(s[1..], false);
      }
    }
  }

  /** `str_word_count($s)`: a text of n characters holds at most (n + 1) / 2 words. */
  function WordCount(s: string): (r: nat)
    ensures 2 * r <= |s| + 1
  {
    RunsFromBound(Scanned(s), false);
    Runs(Scanned(s))
  }

  predicate HasWordChar(s: string) {
    exists i :: 0 <= i < |s| && IsWordChar(s[i])
  }

  lemma {:induction false} RunsZero(s: string)
    ensures Runs(s) == 0 <==> !HasWordChar(s)
  {
    if s != [] {
      if IsWordChar(s[0]) {
        assert HasWordChar(s);
      } else {
        RunsZero(s[1..]);
        if HasWordChar(s) {
          var i :| 0 <= i < |s| && IsWordChar(s[i]);
          assert s[1..][i - 1] == s[i];
        }
        if HasWordChar(s[1..]) {
          var i :| 0 <= i < |s| - 1 && IsWordChar(s[1..][i]);
          assert s[i + 1] == s[1..][i];
        }
      }
    }
  }

  /**
   * A text has no word exactly when, once a leading `'` or `-` and a trailing
   * `-` are set aside, no letter, `'` or `-` is left.
   */
  lemma WordCountZero(s: string)
    ensures WordCount(s) == 0 <==> !HasWordChar(Scanned(s))
  {
    RunsZero(Scanned(s));
  }

  predicate HasLetter(s: string) {
    exists i :: 0 <= i < |s| && IsLetter(s[i])
  }

  /** A letter is never set aside, so a text with a letter has at least one word. */
  lemma WordCountOfLetter(s: string)
    requires HasLetter(s)
    ensures WordCount(s) >= 1
  {
    var i :| 0 <= i < |s| && IsLetter(s[i]);
    var p := SkipLead(s);
    var j := if p == s then i else i - 1;
    assert 0 <= j < |p| && p[j] == s[i];
    assert 0 <= j < |Scanned(s)| && Scanned(s)[j] == p[j];
    RunsZero(Scanned(s));
  }

  lemma {:induction false} RunsFromSplit(a: string, sep: char, b: string, inRun: bool)
    requires !IsWordChar(sep)
    ensures RunsFrom(a + [sep] + b, inRun) == RunsFrom(a, inRun) + Runs(b)
  {
    var s := a + [sep] + b;
    if a == [] {
      assert s[0] == sep && s[1..] == b;
    } else {
      assert s[0] == a[0] && s[1..] == a[1..] + [sep] + b;
      RunsFromSplit(a[1..], sep, b, IsWordChar(a[0]));
    }
  }

  /** A character that is not a word character separates: the runs on each side are counted apart. */
  lemma RunsSplit(a: string, sep: char, b: string)
    requires !IsWordChar(sep)
    ensures Runs(a + [sep] + b) == Runs(a) + Runs(b)
  {
    RunsFromSplit(a, sep, b, false);
  }

  lemma SkipLeadSplit(a: string, sep: char, b: string)
    requires !IsWordChar(sep)
    ensures SkipLead(a + [sep] + b) == SkipLead(a) + [sep] + b
  {
    var s := a + [sep] + b;
    if a == [] {
      assert s[0] == sep;
    } else {
      assert s[0] == a[0] && s[1..] == a[1..] + [sep] + b;
    }
  }

  lemma DropTrailSplit(a: string, sep: char, b: string)
    requires !IsWordChar(sep)
    ensures DropTrail(a + [sep] + b) == a + [sep] + DropTrail(b)
  {
    var s := a + [sep] + b;
    if b == [] {
      assert s[|s| - 1] == sep;
    } else {
      assert s[|s| - 1] == b[|b| - 1] && s[..|s| - 1] == a + [sep] + b[..|b| - 1];
    }
  }

  /**
   * A separator splits the count as long as it does not uncover an edge:
   * the words before it do not end in `-` and the words after it do not
   * begin with `'` or `-`, which the whole text would keep but the pieces
   * alone would set aside.
   */
  lemma WordCountSplit(a: string, sep: char, b: string)
    requires !IsWordChar(sep)
    requires a == [] || a[|a| - 1] != '-'
    requires b == [] || (b[0] != '\'' && b[0] != '-')
    ensures WordCount(a + [sep] + b) == WordCount(a) + WordCount(b)
  {
    SkipLeadSplit(a, sep, b);
    DropTrailSplit(SkipLead(a), sep, b);
    RunsSplit(SkipLead(a), sep, DropTrail(b));
    assert SkipLead(a) == [] || SkipLead(a)[|SkipLead(a)| - 1] == a[|a| - 1];
    assert Scanned(a) == SkipLead(a);
    assert Scanned(b) == DropTrail(b);
  }

  lemma {:induction false} RunsFromOneRun(s: string)
    requires forall i :: 0 <= i < |s| ==> IsWordChar(s[i])
    ensures RunsFrom(s, true) == 0
  {
    if s != [] {
      RunsFromOneRun(s[1..]);
    }
  }

  /** A letter followed by letters, apostrophes and hyphens is one word, a trailing hyphen included. */
  lemma WordCountOfWord(s: string)
    requires s != [] && IsLetter(s[0])
    requires forall i :: 0 <= i < |s| ==> IsWordChar(s[i])
    ensures WordCount(s) == 1
  {
    var t := Scanned(s);
    assert t == s || t == s[..|s| - 1];
    assert t != [] && t[0] == s[0];
    RunsFromOneRun(t[1..]);
  }
}
