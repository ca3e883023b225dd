/**
 * The two pieces of HTML handling the plugin delegates to its host: removing
 * tags from the post body before measuring it (PHP's `strip_tags`) and
 * escaping the headline before it is placed inside `<h3>` (`esc_html`).
 * Both are given simplified, explicit definitions here.
 */
module Markup {

  /**
   * The rest of a tag after its opening `<`: everything up to and including
   * the first `>` is dropped. A tag that is never closed swallows the rest
   * of the text.
   */
  function SkipTag(s: string): (r: string)
    ensures |r| <= |s|
    ensures '>' !in s ==> r == []
  {
    if s == [] then []
    else if s[0] == '>' then s[1..]
    else SkipTag(s[1..])
  }

  /** C's `isspace`: space, tab, line feed, vertical tab, form feed, carriage return. */
  predicate IsSpace(c: char) {
    c == ' ' || '\t' <= c <= '\r'
  }

  /**
   * Text that `strip_tags` leaves alone: no NUL character, and every `<` is
   * followed by whitespace, so none of them opens a tag.
   */
  predicate Plain(s: string) {
    s == [] ||
    (s[0] != '\0' && (s[0] == '<' ==> |s| > 1 && IsSpace(s[1])) && Plain(s[1..]))
  }

  /**
   * `strip_tags` outside a tag: a `<` followed by whitespace is kept as text,
   * any other `<` starts a tag that runs to the next `>`, a NUL character is
   * dropped, and every other character is kept in order.
   */
  function StripTags(s: string): (r: string)
    ensures Plain(r)
    ensures |r| <= |s|
    ensures s != [] && s[0] != '<' && s[0] != '\0' ==> r != [] && r[0] == s[0]
    decreases |s|
  {
    if s == [] then []
    else if s[0] == '\0' then StripTags(s[1..])
    else if s[0] == '<' && |s| > 1 && IsSpace(s[1]) then [s[0]] + StripTags(s[1..])
    else if s[0] == '<' then StripTags(SkipTag(s[1..]))
    else [s[0]] + StripTags(s[1..])
  }

  /** Text with no tag and no NUL is kept as it is. */
  lemma {:induction false} StripTagsOfPlainText(s: string)
    requires Plain(s)
    ensures StripTags(s) == s
  {
    if s != [] {
      StripTagsOfPlainText(s[1..]);
    }
  }

  /** Stripping twice removes nothing more than stripping once. */
  lemma StripTagsIdempotent(s: string)
    ensures StripTags(StripTags(s)) == StripTags(s)
  {
    StripTagsOfPlainText(StripTags(s));
  }

  /** Text before the first `<` is kept as it is. */
  lemma {:induction false} StripTagsKeepsPlainPrefix(a: string, b: string)
    requires forall i :: 0 <= i < |a| ==> a[i] != '<' && a[i] != '\0'
    ensures StripTags(a + b) == a + StripTags(b)
  {
    if a != [] {
      assert (a + b)[0] == a[0] && (a + b)[1..] == a[1..] + b;
      assert forall i :: 0 <= i < |a| - 1 ==> a[1..][i] == a[i + 1];
      StripTagsKeepsPlainPrefix(a[1..], b);
      calc {
        StripTags(a + b);
        [a[0]] + StripTags(a[1..] + b);
        [a[0]] + (a[1..] + StripTags(b));
        { assert a == [a[0]] + a[1..]; }
        a + StripTags(b);
      }
    } else {
      assert a + b == b;
    }
  }

  lemma {:induction false} SkipTagThroughClose(t: string, b: string)
    requires '>' !in t
    ensures SkipTag(t + ">" + b) == b
  {
    if t != [] {
      assert (t + ">" + b)[1..] == t[1..] + ">" + b;
      SkipTagThroughClose(t[1..], b);
    }
  }

  /** A complete tag `<t>` in front of the text is removed and nothing else. */
  lemma StripTagsDropsTag(t: string, b: string)
    requires '>' !in t
    requires t == [] || !IsSpace(t[0])
    ensures StripTags("<" + t + ">" + b) == StripTags(b)
  {
    var s := "<" + t + ">" + b;
    assert s[1..] == t + ">" + b;
    assert !IsSpace(s[1]) by { if t == [] { assert s[1] == '>'; } else { assert s[1] == t[0]; } }
    SkipTagThroughClose(t, b);
  }

  /** A `<` that is never closed removes everything after it. */
  lemma StripTagsDropsUnclosedTag(t: string)
    requires '>' !in t
    requires t == [] || !IsSpace(t[0])
    ensures StripTags("<" + t) == []
  {
    var s := "<" + t;
    assert s[1..] == t;
  }

  /** HTML-escaping of one character; characters other than the five specials are kept. */
  function EscapeChar(c: char): string {
    if c == '&' then "&amp;"
    else if c == '<' then "&lt;"
    else if c == '>' then "&gt;"
    else if c == '"' then "&quot;"
    else if c == '\'' then "&#039;"
    else [c]
  }

  predicate IsSpecial(c: char) {
    c == '&' || c == '<' || c == '>' || c == '"' || c == '\''
  }

  /**
   * `esc_html` simplified: each of `& < > " '` is replaced by its entity, so
   * the escaped text can open no tag and close no attribute.
   */
  function EscHtml(s: string): (r: string)
    ensures '<' !in r && '>' !in r && '"' !in r && '\'' !in r
    ensures |r| >= |s|
  {
    if s == [] then [] else EscapeChar(s[0]) + EscHtml(s[1..])
  }

  /** Text without special characters is not changed by escaping. */
  lemma {:induction false} EscHtmlOfPlainText(s: string)
    requires forall c :: c in s ==> !IsSpecial(c)
    ensures EscHtml(s) == s
  {
    if s != [] {
      assert s[0] in s;
      assert forall c :: c in s[1..] ==> c in s;
      EscHtmlOfPlainText(s[1..]);
    }
  }

  /** Decoding of the five entities EscHtml produces: the inverse of escaping. */
  function Unescape(s: string): string
    decreases |s|
  {
    if s == [] then []
    else if |s| >= 5 && s[..5] == "&amp;" then "&" + Unescape(s[5..])
    else if |s| >= 4 && s[..4] == "&lt;" then "<" + Unescape(s[4..])
    else if |s| >= 4 && s[..4] == "&gt;" then ">" + Unescape(s[4..])
    else if |s| >= 6 && s[..6] == "&quot;" then "\"" + Unescape(s[6..])
    else if |s| >= 6 && s[..6] == "&#039;" then "'" + Unescape(s[6..])
    else [s[0]] + Unescape(s[1..])
  }

  lemma UnescapeAmp(rest: string)
    ensures Unescape("&amp;" + rest) == "&" + Unescape(rest)
  {
  }

  lemma UnescapeLt(rest: string)
    ensures Unescape("&lt;" + rest) == "<" + Unescape(rest)
  {
    var s := "&lt;" + rest;
    assert s[..4] == "&lt;" && s[4..] == rest;
    assert s[1] == 'l';
    assert !(|s| >= 5 && s[..5] == "&amp;") by { if |s| >= 5 { assert s[..5][1] == 'l'; } }
  }

  lemma UnescapeGt(rest: string)
    ensures Unescape("&gt;" + rest) == ">" + Unescape(rest)
  {
    var s := "&gt;" + rest;
    assert s[..4] == "&gt;" && s[4..] == rest;
    assert s[1] == 'g';
    assert !(|s| >= 5 && s[..5] == "&amp;") by { if |s| >= 5 { assert s[..5][1] == 'g'; } }
    assert s[..4] != "&lt;" by { assert s[..4][1] == 'g'; }
  }

  lemma UnescapeQuot(rest: string)
    ensures Unescape("&quot;" + rest) == "\"" + Unescape(rest)
  {
    var s := "&quot;" + rest;
    assert s[..6] == "&quot;" && s[6..] == rest;
    assert s[..5][1] == 'q' && s[..4][1] == 'q';
  }

  lemma UnescapeApos(rest: string)
    ensures Unescape("&#039;" + rest) == "'" + Unescape(rest)
  {
    var s := "&#039;" + rest;
    assert s[..6] == "&#039;" && s[6..] == rest;
    assert s[..5][1] == '#' && s[..4][1] == '#' && s[..6][1] == '#';
  }

  /** A character other than `&` starts no entity and is decoded as itself. */
  lemma UnescapeOther(c: char, rest: string)
    requires c != '&'
    ensures Unescape([c] + rest) == [c] + Unescape(rest)
  {
    var s := [c] + rest;
    assert s[0] == c && s[1..] == rest;
    assert |s| >= 4 ==> s[..4][0] == c;
    assert |s| >= 5 ==> s[..5][0] == c;
    assert |s| >= 6 ==> s[..6][0] == c;
  }

  lemma UnescapeEscapeChar(c: char, rest: string)
    ensures Unescape(EscapeChar(c) + rest) == [c] + Unescape(rest)
  {
    if c == '&' {
      UnescapeAmp(rest);
    } else if c == '<' {
      UnescapeLt(rest);
    } else if c == '>' {
      UnescapeGt(rest);
    } else if c == '"' {
      UnescapeQuot(rest);
    } else if c == '\'' {
      UnescapeApos(rest);
    } else {
      UnescapeOther(c, rest);
    }
  }

  /** Escaping loses nothing: decoding the escaped headline gives it back. */
  lemma {:induction false} UnescapeEscHtml(s: string)
    ensures Unescape(EscHtml(s)) == s
  {
    if s != [] {
      UnescapeEscapeChar(s[0], EscHtml(s[1..]));
      UnescapeEscHtml(s[1..]);
    }
  }
}
