/**
 * The content filter of the Word Count And Read Time plugin: on a single
 * post rendered by the main query, a statistics block (headline, then one
 * sentence per enabled statistic) is put before or after the post body.
 */
module Plugin {
  import opened Php
  import opened Markup
  import opened Words
  import opened ReadTime
  import opened Settings

  /** What is measured of a post: words and bytes of its tag-stripped body. */
  datatype ContentStats = ContentStats(words: nat, characters: nat)

  function StatsOf(content: string): (st: ContentStats)
    ensures st.characters <= |content|
    ensures 2 * st.words <= st.characters + 1
  {
    var text := StripTags(content);
    ContentStats(WordCount(text), |text|)
  }

  /** Both counts are taken of the stripped text, so markup never changes them. */
  lemma StatsIgnoreMarkup(content: string)
    ensures StatsOf(StripTags(content)) == StatsOf(content)
  {
    StripTagsIdempotent(content);
  }

  /** Adding a tag in front of the body leaves the statistics as they were. */
  lemma StatsIgnoreTag(t: string, content: string)
    requires '>' !in t
    requires t == [] || !IsSpace(t[0])
    ensures StatsOf("<" + t + ">" + content) == StatsOf(content)
  {
    StripTagsDropsTag(t, content);
  }

  /** For a body without markup, the character count is its length and the words are its words. */
  lemma StatsOfPlainText(content: string)
    requires Plain(content)
    ensures StatsOf(content) == ContentStats(WordCount(content), |content|)
  {
    StripTagsOfPlainText(content);
  }

  predicate ShowsWords(cfg: Config) {
    Truthy(cfg.wordCount)
  }

  predicate ShowsChars(cfg: Config) {
    Truthy(cfg.charCount)
  }

  predicate ShowsReadTime(cfg: Config) {
    Truthy(cfg.readTime)
  }

  /** Some statistic is on; it is off exactly when every flag is stored as "" or "0". */
  predicate ShowsAny(cfg: Config)
    ensures !ShowsAny(cfg) <==>
      cfg.wordCount in {"", "0"} && cfg.charCount in {"", "0"} && cfg.readTime in {"", "0"}
  {
    ShowsWords(cfg) || ShowsChars(cfg) || ShowsReadTime(cfg)
  }

  /** The location option selects the beginning of the post exactly when it is "0". */
  predicate AtBeginning(cfg: Config) {
    cfg.location == "0"
  }

  /** One line of the statistics block. */
  datatype Statistic = WordTotal(words: nat) | CharTotal(characters: nat) | ReadEstimate(minutes: nat)

  /** The fixed position of each kind of line in the block. */
  function Rank(st: Statistic): nat {
    match st
    case WordTotal(_) => 0
    case CharTotal(_) => 1
    case ReadEstimate(_) => 2
  }

  /** The one-line list when `shown` holds, and no line otherwise. */
  function Optional(shown: bool, st: Statistic): seq<Statistic> {
    if shown then [st] else []
  }

  /** The lines the block shows for a post, in the order they appear. */
  function Shown(cfg: Config, stats: ContentStats): (r: seq<Statistic>)
    ensures WordTotal(stats.words) in r <==> ShowsWords(cfg)
    ensures CharTotal(stats.characters) in r <==> ShowsChars(cfg)
    ensures ReadEstimate(ReadMinutes(stats.words)) in r <==> ShowsReadTime(cfg)
    ensures forall i :: 0 <= i < |r| ==>
      r[i] in [WordTotal(stats.words), CharTotal(stats.characters), ReadEstimate(ReadMinutes(stats.words))]
    ensures forall i, j :: 0 <= i < j < |r| ==> Rank(r[i]) < Rank(r[j])
    ensures r == [] <==> !ShowsAny(cfg)
  {
    Optional(ShowsWords(cfg), WordTotal(stats.words))
    + Optional(ShowsChars(cfg), CharTotal(stats.characters))
    + Optional(ShowsReadTime(cfg), ReadEstimate(ReadMinutes(stats.words)))
  }

  /** The sentence for one line; "minute" is never put in the plural. */
  function Sentence(st: Statistic): (r: string)
    ensures |r| > 15 && r[..10] == "This post " && r[|r| - 5..] == ".<br>"
  {
    match st
    case WordTotal(n) => "This post has " + NatToString(n) + " words.<br>"
    case CharTotal(n) => "This post has " + NatToString(n) + " characters.<br>"
    case ReadEstimate(m) => "This post will take about " + NatToString(m) + " minute to read.<br>"
  }

  function Sentences(sts: seq<Statistic>): string {
    if sts == [] then "" else Sentence(sts[0]) + Sentences(sts[1..])
  }

  lemma {:induction false} SentencesAppend(a: seq<Statistic>, b: seq<Statistic>)
    ensures Sentences(a + b) == Sentences(a) + Sentences(b)
  {
    if a != [] {
      assert (a + b)[0] == a[0] && (a + b)[1..] == a[1..] + b;
      SentencesAppend(a[1..], b);
    } else {
      assert a + b == b;
    }
  }

  lemma SentencesOptional(shown: bool, st: Statistic)
    ensures Sentences(Optional(shown, st)) == if shown then Sentence(st) else ""
  {
  }

  /**
   * The opening of the block: the escaped headline as an `<h3>`, then the
   * paragraph that holds the lines. The text between the tags opens no tag
   * of its own and decodes back to the headline.
   */
  function Heading(headline: string): (h: string)
    ensures |h| >= 12 && h[..4] == "<h3>" && h[|h| - 8..] == "</h3><p>"
    ensures '<' !in h[4..|h| - 8]
    ensures Unescape(h[4..|h| - 8]) == headline
  {
    var h := "<h3>" + EscHtml(headline) + "</h3><p>";
    assert h[4..|h| - 8] == EscHtml(headline);
    UnescapeEscHtml(headline);
    h
  }

  const Closing := "</p>"

  /** The statistics block for a post. */
  function Fragment(cfg: Config, content: string): (f: string)
    ensures |f| >= |Heading(cfg.headline)| + |Closing|
    ensures f[..|Heading(cfg.headline)|] == Heading(cfg.headline)
    ensures f[|f| - |Closing|..] == Closing
  {
    var heading, body := Heading(cfg.headline), Sentences(Shown(cfg, StatsOf(content)));
    var f := heading + body + Closing;
    assert f[..|heading|] == heading;
    assert f[|f| - |Closing|..] == Closing;
    f
  }

  /** The sentences of the shown lines: each enabled one, in the fixed order. */
  lemma SentencesOfShown(cfg: Config, st: ContentStats)
    ensures Sentences(Shown(cfg, st)) ==
      (if ShowsWords(cfg) then Sentence(WordTotal(st.words)) else "")
      + (if ShowsChars(cfg) then Sentence(CharTotal(st.characters)) else "")
      + (if ShowsReadTime(cfg) then Sentence(ReadEstimate(ReadMinutes(st.words))) else "")
  {
    var w := Optional(ShowsWords(cfg), WordTotal(st.words));
    var c := Optional(ShowsChars(cfg), CharTotal(st.characters));
    var t := Optional(ShowsReadTime(cfg), ReadEstimate(ReadMinutes(st.words)));
    SentencesAppend(w + c, t);
    SentencesAppend(w, c);
    SentencesOptional(ShowsWords(cfg), WordTotal(st.words));
    SentencesOptional(ShowsChars(cfg), CharTotal(st.characters));
    SentencesOptional(ShowsReadTime(cfg), ReadEstimate(ReadMinutes(st.words)));
  }

  /** The block as text: each enabled sentence present, in the fixed order, whatever the other flags say. */
  lemma FragmentLayout(cfg: Config, content: string)
    ensures var st := StatsOf(content);
      Fragment(cfg, content) ==
        Heading(cfg.headline)
        + ((if ShowsWords(cfg) then Sentence(WordTotal(st.words)) else "")
           + (if ShowsChars(cfg) then Sentence(CharTotal(st.characters)) else "")
           + (if ShowsReadTime(cfg) then Sentence(ReadEstimate(ReadMinutes(st.words))) else ""))
        + Closing
  {
    SentencesOfShown(cfg, StatsOf(content));
  }

  /** The block depends on the body only through its stripped text. */
  lemma FragmentIgnoresMarkup(cfg: Config, content: string)
    ensures Fragment(cfg, StripTags(content)) == Fragment(cfg, content)
  {
    StatsIgnoreMarkup(content);
  }

  /**
   * The read-time line as `createHTML` writes it, with a literal "1" below two
   * rounded minutes and the rounded figure otherwise, is the one sentence for
   * ReadMinutes: at least one minute, and "minute" in the singular throughout.
   */
  lemma ReadTimeLine(w: nat)
    ensures Sentence(ReadEstimate(ReadMinutes(w))) ==
      if RoundedMinutes(w) < 2 then "This post will take about 1 minute to read.<br>"
      else "This post will take about " + NatToString(RoundedMinutes(w)) + " minute to read.<br>"
  {
  }

  /** The location option moves the block but never changes it. */
  lemma FragmentIgnoresLocation(cfg: Config, location: string, content: string)
    ensures Fragment(cfg.(location := location), content) == Fragment(cfg, content)
  {
  }

  /** What `createHTML` returns: the block before the body at location "0", after it otherwise. */
  function Wrapped(content: string, cfg: Config): (r: string)
    ensures |r| == |Fragment(cfg, content)| + |content|
    ensures AtBeginning(cfg) ==>
      r[..|Fragment(cfg, content)|] == Fragment(cfg, content) && r[|Fragment(cfg, content)|..] == content
    ensures !AtBeginning(cfg) ==>
      r[..|content|] == content && r[|content|..] == Fragment(cfg, content)
  {
    var f := Fragment(cfg, content);
    if AtBeginning(cfg) then f + content else content + f
  }

  lemma Regroup(h: string, a: string, b: string, c: string)
    ensures h + a + b + c == h + (a + b + c)
  {
  }

  /**
   * `createHTML`: the block is built by appending to `html` under the option
   * checks, with the read-time line taking the literal "1" below two minutes.
   */
  method CreateHtml(content: string, cfg: Config) returns (out: string)
    ensures out == Wrapped(content, cfg)
  {
    ghost var st := StatsOf(content);
    var html := "<h3>" + EscHtml(cfg.headline) + "</h3><p>";
    assert html == Heading(cfg.headline);

    var wordCount := 0;
    if ShowsWords(cfg) || ShowsReadTime(cfg) {
      wordCount := WordCount(StripTags(content));
    }

    if ShowsWords(cfg) {
      html := html + ("This post has " + NatToString(wordCount) + " words.<br>");
      assert html == Heading(cfg.headline) + Sentence(WordTotal(st.words));
    }
    ghost var words := if ShowsWords(cfg) then Sentence(WordTotal(st.words)) else "";
    assert html == Heading(cfg.headline) + words;

    if ShowsChars(cfg) {
      html := html + ("This post has " + NatToString(|StripTags(content)|) + " characters.<br>");
      assert html == Heading(cfg.headline) + words + Sentence(CharTotal(st.characters));
    }
    ghost var chars := if ShowsChars(cfg) then Sentence(CharTotal(st.characters)) else "";
    assert html == Heading(cfg.headline) + words + chars;

    if ShowsReadTime(cfg) {
      assert wordCount == st.words;
      ReadTimeLine(wordCount);
      if RoundedMinutes(wordCount) < 2 {
        html := html + "This post will take about 1 minute to read.<br>";
      } else {
        html := html + ("This post will take about " + NatToString(RoundedMinutes(wordCount)) + " minute to read.<br>");
      }
    }
    ghost var read := if ShowsReadTime(cfg) then Sentence(ReadEstimate(ReadMinutes(st.words))) else "";
    assert html == Heading(cfg.headline) + words + chars + read;

    Regroup(Heading(cfg.headline), words, chars, read);
    html := html + "</p>";
    FragmentLayout(cfg, content);
    assert html == Fragment(cfg, content);

    if cfg.location == "0" {
      out := html + content;
      assert Wrapped(content, cfg) == html + content;
    } else {
      out := content + html;
      assert Wrapped(content, cfg) == content + html;
    }
  }

  /**
   * `ifWrap`, the content filter: the body is wrapped only on a single post
   * rendered by the main query with at least one statistic enabled; in every
   * other case it is returned exactly as it came.
   */
  function IfWrap(content: string, cfg: Config, isSingleMain: bool): (r: string)
    ensures !(isSingleMain && ShowsAny(cfg)) ==> r == content
    ensures isSingleMain && ShowsAny(cfg) ==> r == Wrapped(content, cfg)
    ensures isSingleMain && ShowsAny(cfg) ==> |r| >= |content| + 16
    ensures isSingleMain && ShowsAny(cfg) && AtBeginning(cfg) ==>
      r[..4] == "<h3>" && r[|r| - |content|..] == content
    ensures isSingleMain && ShowsAny(cfg) && !AtBeginning(cfg) ==>
      r[..|content|] == content && r[|r| - 4..] == "</p>"
  {
    if isSingleMain && ShowsAny(cfg) then Wrapped(content, cfg) else content
  }
}
