/**
 * Concrete renders and saves worked out against the model: the default
 * configuration on a short post, the block placed at the end, and an
 * invalid location submitted on the settings page.
 */
module Scenarios {
  import opened Php
  import opened Markup
  import opened Words
  import opened ReadTime
  import opened Settings
  import opened Plugin

  lemma StripClosingTag()
    ensures StripTags("one two three" + "</p>") == "one two three"
  {
    StripTagsKeepsPlainPrefix("one two three", "</p>");
    assert "</p>" == "<" + "/p" + ">" + "";
    StripTagsDropsTag("/p", "");
  }

  lemma StripExamplePost()
    ensures StripTags("<p>one two three</p>") == "one two three"
  {
    assert "<p>one two three</p>" == "<" + "p" + ">" + ("one two three" + "</p>");
    StripTagsDropsTag("p", "one two three" + "</p>");
    StripClosingTag();
  }

  lemma WordCountTwoThree()
    ensures WordCount("two three") == 2
  {
  }

  lemma WordCountExamplePost()
    ensures WordCount("one two three") == 3
  {
    assert "one two three" == "one" + [' '] + "two three";
    WordCountSplit("one", ' ', "two three");
    WordCountOfWord("one");
    WordCountTwoThree();
  }

  /** A hyphen standing alone between spaces is a word of its own. */
  lemma SpacedHyphenIsAWord()
    ensures WordCount("a - b") == 3
  {
  }

  /** A `<` followed by a space opens no tag: comparison text survives stripping. */
  lemma SpacedLessThanIsText()
    ensures StripTags("x < 5 ok") == "x < 5 ok"
  {
    StripTagsOfPlainText("x < 5 ok");
  }

  /** "<p>one two three</p>": three words, thirteen characters, markup ignored. */
  lemma StatsOfExamplePost()
    ensures StatsOf("<p>one two three</p>") == ContentStats(3, 13)
  {
    StripExamplePost();
    WordCountExamplePost();
  }

  const ExampleBlock :=
    "<h3>" + "Post Statistics" + "</h3><p>"
    + (("This post has " + "3" + " words.<br>")
       + ("This post has " + "13" + " characters.<br>")
       + ("This post will take about " + "1" + " minute to read.<br>"))
    + "</p>"

  lemma ExampleSentences()
    ensures Sentence(WordTotal(3)) == "This post has " + "3" + " words.<br>"
    ensures Sentence(CharTotal(13)) == "This post has " + "13" + " characters.<br>"
    ensures Sentence(ReadEstimate(ReadMinutes(3))) == "This post will take about " + "1" + " minute to read.<br>"
  {
    assert NatToString(13) == "13" by { assert NatToString(1) == "1"; }
    assert NatToString(3) == "3";
    assert ReadMinutes(3) == 1 && NatToString(1) == "1";
  }

  lemma DefaultHeadlineUnescaped()
    ensures EscHtml("Post Statistics") == "Post Statistics"
  {
    EscHtmlOfPlainText("Post Statistics");
  }

  lemma FragmentOfExamplePost()
    ensures Fragment(LoadConfig(map[]), "<p>one two three</p>") == ExampleBlock
  {
    var cfg := LoadConfig(map[]);
    assert ShowsWords(cfg) && ShowsChars(cfg) && ShowsReadTime(cfg);
    StatsOfExamplePost();
    FragmentLayout(cfg, "<p>one two three</p>");
    DefaultHeadlineUnescaped();
    ExampleSentences();
  }

  /** With no option stored, a single post gets the full block in front of its body. */
  lemma ExamplePostWithDefaults()
    ensures IfWrap("<p>one two three</p>", LoadConfig(map[]), true)
      == ExampleBlock + "<p>one two three</p>"
  {
    FragmentOfExamplePost();
  }

  /** With location "1" the same block follows the body. */
  lemma ExamplePostAtEnd()
    ensures IfWrap("<p>one two three</p>", LoadConfig(map["wcrt_location" := "1"]), true)
      == "<p>one two three</p>" + ExampleBlock
  {
    var cfg := LoadConfig(map["wcrt_location" := "1"]);
    assert cfg == LoadConfig(map[]).(location := "1");
    FragmentOfExamplePost();
    FragmentIgnoresLocation(LoadConfig(map[]), "1", "<p>one two three</p>");
  }

  /** With every statistic switched off the body is left alone. */
  lemma ExamplePostAllOff()
    ensures IfWrap("<p>one two three</p>",
      LoadConfig(map["wcrt_wordcount" := "", "wcrt_charactercount" := "", "wcrt_readtime" := "0"]), true)
      == "<p>one two three</p>"
  {
    var cfg := LoadConfig(map["wcrt_wordcount" := "", "wcrt_charactercount" := "", "wcrt_readtime" := "0"]);
    assert cfg.wordCount == "" && cfg.charCount == "" && cfg.readTime == "0";
    assert !ShowsAny(cfg);
  }

  /** Submitting "2" as the location keeps the stored value and raises the one notice. */
  lemma InvalidLocationSubmitted()
    ensures SanitizeLocation("2", "1") == Sanitized("1", [LocationError])
  {
  }

  /** 450 words read in two minutes. */
  lemma ReadTimeOf450Words()
    ensures ReadMinutes(450) == 2 && Sentence(ReadEstimate(ReadMinutes(450)))
      == "This post will take about " + "2" + " minute to read.<br>"
  {
  }
}
