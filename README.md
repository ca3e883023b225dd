# Word Count And Read Time — a Dafny model

The Word Count And Read Time WordPress plugin adds a short statistics block
to a blog post: a headline, then "This post has N words.", "This post has N
characters." and "This post will take about N minute to read.", each shown
only when its option is on. The block goes before the post body or after it,
as the location option says. It is added only when a single post is rendered
by the main query and at least one statistic is on. Otherwise the body passes
through untouched. The settings page validates the location option: it
accepts "0" (beginning) and "1" (end). Any other value raises an admin
notice, and the stored value is kept.

This project models that content filter and that validator as Dafny
functions over explicit inputs, and proves what they promise.

- The host's option store is a `map<string, string>`. `Settings.LoadConfig`
  reads it with the same inline defaults as the plugin: location "0",
  headline "Post Statistics", and "1" for each flag. Flags keep their PHP
  string form and are read with PHP truthiness: only "" and "0" are false.
- `is_main_query() && is_single()` is one boolean parameter, `isSingleMain`.
- `strip_tags`, `str_word_count` and `esc_html` are host library functions.
  Each gets an explicit definition (module `Markup` and module `Words`), and
  the properties are stated relative to those definitions:
  - strip: outside a tag, a `<` followed by whitespace is kept as text, any
    other `<` starts a tag that runs to the next `>` (an unclosed one deletes
    the rest of the text), and a NUL character is dropped.
  - word: as PHP's `str_word_count` scans in the C locale. Words are the
    maximal runs of ASCII letters, `'` and `-`. One `'` or `-` at the very
    start of the text is skipped and one `-` at its very end is dropped, so
    "a - b" is three words.
  - escape: `& < > " '` become `&amp; &lt; &gt; &quot; &#039;`.
- The float expression `round(w / 225)` is the exact integer
  `(2w + 225) / 450`. Because 225 is odd, `w / 225` never lies halfway between
  two integers (`ReadTime.NeverHalfway`), so PHP's rounding of ties never
  comes into play.
- Each `char` of a post body stands for one byte, so the length of a string
  is PHP's `strlen`.
- `createHTML` builds its block by successive appends, so it is the method
  `Plugin.CreateHtml`. That method follows the source's branches, including
  the literal "1 minute" below two rounded minutes. It is proved equal to the
  specification function `Plugin.Wrapped`, which is built from the ordered
  list of shown lines (`Plugin.Shown`). `ifWrap` and `sanitizeLocation` are
  pure conditionals, so they are functions.

Three behaviours of the code worth knowing:

- Words are counted by `str_word_count`'s rule, not as whitespace-separated
  tokens.
- The read-time sentence always says "minute", never "minutes".
- The location is the string "0" or "1".

Modules: `Php` (truthiness, integer to text), `Markup`, `Words`, `ReadTime`,
`Settings`, `Plugin` (the filter), and `Scenarios` (worked examples).

## Model

| member | source | states |
|---|---|---|
| Php.Truthy | word-count-read-time.php:29 | an option string is false when empty, true when longer than one character, and a single character is true unless it is "0" |
| Php.NatToString | word-count-read-time.php:44-55 | a count is printed as at least one decimal digit with no leading zero |
| Php.DecimalRoundTrip | word-count-read-time.php:44-55 | reading the printed digits back gives the count, so the text shown is the number computed |
| Php.NatToStringInjective | word-count-read-time.php:44-55 | different counts are printed as different texts |
| Markup.StripTags | word-count-read-time.php:40 | the stripped text has no NUL and every `<` left in it is followed by whitespace; it is no longer than the input, and a first character other than `<` or NUL is kept |
| Markup.StripTagsOfPlainText | word-count-read-time.php:40 | text with no NUL, whose every `<` is followed by whitespace, is returned unchanged |
| Markup.StripTagsIdempotent | word-count-read-time.php:48 | stripping twice gives the same text as stripping once |
| Markup.StripTagsKeepsPlainPrefix | word-count-read-time.php:40 | text before the first `<` (and without NUL) is kept verbatim in front of the rest, stripped |
| Markup.StripTagsDropsTag | word-count-read-time.php:40 | a complete tag `<t>`, with no whitespace right after the `<`, in front of a text is removed and nothing else is |
| Markup.StripTagsDropsUnclosedTag | word-count-read-time.php:40 | a `<` not followed by whitespace and never closed removes everything after it |
| Markup.EscHtml | word-count-read-time.php:36 | the escaped headline contains no `<`, `>`, `"` or `'`, so it cannot open a tag inside the `<h3>` |
| Markup.EscHtmlOfPlainText | word-count-read-time.php:36 | a headline without special characters, such as the default, is shown as it is |
| Markup.UnescapeEscHtml | word-count-read-time.php:36 | escaping loses nothing: decoding the escaped headline gives back the headline |
| Words.WordCount | word-count-read-time.php:40 | a text of n characters holds at most (n + 1) / 2 words |
| Words.WordCountZero | word-count-read-time.php:40 | the word count is zero if and only if no letter, `'` or `-` is left once a leading `'`/`-` and a trailing `-` are set aside |
| Words.WordCountOfLetter | word-count-read-time.php:40 | a text with a letter has at least one word |
| Words.RunsSplit | word-count-read-time.php:40 | a character that is not a letter, `'` or `-` separates: the runs on both sides are counted apart |
| Words.WordCountSplit | word-count-read-time.php:40 | the count of a text is the sum of the counts on both sides of a separator, unless the left side ends in `-` or the right side begins with `'` or `-` |
| Words.WordCountOfWord | word-count-read-time.php:40 | a letter followed by letters, apostrophes and hyphens counts as one word |
| ReadTime.RoundedMinutes | word-count-read-time.php:52 | the integer result lies strictly within half a minute of w / 225, so it is round(w / 225) |
| ReadTime.NeverHalfway | word-count-read-time.php:52 | no word count is exactly halfway between two whole minutes, so the rounding has no ties |
| ReadTime.RoundedIsNearest | word-count-read-time.php:52 | any whole number within half a minute of w / 225 is RoundedMinutes(w), so the rounding is unique |
| ReadTime.ReadMinutes | word-count-read-time.php:52-55 | the minutes shown are max(1, round(w / 225)) and always at least 1 |
| ReadTime.ReadMinutesIsOne | word-count-read-time.php:52-53 | one minute is shown exactly when the post has at most 337 words, including none |
| ReadTime.ReadMinutesMonotone | word-count-read-time.php:52-55 | more words never give a shorter estimate |
| ReadTime.ReadMinutesOf450 | word-count-read-time.php:55 | 450 words read in 2 minutes |
| Settings.GetOption | word-count-read-time.php:29 | a stored option is read as stored, a missing one as the default given |
| Settings.LoadConfig | word-count-read-time.php:29-61 | each of the five options, when stored, is used as stored; a missing one falls back to "0", "Post Statistics", or a flag that is on |
| Settings.SanitizeLocation | word-count-read-time.php:86-92 | no notice if and only if the input is "0" or "1", and then the input is kept; otherwise exactly the location notice, and the stored value is kept |
| Settings.SanitizeLocationIdempotent | word-count-read-time.php:86-92 | resubmitting an accepted value returns it again with no notice, whatever is stored by then |
| Settings.SaveLocationsStaysValid | word-count-read-time.php:86-92 | once the stored location is "0" or "1", no sequence of submissions can store anything else |
| Plugin.StatsOf | word-count-read-time.php:39-48 | the character count is at most the body's length, and the word count is at most half of it rounded up |
| Plugin.StatsIgnoreMarkup | word-count-read-time.php:40-48 | the statistics of a body equal those of its stripped text: markup never counts |
| Plugin.StatsIgnoreTag | word-count-read-time.php:40-48 | putting a tag in front of a body leaves both counts unchanged (a `<` followed by whitespace opens no tag) |
| Plugin.StatsOfPlainText | word-count-read-time.php:40-48 | for a body with no tag and no NUL, the character count is its length and the words are its own |
| Plugin.ShowsAny | word-count-read-time.php:29 | no statistic is on exactly when each of the three flags is stored as "" or "0" |
| Plugin.Shown | word-count-read-time.php:43-57 | each line is present if and only if its own flag is on; lines appear in the fixed order words, characters, read time; no line at all if and only if every flag is off |
| Plugin.SentencesOfShown | word-count-read-time.php:43-57 | the lines' text is the enabled sentences, concatenated in the fixed order |
| Plugin.Sentence | word-count-read-time.php:44-55 | each line begins with "This post " and ends with ".<br>" |
| Plugin.Heading | word-count-read-time.php:36 | the heading is `<h3>`, then text that opens no tag and decodes back to the headline, then `</h3><p>` |
| Plugin.Fragment | word-count-read-time.php:36-59 | the block begins with `<h3>`, the escaped headline and `</h3><p>`, and ends with `</p>` |
| Plugin.FragmentLayout | word-count-read-time.php:36-59 | the block is the heading, then each enabled sentence in order, then `</p>`, whatever the other flags are |
| Plugin.FragmentIgnoresMarkup | word-count-read-time.php:40-48 | the block for a body equals the block for its stripped text |
| Plugin.FragmentIgnoresLocation | word-count-read-time.php:61-64 | the location option moves the block but never changes its text |
| Plugin.ReadTimeLine | word-count-read-time.php:51-57 | the two branches of the read-time line together give one sentence for max(1, round(w / 225)), always with "minute" in the singular |
| Plugin.Wrapped | word-count-read-time.php:61-64 | at location "0" the block comes first and the body follows unmodified; otherwise the body comes first and the block follows |
| Plugin.CreateHtml | word-count-read-time.php:35-65 | building the block by appends under the option checks yields exactly Wrapped(content, cfg) |
| Plugin.IfWrap | word-count-read-time.php:28-33 | the body is returned exactly unless the render is a single main-query post with a flag on; then the result is the whole `createHTML` output, Wrapped(content, cfg): the block (starting `<h3>`) in front of the body at location "0", the body then the block (ending `</p>`) otherwise |
| Scenarios.SpacedHyphenIsAWord | word-count-read-time.php:40 | "a - b" is three words: a hyphen between spaces counts as a word |
| Scenarios.SpacedLessThanIsText | word-count-read-time.php:40 | "x < 5 ok" survives stripping whole: a `<` before a space opens no tag |
| Scenarios.StatsOfExamplePost | word-count-read-time.php:40-48 | `<p>one two three</p>` has 3 words and 13 characters |
| Scenarios.ExamplePostWithDefaults | word-count-read-time.php:28-65 | with no option stored, that post gets the full three-line block in front of it |
| Scenarios.ExamplePostAtEnd | word-count-read-time.php:61-64 | with location "1", the same block follows the post |
| Scenarios.ExamplePostAllOff | word-count-read-time.php:29 | with every flag off, the post is returned unchanged |
| Scenarios.InvalidLocationSubmitted | word-count-read-time.php:86-92 | submitting "2" keeps the stored "1" and raises the one location notice |
| Scenarios.ReadTimeOf450Words | word-count-read-time.php:55 | 450 words are shown as "about 2 minute to read" |

## Left out

- Hook registration in the constructor, and the global plugin instance (word-count-read-time.php:17-22, 139). This is host plumbing. The filter is called directly as `Plugin.IfWrap`.
- Loading the text domain (word-count-read-time.php:24-26). It is I/O.
- Registration of the settings section, fields and options (word-count-read-time.php:67-84). These are host calls with no logic of their own. Their defaults appear in `Settings.LoadConfig`. The `sanitize_text_field` callbacks of the headline and the flags are host functions and are not modelled.
- The admin page and its form and input rendering (word-count-read-time.php:94-136). This is output through `echo`, `checked` and `selected`.
- `is_main_query` and `is_single`: their combined result is the parameter `isSingleMain`.
- The host's option storage is not modelled. `get_option` is a lookup in a map, and the value stored by a sanitize callback is the validator's result.
- Markup.StripTags: what `strip_tags` does inside a tag is simplified to "skip to the next `>`". PHP also ignores a `>` inside a quoted attribute value (`<a title="x>y">` ends at the last `>`, the model at the first), counts nesting depth for a `<` inside a tag (`<a <b> c>d` leaves "d" in PHP and " c>d" in the model), and treats comments, `<!DOCTYPE` and `<?php` blocks specially.
- Words.WordCount: the locale dependence of `str_word_count` is not modelled. Only ASCII letters count as letters, as in the C locale, so a byte above 127 separates words.
- Markup.EscHtml: WordPress's `esc_html` does not encode an entity that is already present, and it checks for invalid UTF-8. The model does neither.
- Php.NatToString: the read-time figure comes from `round`, a float, and PHP (with the default precision of 14) prints a float of 1e14 or more in exponent form, such as `1.0E+14`. Counts that large (about 2.25×10^16 words or more) are out of scope, and the model prints every count in plain decimal.
- Settings.SanitizeLocation: PHP's loose `!=` treats numeric strings such as "00" or "1.0" as equal to "0" or "1". The model accepts only the exact strings "0" and "1".
- Plugin.AtBeginning: for the same reason, the location test at word-count-read-time.php:61 is modelled as strict equality with "0".
- Plugin.CreateHtml: when neither the word count nor the read time is on, PHP leaves `$wordCount` unset. It is then never read, and the model gives it 0.
