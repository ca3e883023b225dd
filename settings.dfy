/**
 * The plugin's options as the host's option store holds them, the defaults
 * each read falls back to, and the validator run on the display location
 * when the settings form is saved.
 */
module Settings {
  import opened Php

  /** The host's option store: option name to stored (string) value. */
  type Options = map<string, string>

  /** `get_option(key, default)`: the stored value, or the default when none is stored. */
  function GetOption(opts: Options, key: string, default: string): (r: string)
    ensures key in opts ==> r == opts[key]
    ensures key !in opts ==> r == default
  {
    if key in opts then opts[key] else default
  }

  /**
   * The option values one render reads. Flags keep PHP's string form and are
   * read with Truthy; `location` is "0" for the beginning, "1" for the end.
   */
  datatype Config = Config(
    location: string,
    headline: string,
    wordCount: string,
    charCount: string,
    readTime: string)

  const DefaultLocation := "0"
  const DefaultHeadline := "Post Statistics"
  const DefaultFlag := "1"

  /** The configuration a render sees, each option read with its default. */
  function LoadConfig(opts: Options): (c: Config)
    ensures "wcrt_location" in opts ==> c.location == opts["wcrt_location"]
    ensures "wcrt_location" !in opts ==> c.location == "0"
    ensures "wcrt_headline" in opts ==> c.headline == opts["wcrt_headline"]
    ensures "wcrt_headline" !in opts ==> c.headline == "Post Statistics"
    ensures "wcrt_wordcount" in opts ==> c.wordCount == opts["wcrt_wordcount"]
    ensures "wcrt_wordcount" !in opts ==> Truthy(c.wordCount)
    ensures "wcrt_charactercount" in opts ==> c.charCount == opts["wcrt_charactercount"]
    ensures "wcrt_charactercount" !in opts ==> Truthy(c.charCount)
    ensures "wcrt_readtime" in opts ==> c.readTime == opts["wcrt_readtime"]
    ensures "wcrt_readtime" !in opts ==> Truthy(c.readTime)
  {
    Config(
      GetOption(opts, "wcrt_location", DefaultLocation),
      GetOption(opts, "wcrt_headline", DefaultHeadline),
      GetOption(opts, "wcrt_wordcount", DefaultFlag),
      GetOption(opts, "wcrt_charactercount", DefaultFlag),
      GetOption(opts, "wcrt_readtime", DefaultFlag))
  }

  /** A notice queued for the settings page with `add_settings_error`. */
  datatype SettingsError = SettingsError(setting: string, code: string, message: string)

  const LocationError := SettingsError(
    "wcrt_location", "wcrt_location_error", "Display location must be either beginning or end.")

  /** What a sanitize callback hands back: the value to store, and the notices it raised. */
  datatype Sanitized = Sanitized(value: string, errors: seq<SettingsError>)

  predicate ValidLocation(s: string) {
    s == "0" || s == "1"
  }

  /**
   * The sanitize callback of `wcrt_location`: "0" and "1" are accepted as they
   * are; anything else raises one notice and keeps the stored value.
   */
  function SanitizeLocation(input: string, stored: string): (r: Sanitized)
    ensures r.errors == [] <==> ValidLocation(input)
    ensures ValidLocation(input) ==> r.value == input
    ensures !ValidLocation(input) ==> r.value == stored && r.errors == [LocationError]
  {
    if input != "0" && input != "1" then Sanitized(stored, [LocationError])
    else Sanitized(input, [])
  }

  /** Submitting an accepted value again, whatever is stored by then, changes nothing. */
  lemma SanitizeLocationIdempotent(input: string, stored: string, later: string)
    requires SanitizeLocation(input, stored).errors == []
    ensures SanitizeLocation(SanitizeLocation(input, stored).value, later) == SanitizeLocation(input, stored)
  {
  }

  /** The stored location after a series of form submissions, each passed through the validator. */
  function SaveLocations(stored: string, inputs: seq<string>): string
    decreases |inputs|
  {
    if inputs == [] then stored
    else SaveLocations(SanitizeLocation(inputs[0], stored).value, inputs[1..])
  }

  /** Once the stored location is "0" or "1", no submission can make it anything else. */
  lemma {:induction false} SaveLocationsStaysValid(stored: string, inputs: seq<string>)
    requires ValidLocation(stored)
    ensures ValidLocation(SaveLocations(stored, inputs))
    decreases |inputs|
  {
    if inputs != [] {
      SaveLocationsStaysValid(SanitizeLocation(inputs[0], stored).value, inputs[1..]);
    }
  }
}
