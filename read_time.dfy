/**
 * The read-time estimate: `round(words / 225)` minutes, shown as 1 whenever
 * the rounded figure is below 2. PHP computes it with a float division; here
 * it is the exact integer expression with the same value.
 */
module ReadTime {

  /** Reading speed, in words per minute. */
  const WordsPerMinute: nat := 225

  /**
   * `round(w / 225)`. Since 225 is odd, `w / 225` is never halfway between two
   * integers, so the nearest integer is unique and PHP's tie rule never applies.
   */
  function RoundedMinutes(w: nat): (r: nat)
    ensures -(WordsPerMinute as int) < 2 * w - 2 * WordsPerMinute * r < WordsPerMinute
  {
    HalfMinuteRemainder(w);
    (2 * w + WordsPerMinute) / (2 * WordsPerMinute)
  }

  /** The remainder of `2w + 225` by 450 is never 0, since `2w + 225` is odd. */
  lemma HalfMinuteRemainder(w: nat)
    ensures var n := 2 * w + WordsPerMinute;
      n == 450 * (n / 450) + n % 450 && 0 < n % 450 < 450
  {
  }

  /** No word count lies exactly halfway between two whole minutes. */
  lemma NeverHalfway(w: nat, k: nat)
    ensures 2 * w != WordsPerMinute * (2 * k + 1)
  {
    var odd := WordsPerMinute * (2 * k + 1);
    assert odd == 2 * (WordsPerMinute * k + 112) + 1;
  }

  /** RoundedMinutes is the one integer nearer than half a minute to `w / 225`. */
  lemma RoundedIsNearest(w: nat, k: nat)
    requires -(WordsPerMinute as int) < 2 * w - 2 * WordsPerMinute * k < WordsPerMinute
    ensures k == RoundedMinutes(w)
  {
  }

  /** The minutes the post statistics show: `max(1, round(w / 225))`. */
  function ReadMinutes(w: nat): (m: nat)
    ensures m >= 1
    ensures RoundedMinutes(w) >= 1 ==> m == RoundedMinutes(w)
    ensures RoundedMinutes(w) == 0 ==> m == 1
  {
    var rounded := RoundedMinutes(w);
    if rounded < 2 then 1 else rounded
  }

  /** One minute is shown for up to 337 words, including none at all. */
  lemma ReadMinutesIsOne(w: nat)
    ensures ReadMinutes(w) == 1 <==> w <= 337
  {
    if w >= 338 {
      assert RoundedMinutes(w) >= 2;
    }
  }

  /** More words never give a shorter estimate. */
  lemma ReadMinutesMonotone(a: nat, b: nat)
    requires a <= b
    ensures ReadMinutes(a) <= ReadMinutes(b)
  {
  }

  lemma ReadMinutesOf450()
    ensures ReadMinutes(450) == 2
  {
  }
}
