/** The two interval policies of the repository: the controller's
    `get_frequency_seconds` (reject and restore) and the older
    `set_target_volume` (fall back to five seconds). */
module Interval {
  import opened Options
  import opened Text

  /** The older version's fallback interval, in seconds. */
  const LegacyDefaultSeconds: int := 5

  /** The controller's validation of the interval field: `int()` of the
      stripped text, accepted only when greater than zero
      (FrequencyOfStripped states which texts that accepts). */
  function FrequencyOf(text: string): (r: Option<int>)
    ensures r.Some? ==> r.value > 0
  {
    var v := PyInt(Strip(text));
    if v.Some? && v.value > 0 then v else None
  }

  /** The controller accepts the field exactly when its stripped text is
      a literal of a positive number, and then with that number; any text
      bare `int()` reads as a positive number is accepted with that
      number. */
  lemma FrequencyOfStripped(text: string)
    ensures var r := FrequencyOf(text);
      && (r.Some? ==> ParseDecimal(Strip(text)) == r)
      && (ParseDecimal(Strip(text)).Some? && ParseDecimal(Strip(text)).value > 0 ==>
            r == ParseDecimal(Strip(text)))
      && (PyInt(text).Some? && PyInt(text).value > 0 ==> r == PyInt(text))
  {
    PyIntAfterStrip(text);
    PyIntOfStripped(text);
  }

  /** Whether the older version's `int()` of the raw field text succeeds
      with a positive number, so that no fallback is taken. Any such text
      the controller accepts too, with the same number. */
  predicate LegacyAccepts(text: string)
    ensures LegacyAccepts(text) ==> FrequencyOf(text) == PyInt(text)
  {
    PyIntAfterStrip(text);
    PyIntOfStripped(text);
    PyInt(text).Some? && PyInt(text).value > 0
  }

  /** The older version's interval: `int()` of the raw field text, and five
      seconds whenever that fails or is not positive. */
  function LegacyInterval(text: string): (r: int)
    ensures r > 0
  {
    if LegacyAccepts(text) then PyInt(text).value else LegacyDefaultSeconds
  }

  /** A positive count of seconds, written the way `str()` writes it and
      padded with any whitespace, is accepted with its own value. */
  lemma FrequencyAcceptsPositive(n: int, pre: string, post: string)
    requires n > 0
    requires AllBlank(StripSpace, pre) && AllBlank(StripSpace, post)
    ensures FrequencyOf(pre + ShowInt(n) + post) == Some(n)
  {
    var s := ShowInt(n);
    ParseDecimalShowInt(n);
    TrimPadded(StripSpace, pre, s, post);
  }

  /** Zero and negative intervals are rejected. */
  lemma FrequencyRejectsNonPositive(n: int, pre: string, post: string)
    requires n <= 0
    requires AllBlank(StripSpace, pre) && AllBlank(StripSpace, post)
    ensures FrequencyOf(pre + ShowInt(n) + post) == None
  {
    var s := ShowInt(n);
    ParseDecimalShowInt(n);
    TrimPadded(StripSpace, pre, s, post);
  }

  /** An empty or all-whitespace field is rejected. */
  lemma FrequencyRejectsBlank(text: string)
    requires AllBlank(StripSpace, text)
    ensures FrequencyOf(text) == None
  {
  }

  /** The text written back into the field after a rejection,
      `str(frequency_seconds)`, is accepted with that same value. */
  lemma ResetTextRevalidates(seconds: int)
    ensures seconds > 0 ==> FrequencyOf(ShowInt(seconds)) == Some(seconds)
  {
    var t := ShowInt(seconds);
    ParseDecimalShowInt(seconds);
    TrimPadded(StripSpace, [], t, []);
    assert [] + t + [] == t;
  }

  /** Where the older version reads an interval the controller accepts the
      same one; where it falls back to five seconds the controller may
      reject or accept. In a field without information separators the two
      accept exactly the same texts. */
  lemma PoliciesAgreeUnlessRejected(text: string)
    ensures LegacyAccepts(text) ==> FrequencyOf(text) == Some(LegacyInterval(text))
    ensures !LegacyAccepts(text) ==> LegacyInterval(text) == LegacyDefaultSeconds
    ensures FrequencyOf(text).None? ==> LegacyInterval(text) == LegacyDefaultSeconds
    ensures NoSeparators(text) ==> (LegacyAccepts(text) <==> FrequencyOf(text).Some?)
  {
    PyIntAfterStrip(text);
    PyIntOfStripped(text);
  }

  /** "7" followed by U+001C: the controller strips the separator and
      accepts seven seconds, while the older version's bare `int()` raises,
      so it falls back to five seconds. */
  lemma SeparatorSplitsPolicies()
    ensures FrequencyOf("7\U{1C}") == Some(7)
    ensures PyInt("7\U{1C}").None? && !LegacyAccepts("7\U{1C}")
    ensures LegacyInterval("7\U{1C}") == LegacyDefaultSeconds
  {
    var text := "7\U{1C}";
    TrimPadded(StripSpace, "", "7", "\U{1C}");
    assert "" + "7" + "\U{1C}" == text;
    assert ParseDecimal("7") == Some(7);
    assert TrimStart(IntSpace, text) == text;
    assert TrimEnd(IntSpace, text) == text;
    assert !AllDigits(text);
  }
}
