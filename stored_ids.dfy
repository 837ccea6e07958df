/** The text files that hold the persistent message ids: how the bot writes an
    id (`str(id)`) and how it reads one back (`text.strip()`, then `int(...)`). */
module StoredIds {
  import opened BotTypes

  /** Characters Python's `str.isspace` accepts, which `str.strip()` removes. */
  predicate IsPyWhitespace(c: char) {
    c == ' ' || ('\t' <= c <= '\r') || ('\U{1C}' <= c <= '\U{1F}') ||
    c == '\U{85}' || c == '\U{A0}' || c == '\U{1680}' || ('\U{2000}' <= c <= '\U{200A}') ||
    c == '\U{2028}' || c == '\U{2029}' || c == '\U{202F}' || c == '\U{205F}' || c == '\U{3000}'
  }

  /** `s.lstrip()`: drops the longest whitespace prefix. */
  function StripLeading(s: string): (r: string)
    ensures |r| <= |s| && r == s[|s| - |r|..]
    ensures forall k :: 0 <= k < |s| - |r| ==> IsPyWhitespace(s[k])
    ensures r == [] || !IsPyWhitespace(r[0])
    decreases |s|
  {
    if |s| > 0 && IsPyWhitespace(s[0]) then StripLeading(s[1..]) else s
  }

  /** `s.rstrip()`: drops the longest whitespace suffix. */
  function StripTrailing(s: string): (r: string)
    ensures |r| <= |s| && r == s[..|r|]
    ensures forall k :: |r| <= k < |s| ==> IsPyWhitespace(s[k])
    ensures r == [] || !IsPyWhitespace(r[|r| - 1])
    decreases |s|
  {
    if |s| > 0 && IsPyWhitespace(s[|s| - 1]) then StripTrailing(s[..|s| - 1]) else s
  }

  /** `s.strip()`. */
  function Strip(s: string): string {
    StripTrailing(StripLeading(s))
  }

  predicate IsDigit(c: char) {
    '0' <= c <= '9'
  }

  /** The digit part of a Python integer literal as `int()` accepts it:
      ASCII digits, optionally grouped by single underscores between digits. */
  predicate IsDigitRun(s: string) {
    |s| > 0 && IsDigit(s[0]) && IsDigit(s[|s| - 1]) &&
    (forall i :: 0 <= i < |s| ==> IsDigit(s[i]) || s[i] == '_') &&
    (forall i :: 0 <= i < |s| - 1 ==> s[i] == '_' ==> s[i + 1] != '_')
  }

  /** The value of a digit run, read left to right, underscores ignored. */
  function DigitRunValue(s: string): nat
    decreases |s|
  {
    if |s| == 0 then 0
    else
      var c := s[|s| - 1];
      var prefix := DigitRunValue(s[..|s| - 1]);
      if IsDigit(c) then prefix * 10 + (c as int - '0' as int) else prefix
  }

  /** Python's `int(s)` on already-stripped text: an optional sign, then a digit run;
      anything else is a `ValueError`, here `None`. */
  function ParseInt(s: string): (r: Option<int>)
    // Accepted text ends in a digit and holds no whitespace, and only a leading minus
    // makes the value negative.
    ensures r.Some? ==> |s| > 0 && IsDigit(s[|s| - 1])
    ensures r.Some? ==> forall k :: 0 <= k < |s| ==> !IsPyWhitespace(s[k])
    ensures r.Some? && r.value < 0 ==> s[0] == '-'
    // A sign applies to the unsigned reading of the rest.
    ensures |s| > 1 && s[0] == '-' && IsDigit(s[1]) ==> r == (if ParseInt(s[1..]).Some? then Some(-ParseInt(s[1..]).value) else None)
    // Accepted text holds nothing but digits, underscores and one leading sign.
    ensures r.Some? ==> forall k :: 0 <= k < |s| ==> IsDigit(s[k]) || s[k] == '_' || (k == 0 && (s[k] == '+' || s[k] == '-'))
  {
    if |s| > 0 && (s[0] == '+' || s[0] == '-') then
      if IsDigitRun(s[1..]) then
        var magnitude: int := DigitRunValue(s[1..]);
        Some(if s[0] == '-' then -magnitude else magnitude)
      else None
    else if IsDigitRun(s) then Some(DigitRunValue(s))
    else None
  }

  /** `int()` accepts every non-empty run of plain digits, as a non-negative number. */
  lemma DigitsParse(s: string)
    requires |s| > 0 && forall k :: 0 <= k < |s| ==> IsDigit(s[k])
    ensures ParseInt(s).Some? && ParseInt(s).value >= 0
  {
  }

  function DigitChar(d: nat): (c: char)
    requires d < 10
    ensures IsDigit(c) && c as int - '0' as int == d
  {
    ('0' as int + d) as char
  }

  /** Decimal digits of a natural number, no leading zeros. */
  function NatDigits(n: nat): string
    decreases n
  {
    if n < 10 then [DigitChar(n)] else NatDigits(n / 10) + [DigitChar(n % 10)]
  }

  /** `str(n)` for a Python int. */
  function DecimalString(n: int): (r: string)
    // A minus sign exactly for negative numbers, then digits with no leading zero.
    ensures |r| > 0 && (r[0] == '-' <==> n < 0)
    ensures n < 0 ==> |r| > 1
    ensures forall k :: (if n < 0 then 1 else 0) <= k < |r| ==> IsDigit(r[k])
    ensures r[if n < 0 then 1 else 0] == '0' ==> n == 0
  {
    NatDigitsReadBack(if n < 0 then -n else n);
    if n < 0 then "-" + NatDigits(-n) else NatDigits(n)
  }

  /** What the loader makes of a stored file's text. */
  datatype StoredText = Blank | Number(n: int) | Malformed

  /** Strip the text; empty means no id, otherwise `int()` either succeeds or fails. */
  function ReadStoredId(text: string): (r: StoredText)
    // A file reads as holding no id exactly when its text is all whitespace.
    ensures r == Blank <==> forall k :: 0 <= k < |text| ==> IsPyWhitespace(text[k])
  {
    StripAllWhitespace(text);
    var t := Strip(text);
    if t == "" then Blank
    else match ParseInt(t)
      case Some(n) => Number(n)
      case None => Malformed
  }

  /** Stripping leaves nothing exactly when every character is whitespace. */
  lemma StripAllWhitespace(text: string)
    ensures Strip(text) == "" <==> forall k :: 0 <= k < |text| ==> IsPyWhitespace(text[k])
  {
    var l := StripLeading(text);
    if Strip(text) != [] {
      assert !IsPyWhitespace(text[|text| - |l|]);
    }
  }

  /** Every character of `str(n)` for a natural `n` is a digit, and reading the digits back gives `n`. */
  lemma {:induction false} NatDigitsReadBack(n: nat)
    ensures |NatDigits(n)| > 0
    ensures forall i :: 0 <= i < |NatDigits(n)| ==> IsDigit(NatDigits(n)[i])
    ensures IsDigitRun(NatDigits(n))
    ensures DigitRunValue(NatDigits(n)) == n
    ensures NatDigits(n)[0] == '0' ==> n == 0
    decreases n
  {
    var s := NatDigits(n);
    if n >= 10 {
      NatDigitsReadBack(n / 10);
      assert s[..|s| - 1] == NatDigits(n / 10);
      assert s[0] == NatDigits(n / 10)[0];
    }
  }

  /** A decimal rendering has no whitespace at either end, so stripping leaves it unchanged. */
  lemma StripDecimalString(n: int)
    ensures Strip(DecimalString(n)) == DecimalString(n)
  {
    var s := DecimalString(n);
    assert !IsPyWhitespace(s[0]) && !IsPyWhitespace(s[|s| - 1]);
  }

  /** Round trip: the loader reads back exactly the id that was written with `str(id)`. */
  lemma {:induction false} StoredIdRoundTrip(n: int)
    ensures ReadStoredId(DecimalString(n)) == Number(n)
  {
    var s := DecimalString(n);
    StripDecimalString(n);
    if n < 0 {
      NatDigitsReadBack(-n);
      assert s[1..] == NatDigits(-n);
    } else {
      NatDigitsReadBack(n);
    }
  }
}
