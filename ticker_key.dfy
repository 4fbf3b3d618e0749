/**
 * The cache key of a query: `ticker_input.strip().upper()`.
 * `strip()` removes leading and trailing characters that Python's `str.isspace`
 * accepts; `upper()` maps lower-case letters to upper case.
 */
module TickerKey {

  /** The characters Python's `str.strip()` removes by default. */
  predicate IsSpace(c: char) {
    ('\t' <= c <= '\r') || ('\U{1C}' <= c <= '\U{1F}') || c == ' ' ||
    c == '\U{85}' || c == '\U{A0}' || c == '\U{1680}' ||
    ('\U{2000}' <= c <= '\U{200A}') || c == '\U{2028}' || c == '\U{2029}' ||
    c == '\U{202F}' || c == '\U{205F}' || c == '\U{3000}'
  }

  predicate IsLower(c: char) {
    'a' <= c <= 'z'
  }

  predicate AllSpace(s: string) {
    forall k :: 0 <= k < |s| ==> IsSpace(s[k])
  }

  /** Upper-casing of one character (ASCII letters only). */
  function UpperChar(c: char): (u: char)
    ensures !IsLower(u)
    ensures !IsSpace(c) ==> !IsSpace(u)
    ensures !IsLower(c) ==> u == c
    ensures IsLower(c) ==> u as int + 32 == c as int
  {
    if IsLower(c) then (c as int - 32) as char else c
  }

  /** `s.upper()`: the same length, every character upper-cased in place. */
  function Upper(s: string): (r: string)
    ensures |r| == |s|
    ensures forall k :: 0 <= k < |s| ==> r[k] == UpperChar(s[k])
  {
    seq(|s|, k requires 0 <= k < |s| => UpperChar(s[k]))
  }

  /** `s.lstrip()`: the longest suffix of `s` that does not start with whitespace. */
  function TrimStart(s: string): (r: string)
    ensures |r| <= |s| && r == s[|s| - |r|..]
    ensures r == [] || !IsSpace(r[0])
    ensures AllSpace(s[..|s| - |r|])
    decreases |s|
  {
    if s != [] && IsSpace(s[0]) then
      var r := TrimStart(s[1..]);
      assert s[..|s| - |r|] == [s[0]] + s[1..][..|s| - 1 - |r|];
      r
    else
      s
  }

  /** `s.rstrip()`: the longest prefix of `s` that does not end with whitespace. */
  function TrimEnd(s: string): (r: string)
    ensures |r| <= |s| && r == s[..|r|]
    ensures r == [] || !IsSpace(r[|r| - 1])
    ensures AllSpace(s[|r|..])
    decreases |s|
  {
    if s != [] && IsSpace(s[|s| - 1]) then
      var r := TrimEnd(s[..|s| - 1]);
      assert s[|r|..] == s[..|s| - 1][|r|..] + [s[|s| - 1]];
      r
    else
      s
  }

  /** `s.strip()` */
  function Strip(s: string): (r: string)
    ensures |r| <= |s|
    ensures r == [] || (!IsSpace(r[0]) && !IsSpace(r[|r| - 1]))
  {
    TrimEnd(TrimStart(s))
  }

  /** `strip()` keeps one contiguous piece of `s` and drops only whitespace around it. */
  lemma StripIsTrimmedSlice(s: string)
    ensures exists i, j :: 0 <= i <= j <= |s| && Strip(s) == s[i..j] && AllSpace(s[..i]) && AllSpace(s[j..])
  {
    var t := TrimStart(s);
    var r := TrimEnd(t);
    var i, j := |s| - |t|, |s| - |t| + |r|;
    assert t == s[i..] && r == t[..|r|];
    assert r == s[i..j];
    assert AllSpace(s[..i]);
    assert s[j..] == t[|r|..];
    assert AllSpace(s[j..]);
    assert 0 <= i <= j <= |s| && Strip(s) == s[i..j];
  }

  /** `ticker_input.strip().upper()` */
  function NormalizeKey(input: string): (key: string)
    ensures |key| <= |input|
    ensures key == [] || (!IsSpace(key[0]) && !IsSpace(key[|key| - 1]))
    ensures forall k :: 0 <= k < |key| ==> !IsLower(key[k])
  {
    Upper(Strip(input))
  }

  /** The key is the upper-cased piece of the input left after removing surrounding whitespace. */
  lemma NormalizeKeyIsUpperOfTrimmed(input: string)
    ensures exists i, j :: 0 <= i <= j <= |input| && NormalizeKey(input) == Upper(input[i..j]) &&
                           AllSpace(input[..i]) && AllSpace(input[j..])
  {
    StripIsTrimmedSlice(input);
  }

  /** Normalising an already normalised key changes nothing, so every spelling of a key lands on one entry. */
  lemma NormalizeKeyIdempotent(input: string)
    ensures NormalizeKey(NormalizeKey(input)) == NormalizeKey(input)
  {
    var key := NormalizeKey(input);
    assert TrimStart(key) == key;
    assert TrimEnd(key) == key;
    assert Strip(key) == key;
    assert Upper(key) == key;
  }

  /** A string with no whitespace at either end is its own `strip()`. */
  lemma StripClean(s: string)
    requires s == [] || (!IsSpace(s[0]) && !IsSpace(s[|s| - 1]))
    ensures Strip(s) == s
  {
  }

  lemma StripPaddedAapl()
    ensures Strip("  aapl ") == "aapl"
  {
    assert !IsSpace('a') && !IsSpace('l');
    assert TrimStart("aapl ") == "aapl ";
    assert " aapl "[1..] == "aapl ";
    assert TrimStart(" aapl ") == "aapl ";
    assert "  aapl "[1..] == " aapl ";
    assert TrimStart("  aapl ") == "aapl ";
    assert TrimEnd("aapl") == "aapl";
    assert "aapl "[..4] == "aapl";
    assert TrimEnd("aapl ") == "aapl";
  }

  lemma UpperAapl()
    ensures Upper("aapl") == "AAPL" && Upper("AAPL") == "AAPL"
  {
  }

  lemma StripAapl()
    ensures Strip("AAPL") == "AAPL"
  {
    assert !IsSpace('A') && !IsSpace('L');
    StripClean("AAPL");
  }

  lemma KeyOfPaddedAapl()
    ensures NormalizeKey("  aapl ") == "AAPL"
  {
    StripPaddedAapl();
    UpperAapl();
  }

  lemma KeyOfAapl()
    ensures NormalizeKey("AAPL") == "AAPL"
  {
    StripAapl();
    UpperAapl();
  }

  /** Padding and letter case do not matter: `"  aapl "` and `"AAPL"` share the key `"AAPL"`. */
  lemma NormalizeKeyPaddedLowerCase()
    ensures NormalizeKey("  aapl ") == NormalizeKey("AAPL") == "AAPL"
  {
    KeyOfPaddedAapl();
    KeyOfAapl();
  }

  lemma StripApple()
    ensures Strip("Apple") == "Apple"
  {
    assert !IsSpace('A') && !IsSpace('e');
    StripClean("Apple");
  }

  /** A company name and its ticker are different keys. */
  lemma NormalizeKeyNameIsNotTicker()
    ensures NormalizeKey("Apple") != NormalizeKey("AAPL")
  {
    KeyOfAapl();
    StripApple();
    assert NormalizeKey("Apple")[1] == UpperChar('p');
  }
}
