/**
 * The two input rules of the scraper builder: the record limit typed by the
 * user (`int()`, else "ALL" for no limit, else a default of 5) and the `.py`
 * suffix of the script name.
 */
module Builder {
  import opened Wrappers

  const DefaultLimit: int := 5
  const NoLimit: int := -1

  /** The characters `str.strip()` and `int()` remove at both ends (ASCII ones). */
  predicate IsSpace(c: char) {
    c == ' ' || ('\t' <= c <= '\r') || ('\U{1C}' <= c <= '\U{1F}')
  }

  predicate IsDigit(c: char) {
    '0' <= c <= '9'
  }

  function TrimStart(s: string): string {
    if s != [] && IsSpace(s[0]) then TrimStart(s[1..]) else s
  }

  function TrimEnd(s: string): string {
    if s != [] && IsSpace(s[|s| - 1]) then TrimEnd(s[..|s| - 1]) else s
  }

  /** `s.strip()`. */
  function Strip(s: string): string {
    TrimEnd(TrimStart(s))
  }

  function UpperChar(c: char): char {
    if 'a' <= c <= 'z' then (c as int - 'a' as int + 'A' as int) as char else c
  }

  /** `s.upper()` on ASCII letters. */
  function Upper(s: string): (r: string)
    ensures |r| == |s|
    ensures forall i :: 0 <= i < |s| ==> r[i] == UpperChar(s[i])
  {
    if s == [] then [] else [UpperChar(s[0])] + Upper(s[1..])
  }

  predicate AllDigits(s: string) {
    forall i :: 0 <= i < |s| ==> IsDigit(s[i])
  }

  /** The value of a string of decimal digits. */
  function DigitsValue(s: string): nat
    requires AllDigits(s)
  {
    if s == [] then 0 else DigitsValue(s[..|s| - 1]) * 10 + (s[|s| - 1] as int - '0' as int)
  }

  /** `int(s)`: surrounding whitespace, an optional sign, then one or more ASCII digits. */
  function ParseInt(s: string): Option<int> {
    var t := Strip(s);
    var signed := t != [] && (t[0] == '-' || t[0] == '+');
    var digits := if signed then t[1..] else t;
    if digits == [] || !AllDigits(digits) then None
    else
      var magnitude: int := DigitsValue(digits);
      Some(if signed && t[0] == '-' then -magnitude else magnitude)
  }

  /** The decimal text of a natural number, the reference the parser is checked against. */
  function ShowNat(n: nat): (s: string)
    ensures s != [] && AllDigits(s)
  {
    if n < 10 then [('0' as int + n) as char]
    else ShowNat(n / 10) + [('0' as int + n % 10) as char]
  }

  /** The text a user types for the integer `n`. */
  function ShowInt(n: int): string {
    if n < 0 then "-" + ShowNat(-n) else ShowNat(n)
  }

  /**
   * The limit after the `try: int(...) except ValueError:` block: the integer
   * typed, or -1 for "ALL" in any case and spacing, or 5 for anything else.
   */
  function ParseLimit(input: string): (limit: int)
    ensures ParseInt(input).Some? ==> limit == ParseInt(input).value
    ensures limit == NoLimit || limit == DefaultLimit || ParseInt(input) == Some(limit)
    ensures limit == NoLimit ==> ParseInt(input) == Some(NoLimit) || Upper(Strip(input)) == "ALL"
    ensures limit == DefaultLimit && ParseInt(input) != Some(DefaultLimit) ==>
              ParseInt(input).None? && Upper(Strip(input)) != "ALL"
  {
    match ParseInt(input)
    case Some(n) => n
    case None => if Upper(Strip(input)) == "ALL" then NoLimit else DefaultLimit
  }

  // ---------------------------------------------------------------- the round trip of the parser

  lemma {:induction false} DigitsOfShowNat(n: nat)
    ensures DigitsValue(ShowNat(n)) == n
  {
    if n >= 10 {
      DigitsOfShowNat(n / 10);
      var s := ShowNat(n);
      assert s[..|s| - 1] == ShowNat(n / 10);
    }
  }

  lemma TrimOfShowInt(n: int)
    ensures Strip(ShowInt(n)) == ShowInt(n)
  {
    var s := ShowInt(n);
    assert !IsSpace(s[0]);
    assert TrimStart(s) == s;
    assert !IsSpace(s[|s| - 1]);
  }

  /** Every integer typed as its decimal text is parsed back to itself. */
  lemma ParseShowInt(n: int)
    ensures ParseInt(ShowInt(n)) == Some(n)
  {
    TrimOfShowInt(n);
    if n < 0 {
      DigitsOfShowNat(-n);
      assert ShowInt(n)[1..] == ShowNat(-n);
    } else {
      DigitsOfShowNat(n);
    }
  }

  /** An integer typed by the user, 0 and negative ones included, is the limit; "-1" is the unlimited sentinel. */
  lemma LimitOfInteger(n: int)
    ensures ParseLimit(ShowInt(n)) == n
    ensures ParseLimit("-1") == NoLimit
  {
    ParseShowInt(n);
    ParseShowInt(-1);
    assert ShowInt(-1) == "-1";
  }

  /** "ALL", in any letter case and with surrounding spaces, means no limit. */
  lemma LimitOfAll(input: string)
    requires Upper(Strip(input)) == "ALL"
    ensures ParseLimit(input) == NoLimit
  {
    var t := Strip(input);
    assert UpperChar(t[0]) == 'A';
    assert t[0] == 'a' || t[0] == 'A';
    assert !IsDigit(t[0]);
  }

  // ---------------------------------------------------------------- the script name

  predicate EndsWith(s: string, suffix: string) {
    |suffix| <= |s| && s[|s| - |suffix|..] == suffix
  }

  /** `if not name.endswith(".py"): name += ".py"`. */
  function NormalizeScriptName(name: string): (r: string)
    ensures EndsWith(r, ".py")
    ensures name <= r
    ensures r == name <==> EndsWith(name, ".py")
    ensures r != name ==> r[|name|..] == ".py"
  {
    if EndsWith(name, ".py") then name else name + ".py"
  }

  /** Normalising a normalised name changes nothing. */
  lemma NormalizeIdempotent(name: string)
    ensures NormalizeScriptName(NormalizeScriptName(name)) == NormalizeScriptName(name)
  {
  }
}
