/**
 * Start-up configuration: the listening port and the two size limits, read
 * from the environment. Environment lookups are inputs: `None` stands for a
 * variable that is unset (or not valid Unicode), `Some(text)` for its value.
 */
module ConfigLoader {
  import opened Wrappers

  /** `usize::MAX` on a 64-bit target. */
  const MaxUsize: nat := 0xFFFF_FFFF_FFFF_FFFF

  /** The default for, and the largest accepted value of, both size limits. */
  const SizeLimit: nat := 256

  /** The port used when PORT is unset. */
  const DefaultPort: string := "7171"

  /** Rust's `Config`. */
  datatype Config = Config(port: string, maxKeySize: nat, maxValueSize: nat)

  predicate IsDigit(c: char) {
    '0' <= c <= '9'
  }

  predicate AllDigits(s: string) {
    forall i | 0 <= i < |s| :: IsDigit(s[i])
  }

  function DigitValue(c: char): (d: nat)
    requires IsDigit(c)
    ensures d < 10
  {
    (c as int) - ('0' as int)
  }

  function DigitChar(d: nat): (c: char)
    requires d < 10
    ensures IsDigit(c) && DigitValue(c) == d
  {
    ('0' as int + d) as char
  }

  /** The number a run of decimal digits denotes, most significant digit first. */
  function DigitsValue(s: string): nat
    requires AllDigits(s)
  {
    if s == [] then 0 else 10 * DigitsValue(s[..|s| - 1]) + DigitValue(s[|s| - 1])
  }

  /**
   * `str::parse::<usize>`: an optional leading '+', then one or more ASCII
   * digits and nothing else, denoting a number no larger than `usize::MAX`.
   * The empty text, a lone '+', a sign '-', blanks and overflow are errors.
   */
  function ParseUsize(s: string): (r: Option<nat>)
    ensures r.Some? ==> r.value <= MaxUsize
    ensures |s| > 0 && s[0] != '+' && !IsDigit(s[0]) ==> r == None
  {
    var digits := if |s| > 0 && s[0] == '+' then s[1..] else s;
    if digits == [] || !AllDigits(digits) then None
    else if DigitsValue(digits) > MaxUsize then None
    else Some(DigitsValue(digits))
  }

  /** The shortest decimal text of `n`. */
  function Decimal(n: nat): (s: string)
    ensures s != [] && AllDigits(s)
    ensures DigitsValue(s) == n
    ensures |s| > 1 ==> s[0] != '0'
  {
    if n < 10 then [DigitChar(n)]
    else
      var init := Decimal(n / 10);
      var s := init + [DigitChar(n % 10)];
      assert s[..|s| - 1] == init;
      s
  }

  /**
   * One size limit, MAX_KEY_SIZE or MAX_VALUE_SIZE: unset or unparseable
   * gives the default 256, a parsed value above 256 is lowered to 256, any
   * other parsed value is kept.
   */
  function SizeSetting(raw: Option<string>): (r: nat)
    ensures r <= SizeLimit
    ensures raw.None? || ParseUsize(raw.value).None? ==> r == SizeLimit
    ensures raw.Some? && ParseUsize(raw.value).Some? && ParseUsize(raw.value).value <= SizeLimit
      ==> r == ParseUsize(raw.value).value
    ensures raw.Some? && ParseUsize(raw.value).Some? && ParseUsize(raw.value).value > SizeLimit
      ==> r == SizeLimit
  {
    var parsed := if raw.Some? then ParseUsize(raw.value) else None;
    var size := if parsed.Some? then parsed.value else SizeLimit;
    if size > SizeLimit then SizeLimit else size
  }

  /** `load_config`, with the three environment lookups as inputs. */
  function LoadConfig(port: Option<string>, maxKeySize: Option<string>, maxValueSize: Option<string>): (c: Config)
    ensures port.Some? ==> c.port == port.value
    ensures port.None? ==> c.port == DefaultPort
    ensures c.maxKeySize == SizeSetting(maxKeySize) && c.maxValueSize == SizeSetting(maxValueSize)
    ensures c.maxKeySize <= SizeLimit && c.maxValueSize <= SizeLimit
  {
    Config(if port.Some? then port.value else DefaultPort, SizeSetting(maxKeySize), SizeSetting(maxValueSize))
  }

  /**
   * Parsing is the inverse of printing in decimal: the decimal text of `n`,
   * with or without a leading '+', parses back to `n` exactly when `n` fits
   * in a usize.
   */
  lemma ParseDecimal(n: nat)
    ensures ParseUsize(Decimal(n)) == if n <= MaxUsize then Some(n) else None
    ensures ParseUsize("+" + Decimal(n)) == ParseUsize(Decimal(n))
  {
    var d := Decimal(n);
    assert ("+" + d)[1..] == d;
  }

  /** Leading zeros change neither the value of a run of digits nor what it parses to. */
  lemma {:induction false} LeadingZero(s: string)
    requires AllDigits(s)
    ensures AllDigits("0" + s) && DigitsValue("0" + s) == DigitsValue(s)
    ensures s != [] ==> ParseUsize("0" + s) == ParseUsize(s)
  {
    var z := "0" + s;
    if s != [] {
      assert z[..|z| - 1] == "0" + s[..|s| - 1];
      LeadingZero(s[..|s| - 1]);
    }
  }

  /** Every number written in decimal, however large, sets a limit of min(n, 256). */
  lemma SizeSettingOfDecimal(n: nat)
    ensures SizeSetting(Some(Decimal(n))) == if n <= SizeLimit then n else SizeLimit
  {
    ParseDecimal(n);
  }

  /** Texts `str::parse::<usize>` rejects. */
  lemma ParseRejects()
    ensures ParseUsize("") == None
    ensures ParseUsize("+") == None
    ensures ParseUsize("-1") == None
    ensures ParseUsize(" 1") == None
    ensures ParseUsize("1k") == None
  {
    assert !IsDigit("1k"[1]);
  }

  /** With nothing set, the port is 7171 and both limits are 256. */
  lemma DefaultConfig()
    ensures LoadConfig(None, None, None) == Config("7171", 256, 256)
  {
  }

  /** A limit set to 1024 is lowered to 256, one set to 100 is kept, one set to "abc" falls back to 256. */
  lemma ClampedConfig()
    ensures LoadConfig(Some("8080"), Some("1024"), Some("100")) == Config("8080", 256, 100)
    ensures LoadConfig(None, Some("abc"), Some("+100")).maxKeySize == 256
    ensures LoadConfig(None, Some("abc"), Some("+100")).maxValueSize == 100
  {
    assert Decimal(1024) == "1024";
    assert Decimal(100) == "100";
    SizeSettingOfDecimal(1024);
    SizeSettingOfDecimal(100);
    ParseDecimal(100);
    assert !IsDigit("abc"[0]);
  }
}
