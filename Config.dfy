/**
 * The settings object of src/config/config.js, read from the process environment.
 * Numeric settings are `parseInt(env) || default`; string settings are `env || default`.
 */
module Config {
  import opened Wrappers

  /** The process environment: variable name to value. */
  type Env = map<string, string>

  datatype Settings = Settings(
    inputDir: string,
    thumbnailWidth: int,
    minThumbnailHeight: int,
    thumbnailQuality: int,
    logLevel: string,
    templateProcessingLimit: int,
    fileProcessingLimit: int,
    localServerUrl: string,
    thumbnailFormat: string)

  const DefaultInputDir := "email"
  const DefaultThumbnailWidth := 1024
  const DefaultMinThumbnailHeight := 40
  const DefaultThumbnailQuality := 80
  const DefaultLogLevel := "info"
  const TemplateProcessingLimit := 2
  const FileProcessingLimit := 5
  const DefaultLocalServerUrl := "http://localhost:5001"
  const DefaultThumbnailFormat := "webp"

  // ---------------------------------------------------------------------------
  // parseInt (section 19.2.5 of ECMA-262), called without a radix
  // ---------------------------------------------------------------------------

  /** WhiteSpace and LineTerminator code points (StrWhiteSpaceChar of ECMA-262). */
  predicate IsStrWhiteSpace(c: char) {
    var n := c as int;
    n == 0x09 || n == 0x0B || n == 0x0C || n == 0x20 || n == 0xA0 || n == 0xFEFF
    || n == 0x1680 || (0x2000 <= n <= 0x200A) || n == 0x202F || n == 0x205F || n == 0x3000
    || n == 0x0A || n == 0x0D || n == 0x2028 || n == 0x2029
  }

  /** TrimString(s, start): the leading white space removed. */
  function TrimStart(s: string): (r: string)
  {
    if s != [] && IsStrWhiteSpace(s[0]) then TrimStart(s[1..]) else s
  }

  /** The value of a digit in radix 36, or 36 for a character that is no digit. */
  function DigitValue(c: char): (v: nat)
    ensures v <= 36
  {
    if '0' <= c <= '9' then c as int - '0' as int
    else if 'a' <= c <= 'z' then c as int - 'a' as int + 10
    else if 'A' <= c <= 'Z' then c as int - 'A' as int + 10
    else 36
  }

  predicate IsDigit(c: char, radix: nat) {
    DigitValue(c) < radix
  }

  /** The longest prefix of `s` made of radix-`radix` digits. */
  function DigitPrefix(s: string, radix: nat): (z: string)
    ensures |z| <= |s| && z == s[..|z|]
    ensures forall i :: 0 <= i < |z| ==> IsDigit(z[i], radix)
    ensures |z| == |s| || !IsDigit(s[|z|], radix)
  {
    if s != [] && IsDigit(s[0], radix) then [s[0]] + DigitPrefix(s[1..], radix) else []
  }

  /** The mathematical value of a numeral in radix `radix`. */
  function NumeralValue(z: string, radix: nat): nat
  {
    if z == [] then 0
    else NumeralValue(z[..|z| - 1], radix) * radix + DigitValue(z[|z| - 1])
  }

  predicate StartsWithHexPrefix(s: string) {
    |s| >= 2 && s[0] == '0' && (s[1] == 'x' || s[1] == 'X')
  }

  /** TrimString keeps a suffix of its input. */
  lemma {:induction false} TrimStartIsSuffix(s: string)
    ensures |TrimStart(s)| <= |s| && TrimStart(s) == s[|s| - |TrimStart(s)|..]
  {
    if s != [] && IsStrWhiteSpace(s[0]) {
      TrimStartIsSuffix(s[1..]);
    }
  }

  /** TrimString drops white space only. */
  lemma {:induction false} TrimStartDropsOnlyWhiteSpace(s: string)
    ensures |TrimStart(s)| <= |s|
    ensures forall i :: 0 <= i < |s| - |TrimStart(s)| ==> IsStrWhiteSpace(s[i])
  {
    if s != [] && IsStrWhiteSpace(s[0]) {
      TrimStartDropsOnlyWhiteSpace(s[1..]);
      assert forall i :: 1 <= i < |s| - |TrimStart(s)| ==> s[i] == s[1..][i - 1];
    }
  }

  /** TrimString drops all the leading white space: what is left does not start with any. */
  lemma {:induction false} TrimStartDropsAllWhiteSpace(s: string)
    ensures TrimStart(s) == [] || !IsStrWhiteSpace(TrimStart(s)[0])
  {
    if s != [] && IsStrWhiteSpace(s[0]) {
      TrimStartDropsAllWhiteSpace(s[1..]);
    }
  }

  /** Whether a '-' is read in front of the digits (white space already skipped). */
  function IsNegative(s: string): bool {
    s != [] && s[0] == '-'
  }

  /** The text after one leading '+' or '-'. */
  function Unsigned(s: string): (u: string)
    ensures u == s || (s != [] && u == s[1..] && (s[0] == '+' || s[0] == '-'))
  {
    if s != [] && (s[0] == '+' || s[0] == '-') then s[1..] else s
  }

  /**
   * The unsigned part: a "0x"/"0X" prefix selects radix 16, otherwise radix 10,
   * and the longest run of digits is converted; no digit at all is NaN (`None`).
   */
  function ParseUnsigned(u: string): Option<nat> {
    var radix := if StartsWithHexPrefix(u) then 16 else 10;
    var z := DigitPrefix(if radix == 16 then u[2..] else u, radix);
    if z == [] then None else Some(NumeralValue(z, radix))
  }

  /**
   * `parseInt(s)` with the radix argument left out: white space is skipped, one
   * sign is read, then the unsigned numeral; NaN is `None` and `-0` is `Some(0)`.
   */
  function ParseInt(input: string): Option<int> {
    var s := TrimStart(input);
    Signed(IsNegative(s), ParseUnsigned(Unsigned(s)))
  }

  /** NaN stays NaN; a magnitude gets its sign (a negated zero is the integer 0). */
  function Signed(negative: bool, magnitude: Option<nat>): Option<int> {
    match magnitude
    case None => None
    case Some(v) => Some(if negative then -(v as int) else v)
  }

  /** ToString of an environment variable: an unset variable reads as "undefined". */
  function ToJsString(v: Option<string>): string {
    match v
    case Some(s) => s
    case None => "undefined"
  }

  function Lookup(env: Env, key: string): Option<string> {
    if key in env then Some(env[key]) else None
  }

  // ---------------------------------------------------------------------------
  // The two fallback rules
  // ---------------------------------------------------------------------------

  /** `parseInt(v) || default`: NaN, 0 and -0 are falsy and give the default. */
  function NumberOr(v: Option<string>, default: int): (r: int)
    ensures default != 0 ==> r != 0
    ensures r == default || ParseInt(ToJsString(v)) == Some(r)
    ensures ParseInt(ToJsString(v)).None? ==> r == default
    ensures ParseInt(ToJsString(v)) == Some(0) ==> r == default
    ensures ParseInt(ToJsString(v)).Some? && ParseInt(ToJsString(v)).value != 0 ==> r == ParseInt(ToJsString(v)).value
  {
    match ParseInt(ToJsString(v))
    case Some(n) => if n != 0 then n else default
    case None => default
  }

  /** `v || default` for a string: unset and empty are falsy. */
  function StringOr(v: Option<string>, default: string): (r: string)
    ensures default != "" ==> r != ""
    ensures r == default || Some(r) == v
    ensures v.Some? && v.value != "" ==> r == v.value
    ensures v.None? || v.value == "" ==> r == default
  {
    match v
    case Some(s) => if s != "" then s else default
    case None => default
  }

  /** The exported settings object. */
  function Load(env: Env): (c: Settings)
    ensures c.templateProcessingLimit == 2 && c.fileProcessingLimit == 5
    ensures c.thumbnailWidth != 0 && c.minThumbnailHeight != 0 && c.thumbnailQuality != 0
    ensures c.inputDir != "" && c.logLevel != "" && c.localServerUrl != "" && c.thumbnailFormat != ""
    ensures "THUMBNAIL_WIDTH" !in env ==> c.thumbnailWidth == 1024
    ensures "MIN_THUMBNAIL_HEIGHT" !in env ==> c.minThumbnailHeight == 40
    ensures "THUMBNAIL_QUALITY" !in env ==> c.thumbnailQuality == 80
    ensures "INPUT_DIR" !in env ==> c.inputDir == "email"
    ensures "LOG_LEVEL" !in env ==> c.logLevel == "info"
    ensures "LOCAL_SERVER_URL" !in env ==> c.localServerUrl == "http://localhost:5001"
    ensures "THUMBNAIL_FORMAT" !in env ==> c.thumbnailFormat == "webp"
    ensures c.thumbnailWidth == NumberOr(Lookup(env, "THUMBNAIL_WIDTH"), 1024)
    ensures c.minThumbnailHeight == NumberOr(Lookup(env, "MIN_THUMBNAIL_HEIGHT"), 40)
    ensures c.thumbnailQuality == NumberOr(Lookup(env, "THUMBNAIL_QUALITY"), 80)
    ensures c.inputDir == StringOr(Lookup(env, "INPUT_DIR"), "email")
    ensures c.logLevel == StringOr(Lookup(env, "LOG_LEVEL"), "info")
    ensures c.localServerUrl == StringOr(Lookup(env, "LOCAL_SERVER_URL"), "http://localhost:5001")
    ensures c.thumbnailFormat == StringOr(Lookup(env, "THUMBNAIL_FORMAT"), "webp")
    ensures "INPUT_DIR" in env && env["INPUT_DIR"] != "" ==> c.inputDir == env["INPUT_DIR"]
    ensures "LOG_LEVEL" in env && env["LOG_LEVEL"] != "" ==> c.logLevel == env["LOG_LEVEL"]
    ensures "LOCAL_SERVER_URL" in env && env["LOCAL_SERVER_URL"] != "" ==> c.localServerUrl == env["LOCAL_SERVER_URL"]
    ensures "THUMBNAIL_FORMAT" in env && env["THUMBNAIL_FORMAT"] != "" ==> c.thumbnailFormat == env["THUMBNAIL_FORMAT"]
  {
    UndefinedIsNaN();
    Settings(
      inputDir := StringOr(Lookup(env, "INPUT_DIR"), DefaultInputDir),
      thumbnailWidth := NumberOr(Lookup(env, "THUMBNAIL_WIDTH"), DefaultThumbnailWidth),
      minThumbnailHeight := NumberOr(Lookup(env, "MIN_THUMBNAIL_HEIGHT"), DefaultMinThumbnailHeight),
      thumbnailQuality := NumberOr(Lookup(env, "THUMBNAIL_QUALITY"), DefaultThumbnailQuality),
      logLevel := StringOr(Lookup(env, "LOG_LEVEL"), DefaultLogLevel),
      templateProcessingLimit := TemplateProcessingLimit,
      fileProcessingLimit := FileProcessingLimit,
      localServerUrl := StringOr(Lookup(env, "LOCAL_SERVER_URL"), DefaultLocalServerUrl),
      thumbnailFormat := StringOr(Lookup(env, "THUMBNAIL_FORMAT"), DefaultThumbnailFormat))
  }

  // ---------------------------------------------------------------------------
  // Decimal numerals and what parseInt makes of them
  // ---------------------------------------------------------------------------

  function DecimalDigit(d: nat): char
    requires d < 10
  {
    ('0' as int + d) as char
  }

  /** The canonical decimal numeral of `n`. */
  function DecimalString(n: nat): (s: string)
    ensures s != []
    ensures forall i :: 0 <= i < |s| ==> '0' <= s[i] <= '9'
  {
    if n < 10 then [DecimalDigit(n)] else DecimalString(n / 10) + [DecimalDigit(n % 10)]
  }

  /** The numeral of an integer, with a '-' in front of a negative one. */
  function SignedDecimal(n: int): string {
    if n < 0 then "-" + DecimalString(-n) else DecimalString(n)
  }

  lemma {:induction false} DecimalValue(n: nat)
    ensures NumeralValue(DecimalString(n), 10) == n
  {
    var s := DecimalString(n);
    if n >= 10 {
      DecimalValue(n / 10);
      assert s[..|s| - 1] == DecimalString(n / 10);
    }
  }

  /** A run of decimal digits followed by text that cannot continue the number. */
  lemma ParseDigitsThenRest(d: string, rest: string)
    requires d != [] && forall i :: 0 <= i < |d| ==> '0' <= d[i] <= '9'
    requires rest == [] || !('0' <= rest[0] <= '9')
    requires !(d == "0" && rest != [] && (rest[0] == 'x' || rest[0] == 'X'))
    ensures ParseInt(d + rest) == Some(NumeralValue(d, 10))
  {
    var s := d + rest;
    UnsignedDigitsThenRest(d, rest);
    ParsePositive(s);
    assert Signed(false, Some(NumeralValue(d, 10))) == Some(NumeralValue(d, 10));
  }

  /** The unsigned parse of a decimal run stops where the run stops. */
  lemma UnsignedDigitsThenRest(d: string, rest: string)
    requires d != [] && forall i :: 0 <= i < |d| ==> '0' <= d[i] <= '9'
    requires rest == [] || !('0' <= rest[0] <= '9')
    requires !(d == "0" && rest != [] && (rest[0] == 'x' || rest[0] == 'X'))
    ensures (d + rest)[0] == d[0]
    ensures ParseUnsigned(d + rest) == Some(NumeralValue(d, 10))
  {
    var s := d + rest;
    assert !StartsWithHexPrefix(s) by {
      if |d| >= 2 { assert s[1] == d[1]; }
    }
    DigitRun(d, rest);
    assert ParseUnsigned(s) == Some(NumeralValue(DigitPrefix(s, 10), 10));
  }

  /** Without white space or a sign in front, parseInt is the unsigned parse. */
  lemma ParsePositive(s: string)
    requires s != [] && '0' <= s[0] <= '9'
    ensures ParseInt(s) == Signed(false, ParseUnsigned(s))
  {
    assert TrimStart(s) == s;
    assert Unsigned(s) == s;
  }

  /** A '-' in front of a numeral that starts with a digit negates its value. */
  lemma ParseNegative(s: string, v: nat)
    requires s != [] && '0' <= s[0] <= '9'
    requires ParseUnsigned(s) == Some(v)
    ensures ParseInt("-" + s) == Some(-(v as int))
  {
    var m := "-" + s;
    assert m[0] == '-' && m[1..] == s;
    assert TrimStart(m) == m;
    assert Unsigned(m) == s;
  }

  lemma {:induction false} DigitRun(d: string, rest: string)
    requires forall i :: 0 <= i < |d| ==> '0' <= d[i] <= '9'
    requires rest == [] || !('0' <= rest[0] <= '9')
    ensures DigitPrefix(d + rest, 10) == d
  {
    if d != [] {
      assert (d + rest)[1..] == d[1..] + rest;
      DigitRun(d[1..], rest);
    } else {
      assert d + rest == rest;
    }
  }

  /** parseInt reads back every integer's decimal numeral. */
  lemma ParseSignedDecimal(n: int)
    ensures ParseInt(SignedDecimal(n)) == Some(n)
  {
    var k: nat := if n < 0 then -n else n;
    var d := DecimalString(k);
    DecimalValue(k);
    UnsignedDigitsThenRest(d, "");
    assert d + "" == d;
    if n < 0 {
      ParseNegative(d, k);
    } else {
      ParsePositive(d);
    }
  }

  /** An explicit nonzero number in the environment is used as it is, negative or not. */
  lemma NonzeroSettingIsUsed(n: int, default: int)
    requires n != 0
    ensures NumberOr(Some(SignedDecimal(n)), default) == n
  {
    ParseSignedDecimal(n);
  }

  /** An unset variable reads as "undefined", which is NaN. */
  lemma UndefinedIsNaN()
    ensures ParseInt(ToJsString(None)) == None
  {
    var s := "undefined";
    assert TrimStart(s) == s;
    assert Unsigned(s) == s;
    assert !StartsWithHexPrefix(s);
    assert DigitPrefix(s, 10) == [];
  }

  /** An explicit zero, written "0" or "-0", gives the default. */
  lemma ZeroSettingFallsBack(default: int)
    ensures NumberOr(Some("0"), default) == default
    ensures NumberOr(Some("-0"), default) == default
  {
    UnsignedDigitsThenRest("0", "");
    assert "0" + "" == "0";
    ParsePositive("0");
    ParseNegative("0", 0);
  }

  /** An unset variable and an empty value give the default. */
  lemma EmptySettingFallsBack(default: int)
    ensures NumberOr(Some(""), default) == default
    ensures NumberOr(None, default) == default
  {
    UndefinedIsNaN();
    assert TrimStart("") == "";
  }

  /** Trailing units are ignored: "1024px" is 1024. */
  lemma NumberWithUnit(n: nat, default: int)
    requires n != 0
    ensures NumberOr(Some(DecimalString(n) + "px"), default) == n
  {
    DecimalValue(n);
    UnsignedDigitsThenRest(DecimalString(n), "px");
    ParsePositive(DecimalString(n) + "px");
  }

  /** A "0x" prefix is read as hexadecimal, because no radix is passed. */
  lemma HexPrefixIsHexadecimal(default: int)
    ensures NumberOr(Some("0x400"), default) == 1024
  {
    var s := "0x400";
    assert TrimStart(s) == s;
    assert Unsigned(s) == s;
    assert StartsWithHexPrefix(s);
    var h := "400";
    assert s[2..] == h;
    assert DigitPrefix(h, 16) == h by {
      assert h[1..] == "00";
      assert "00"[1..] == "0";
      assert "0"[1..] == "";
    }
    assert NumeralValue(h, 16) == 1024 by {
      assert h[..2] == "40";
      assert "40"[..1] == "4";
      assert "4"[..0] == "";
    }
  }
}
