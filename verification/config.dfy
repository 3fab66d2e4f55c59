/**
  The process configuration and its overrides from the environment
  variables LABEL_TAG_MAPPING and LISTEN_PORT, each read as JSON.
 */
module Configuration {
  import opened Wrappers
  import opened Json

  /**
    A Go map can be nil (`None`) or an allocated, possibly empty, map;
    iterating a nil map visits nothing.
   */
  datatype Config = Config(labelTagMapping: Option<map<string, string>>, listenPort: int)

  const DefaultMapping: map<string, string> := map["owner" := "owner"]
  const DefaultListenPort: int := 9411
  const DefaultConfig: Config := Config(Some(DefaultMapping), DefaultListenPort)

  /** Bounds of Go's 64-bit `int`. */
  const MinInt: int := -0x8000_0000_0000_0000
  const MaxInt: int := 0x7fff_ffff_ffff_ffff

  predicate IsDigit(c: char)
  {
    '0' <= c <= '9'
  }

  predicate AllDigits(s: string)
  {
    forall i :: 0 <= i < |s| ==> IsDigit(s[i])
  }

  /** The value of a string of decimal digits. */
  function DigitsValue(s: string): nat
    requires AllDigits(s)
  {
    if |s| == 0 then 0
    else DigitsValue(s[..|s| - 1]) * 10 + (s[|s| - 1] as int - '0' as int)
  }

  /**
    `strconv.ParseInt(s, 10, 64)`, which `encoding/json` applies to the
    literal of a number decoded into an `int`: an optional sign, at least
    one digit, and a value that fits in 64 bits.
   */
  function ParseInt(s: string): (r: Option<int>)
    ensures r.Some? ==> MinInt <= r.value <= MaxInt
    ensures r.Some? ==> 0 < |s| && (s[0] == '-' ==> r.value <= 0) && (s[0] != '-' ==> r.value >= 0)
    ensures r.Some? ==> IsDigit(s[0]) || s[0] == '-' || s[0] == '+'
    ensures r.Some? ==> |s| > 1 || IsDigit(s[0])
    ensures r.Some? ==> forall i :: 0 < i < |s| ==> IsDigit(s[i])
    ensures '.' in s || 'e' in s || 'E' in s ==> r.None?
  {
    if |s| == 0 then None
    else
      var negative := s[0] == '-';
      var digits := if s[0] == '-' || s[0] == '+' then s[1..] else s;
      if |digits| == 0 || !AllDigits(digits) then None
      else
        var magnitude: int := DigitsValue(digits);
        var v := if negative then 0 - magnitude else magnitude;
        if MinInt <= v <= MaxInt then Some(v) else None
  }

  /** The decimal digits of `n`, without leading zeros. */
  function FormatNat(n: nat): (s: string)
    ensures |s| > 0 && AllDigits(s)
  {
    var d := ['0' + ((n % 10) as char)];
    if n < 10 then d else FormatNat(n / 10) + d
  }

  /** The decimal literal of `n`, as `strconv.FormatInt(n, 10)` writes it. */
  function FormatInt(n: int): string
  {
    if n < 0 then "-" + FormatNat(-n) else FormatNat(n)
  }

  lemma {:induction false} DigitsOfFormatNat(n: nat)
    ensures DigitsValue(FormatNat(n)) == n
  {
    var s := FormatNat(n);
    if n >= 10 {
      DigitsOfFormatNat(n / 10);
      assert s[..|s| - 1] == FormatNat(n / 10);
    }
  }

  /** Every 64-bit integer is read back from its decimal literal. */
  lemma ParseFormatRoundTrip(n: int)
    requires MinInt <= n <= MaxInt
    ensures ParseInt(FormatInt(n)) == Some(n)
  {
    if n < 0 {
      DigitsOfFormatNat(-n);
      assert FormatInt(n)[1..] == FormatNat(-n);
    } else {
      DigitsOfFormatNat(n);
      assert FormatNat(n)[0] != '-' && FormatNat(n)[0] != '+';
    }
  }

  /**
    Any run of digits, leading zeros included, parses to the value of the
    digits, negated after a minus sign, whenever that value fits in 64 bits.
   */
  lemma ParseDigits(d: string)
    requires |d| > 0 && AllDigits(d)
    ensures DigitsValue(d) <= MaxInt ==> ParseInt(d) == Some(DigitsValue(d))
    ensures DigitsValue(d) <= -MinInt ==> ParseInt("-" + d) == Some(0 - DigitsValue(d) as int)
  {
  }

  /** `-0` and `-00` are the port 0, and a lone sign is no number. */
  lemma SignedZeros()
    ensures ParseInt("-0") == Some(0) && ParseInt("-00") == Some(0)
    ensures ParseInt("-").None? && ParseInt("+").None?
  {
    ParseDigits("0");
    ParseDigits("00");
    assert "-" + "0" == "-0" && "-" + "00" == "-00";
  }

  /** The decimal literal of an integer outside 64 bits is rejected, not clamped. */
  lemma ParseRejectsOutOfRange(n: int)
    requires n < MinInt || n > MaxInt
    ensures ParseInt(FormatInt(n)).None?
  {
    if n < 0 {
      DigitsOfFormatNat(-n);
      assert FormatInt(n)[1..] == FormatNat(-n);
    } else {
      DigitsOfFormatNat(n);
      assert FormatNat(n)[0] != '-' && FormatNat(n)[0] != '+';
    }
  }

  /** The string a member holds once decoded into a Go string: `null` leaves "". */
  function StringOf(j: Json): string
  {
    if j.JString? then j.s else ""
  }

  /**
    Unmarshalling into a `map[string]string`: `null` leaves the map nil,
    an object whose values are strings or `null` gives an allocated map,
    anything else is an error.
   */
  function DecodeStringMap(j: Json): (r: Option<Option<map<string, string>>>)
    ensures j.JNull? ==> r == Some(None)
    ensures j.JObject? ==> (r.Some? <==> forall k :: k in j.fields ==> j.fields[k].JString? || j.fields[k].JNull?)
    ensures r.Some? && r.value.Some? ==> j.JObject? && r.value.value.Keys == j.fields.Keys
    ensures r.Some? && r.value.Some? ==> forall k :: k in j.fields && j.fields[k].JString? ==> r.value.value[k] == j.fields[k].s
    ensures r.Some? && r.value.Some? ==> forall k :: k in j.fields && j.fields[k].JNull? ==> r.value.value[k] == ""
    ensures !j.JObject? && !j.JNull? ==> r.None?
  {
    match j
    case JNull => Some(None)
    case JObject(fields) =>
      if forall k :: k in fields ==> fields[k].JString? || fields[k].JNull? then
        Some(Some(map k | k in fields :: StringOf(fields[k])))
      else None
    case _ => None
  }

  /** A string map serialised as a JSON object decodes back to itself. */
  lemma DecodeEncodeStringMap(m: map<string, string>)
    ensures DecodeStringMap(StringObject(m)) == Some(Some(m))
  {
    var r := DecodeStringMap(StringObject(m)).value.value;
    assert r == m;
  }

  /**
    Unmarshalling into a zero-valued `int`: `null` leaves it 0, a number
    literal must parse as a 64-bit integer, anything else is an error.
   */
  function DecodeInt(j: Json): (r: Option<int>)
    ensures j.JNull? ==> r == Some(0)
    ensures j.JNumber? ==> r == ParseInt(j.literal)
    ensures !j.JNull? && !j.JNumber? ==> r.None?
  {
    match j
    case JNull => Some(0)
    case JNumber(literal) => ParseInt(literal)
    case _ => None
  }

  /** Every 64-bit port is read back from its number literal. */
  lemma DecodeIntRoundTrip(n: int)
    requires MinInt <= n <= MaxInt
    ensures DecodeInt(JNumber(FormatInt(n))) == Some(n)
  {
    ParseFormatRoundTrip(n);
  }

  datatype ConfigError = BadLabelTagMapping | BadListenPort

  /** The mapping override is absent, or is JSON that decodes into a string map. */
  predicate MappingOverrideOk(env: Bytes, unmarshal: Bytes -> Option<Json>)
  {
    |env| == 0 || (unmarshal(env).Some? && DecodeStringMap(unmarshal(env).value).Some?)
  }

  /** The port override is absent, or is JSON that decodes into an int. */
  predicate PortOverrideOk(env: Bytes, unmarshal: Bytes -> Option<Json>)
  {
    |env| == 0 || (unmarshal(env).Some? && DecodeInt(unmarshal(env).value).Some?)
  }

  /**
    The configuration from the two environment values: an empty value
    keeps the default, a non-empty one replaces the field wholesale, and
    a value that does not decode is an error with no partial result.
   */
  function ParseConfigFromEnv(mappingEnv: Bytes, portEnv: Bytes, unmarshal: Bytes -> Option<Json>)
    : (r: Result<Config, ConfigError>)
    ensures r.Success? <==> MappingOverrideOk(mappingEnv, unmarshal) && PortOverrideOk(portEnv, unmarshal)
    ensures r == Failure(BadLabelTagMapping) <==> !MappingOverrideOk(mappingEnv, unmarshal)
    ensures |mappingEnv| == 0 && |portEnv| == 0 ==> r == Success(DefaultConfig)
    ensures r.Success? && |mappingEnv| == 0 ==> r.value.labelTagMapping == Some(DefaultMapping)
    ensures r.Success? && |mappingEnv| > 0 ==>
      DecodeStringMap(unmarshal(mappingEnv).value) == Some(r.value.labelTagMapping)
    ensures r.Success? && |portEnv| == 0 ==> r.value.listenPort == DefaultListenPort
    ensures r.Success? && |portEnv| > 0 ==> DecodeInt(unmarshal(portEnv).value) == Some(r.value.listenPort)
  {
    var mapping :=
      if |mappingEnv| == 0 then Success(DefaultConfig.labelTagMapping)
      else match unmarshal(mappingEnv)
        case None => Failure(BadLabelTagMapping)
        case Some(j) =>
          match DecodeStringMap(j)
          case None => Failure(BadLabelTagMapping)
          case Some(m) => Success(m);
    if mapping.Failure? then Failure(mapping.error)
    else
      var port :=
        if |portEnv| == 0 then Success(DefaultConfig.listenPort)
        else match unmarshal(portEnv)
          case None => Failure(BadListenPort)
          case Some(j) =>
            match DecodeInt(j)
            case None => Failure(BadListenPort)
            case Some(p) => Success(p);
      if port.Failure? then Failure(port.error)
      else Success(Config(mapping.value, port.value))
  }

  /** The override `{}` gives an allocated, empty mapping rather than a nil one. */
  lemma EmptyObjectOverride(mappingEnv: Bytes, portEnv: Bytes, unmarshal: Bytes -> Option<Json>)
    requires |mappingEnv| > 0 && unmarshal(mappingEnv) == Some(JObject(map[]))
    requires PortOverrideOk(portEnv, unmarshal)
    ensures ParseConfigFromEnv(mappingEnv, portEnv, unmarshal).Success?
    ensures ParseConfigFromEnv(mappingEnv, portEnv, unmarshal).value.labelTagMapping == Some(map[])
  {
  }
}
