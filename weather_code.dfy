/**
 * The weather-code translation done for every forecast row: the numeric
 * WMO code becomes a two-digit key, the key is looked up in the static
 * code-to-description table, and the raw code is shown when no usable
 * description is found.
 */
module WeatherCode {
  import opened Wrappers
  import opened Decimal

  /** The code-to-description table (`WeatherCodeStatus`), keyed by zero-padded code text. */
  type CodeTable = map<string, string>

  /** What a row shows after "Weather :": a description, or the raw numeric code. */
  datatype Shown = Status(text: string) | RawCode(code: int)

  /**
   * The lookup key: the code's decimal text, with a '0' put in front when
   * that text is shorter than two characters.
   */
  function CodeKey(code: int): (key: string)
    ensures |key| >= 2
    ensures 0 <= code < 10 ==> key == ['0', DigitChar(code)]
    ensures (code < 0 || 10 <= code) ==> key == IntToString(code)
  {
    var codeString := IntToString(code);
    if |codeString| < 2 then "0" + codeString else codeString
  }

  /** Text of the shape CodeKey produces: optionally a minus sign, then digits. */
  predicate IsKeyText(key: string) {
    if |key| > 0 && key[0] == '-' then |key| > 1 && AllDigits(key[1..])
    else AllDigits(key)
  }

  /** Reads a key back into the code it stands for. */
  function ParseKey(key: string): (code: int)
    requires IsKeyText(key)
  {
    if |key| > 0 && key[0] == '-' then -(ParseNat(key[1..]) as int) else ParseNat(key)
  }

  /** Every code's key reads back as that code, padding included. */
  lemma {:induction false} CodeKeyRoundTrip(code: int)
    ensures IsKeyText(CodeKey(code)) && ParseKey(CodeKey(code)) == code
  {
    var key := CodeKey(code);
    if code < 0 {
      ParseNatToString(-code);
    } else {
      var text := NatToString(code);
      ParseNatToString(code);
      if code < 10 {
        ParseNatLeadingZero(text);
      }
    }
  }

  /** Distinct codes never share a key, so each code reaches its own table entry. */
  lemma CodeKeyInjective(a: int, b: int)
    requires CodeKey(a) == CodeKey(b)
    ensures a == b
  {
    CodeKeyRoundTrip(a);
    CodeKeyRoundTrip(b);
  }

  /**
   * `weatherStatus` as the row computes it: the empty string while the table
   * is not loaded, else the table's entry for the key, with None standing for
   * the `undefined` of a missing entry.
   */
  function WeatherStatus(table: Option<CodeTable>, code: int): (status: Option<string>)
    ensures table.None? ==> status == Some("")
    ensures table.Some? && CodeKey(code) !in table.value ==> status == None
    ensures table.Some? && CodeKey(code) in table.value ==> status == Some(table.value[CodeKey(code)])
  {
    match table
    case None => Some("")
    case Some(t) =>
      var key := CodeKey(code);
      if key in t then Some(t[key]) else None
  }

  /** The weather shown for a code: a truthy status, otherwise the raw code. */
  function ShownWeather(table: Option<CodeTable>, code: int): (shown: Shown)
    ensures shown.Status? <==>
      table.Some? && CodeKey(code) in table.value && table.value[CodeKey(code)] != ""
    ensures shown.Status? ==> shown.text == table.value[CodeKey(code)] && shown.text != ""
    ensures shown.RawCode? ==> shown.code == code
  {
    var status := WeatherStatus(table, code);
    if status.Some? && status.value != "" then Status(status.value) else RawCode(code)
  }

  /** The worked cases: 61 keeps its text, 3 becomes "03", a missing 99 shows 99. */
  lemma KeyExamples(table: CodeTable)
    requires "99" !in table
    ensures CodeKey(61) == "61" && CodeKey(3) == "03"
    ensures ShownWeather(Some(table), 99) == RawCode(99)
  {
    assert NatToString(6) == "6";
    assert NatToString(61) == "61";
    assert NatToString(9) == "9";
    assert NatToString(99) == "99";
  }
}
