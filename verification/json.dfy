/** JSON values as they arrive in request bodies, and the three JavaScript coercions the
    server applies to them: truthiness (`!x`), `String(x)` and `Number(x)`. Only integral
    numbers are represented: fractional JSON numbers are outside this model. */
module Json {

  import Text
  import Seqs

  datatype Json =
    | JNull
    | JBool(b: bool)
    | JNum(n: int)
    | JStr(s: string)
    | JArr(items: seq<Json>)
    | JObj(fields: map<string, Json>)

  /** JavaScript truthiness of a property read, `None` standing for `undefined`:
      `undefined`, `null`, `false`, `0` and `""` are falsy; arrays and objects, even
      empty ones, are truthy. */
  predicate Truthy(v: Seqs.Option<Json>)
  {
    match v
    case None => false
    case Some(JNull) => false
    case Some(JBool(b)) => b
    case Some(JNum(n)) => n != 0
    case Some(JStr(s)) => s != []
    case Some(JArr(_)) => true
    case Some(JObj(_)) => true
  }

  function DigitChar(d: nat): (c: char)
    requires d < 10
    ensures '0' <= c <= '9'
  {
    ('0' as int + d) as char
  }

  /** The decimal digits of a natural number, most significant first, no leading zero. */
  function NatToDecimal(n: nat): (s: string)
    ensures |s| > 0
    ensures forall i :: 0 <= i < |s| ==> '0' <= s[i] <= '9'
    decreases n
  {
    if n < 10 then [DigitChar(n)] else NatToDecimal(n / 10) + [DigitChar(n % 10)]
  }

  /** `String(n)` for an integer. */
  function IntToString(n: int): string
  {
    if n < 0 then "-" + NatToDecimal(-n) else NatToDecimal(n)
  }

  /** `String(v)`: array elements are joined with `,`, `null` elements print as nothing,
      and every object prints as `[object Object]`. */
  function JsString(v: Json): string
    decreases v, 1
  {
    match v
    case JNull => "null"
    case JBool(b) => if b then "true" else "false"
    case JNum(n) => IntToString(n)
    case JStr(s) => s
    case JArr(items) => JoinItems(items, v)
    case JObj(_) => "[object Object]"
  }

  /** `items.join(',')` where `items` are the elements of the array `whole`. */
  function JoinItems(items: seq<Json>, ghost whole: Json): string
    requires forall i :: 0 <= i < |items| ==> items[i] < whole
    decreases whole, 0, |items|
  {
    if items == [] then []
    else
      var head := if items[0].JNull? then "" else JsString(items[0]);
      if |items| == 1 then head else head + "," + JoinItems(items[1..], whole)
  }

  /** The numeric value `Number(x)` produces, as far as it can equal a record id: an
      integer, or something that equals no integer (`NaN`, an infinity or a fraction). */
  datatype Numeric = Int(value: int) | NonInteger

  predicate IsDigit(c: char)
  {
    '0' <= c <= '9'
  }

  predicate AllDigits(s: string)
  {
    forall i :: 0 <= i < |s| ==> IsDigit(s[i])
  }

  /** Value of a string of decimal digits, read left to right. */
  function DecimalValue(s: string): nat
    requires AllDigits(s)
  {
    if s == [] then 0
    else DecimalValue(s[..|s| - 1]) * 10 + (s[|s| - 1] as int - '0' as int)
  }

  /** `Number(s)` for a string: surrounding white space is ignored, a blank string is 0,
      and an optionally signed run of decimal digits is that integer. */
  function StringToNumber(s: string): Numeric
  {
    ParseNumeral(Text.Trim(s))
  }

  /** The numeral grammar `Number` applies once white space is trimmed away. */
  function ParseNumeral(t: string): Numeric
  {
    if t == [] then Int(0)
    else if AllDigits(t) then Int(DecimalValue(t))
    else if (t[0] == '-' || t[0] == '+') && |t| > 1 && AllDigits(t[1..]) then
      (if t[0] == '-' then Int(0 - DecimalValue(t[1..]) as int) else Int(DecimalValue(t[1..])))
    else NonInteger
  }

  /** `Number(v)`: `null` is 0, booleans are 0 and 1, strings are parsed, arrays go
      through their string form, and objects are `NaN`. */
  function ToNumber(v: Json): Numeric
  {
    match v
    case JNull => Int(0)
    case JBool(b) => Int(if b then 1 else 0)
    case JNum(n) => Int(n)
    case JStr(s) => StringToNumber(s)
    case JArr(_) => StringToNumber(JsString(v))
    case JObj(_) => NonInteger
  }

  lemma DigitIsNotWhiteSpace(c: char)
    requires '0' <= c <= '9'
    ensures !Text.IsWhiteSpace(c)
  {
  }

  lemma {:induction false} DecimalValueOfNat(n: nat)
    ensures DecimalValue(NatToDecimal(n)) == n
    decreases n
  {
    var s := NatToDecimal(n);
    if n >= 10 {
      DecimalValueOfNat(n / 10);
      assert s[..|s| - 1] == NatToDecimal(n / 10);
    }
  }

  /** Round trip of the string id coercion: a client that sends an id as its decimal
      string gets the same integer back from `Number`. */
  lemma StringToNumberRoundTrip(n: int)
    ensures StringToNumber(IntToString(n)) == Int(n)
  {
    if n < 0 {
      NegativeRoundTrip(n);
    } else {
      NaturalRoundTrip(n);
    }
  }

  lemma NaturalRoundTrip(n: nat)
    ensures StringToNumber(NatToDecimal(n)) == Int(n)
  {
    var s := NatToDecimal(n);
    DigitIsNotWhiteSpace(s[0]);
    DigitIsNotWhiteSpace(s[|s| - 1]);
    Text.TrimUnpadded(s);
    DecimalValueOfNat(n);
    assert AllDigits(s);
  }

  lemma NegativeRoundTrip(n: int)
    requires n < 0
    ensures StringToNumber("-" + NatToDecimal(-n)) == Int(n)
  {
    var d := NatToDecimal(-n);
    var s := "-" + d;
    DigitIsNotWhiteSpace(d[|d| - 1]);
    assert s[|s| - 1] == d[|d| - 1];
    Text.TrimUnpadded(s);
    NegativeNumeral(n);
  }

  lemma NegativeNumeral(n: int)
    requires n < 0
    ensures ParseNumeral("-" + NatToDecimal(-n)) == Int(n)
  {
    var d := NatToDecimal(-n);
    var s := "-" + d;
    DecimalValueOfNat(-n);
    assert s[1..] == d;
    assert !IsDigit(s[0]);
  }

  /** `Number` of a one-element array is `Number` of its element when that element is a
      string: `Number(["7"])` is 7. */
  lemma SingletonArrayNumber(s: string)
    ensures ToNumber(JArr([JStr(s)])) == ToNumber(JStr(s))
  {
    var v := JArr([JStr(s)]);
    assert JoinItems([JStr(s)], v) == s;
  }

  /** An array of two or more elements never coerces to an integer: its string form
      contains a comma. */
  lemma LongArrayIsNotInteger(items: seq<Json>)
    requires |items| >= 2
    ensures ToNumber(JArr(items)) == NonInteger
  {
    var v := JArr(items);
    var head := if items[0].JNull? then "" else JsString(items[0]);
    var s := JsString(v);
    assert s == JoinItems(items, v);
    assert JoinItems(items, v) == head + "," + JoinItems(items[1..], v);
    assert s[|head|] == ',';
    Text.TrimKeepsVisible(s, |head|);
    CommaIsNotNumeral(Text.Trim(s));
  }

  /** A comma never appears in a numeral. */
  lemma CommaIsNotNumeral(t: string)
    requires ',' in t
    ensures ParseNumeral(t) == NonInteger
  {
    var k :| 0 <= k < |t| && t[k] == ',';
    assert !IsDigit(t[k]);
    if k > 0 {
      assert t[1..][k - 1] == ',';
    }
  }
}
