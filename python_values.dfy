/**
 * The slice of Python's value semantics that the packet classifier depends on:
 * the truthiness test applied to a lookup's result, and the `int(...)` conversion
 * applied to a rule table's keys before they are inserted.
 */
module PyValues {
  import opened Wrappers

  /** A rule payload: whatever value a rule table associates with a field value. */
  datatype PyValue =
    | PyNone
    | PyBool(b: bool)
    | PyInt(i: int)
    | PyStr(s: string)
    | PyList(items: seq<PyValue>)

  /** Python truthiness: `None`, `False`, `0`, `""` and `[]` are falsy. */
  predicate Truthy(v: PyValue) {
    match v
    case PyNone => false
    case PyBool(b) => b
    case PyInt(i) => i != 0
    case PyStr(s) => s != ""
    case PyList(items) => items != []
  }

  /** Truthiness of what `find` hands back: absence is `None`, which is falsy. */
  predicate Hit(r: Option<PyValue>) {
    r.Some? && Truthy(r.value)
  }

  /** A key of a rule dictionary, before `int(...)` is applied to it. */
  datatype DictKey = IntKey(n: int) | StrKey(s: string)

  predicate IsDigit(c: char) {
    '0' <= c <= '9'
  }

  predicate AllDigits(s: string) {
    forall i :: 0 <= i < |s| ==> IsDigit(s[i])
  }

  /** A non-empty run of ASCII decimal digits. */
  predicate IsNumeral(s: string) {
    |s| > 0 && AllDigits(s)
  }

  /** The value of a run of decimal digits, most significant first; leading zeros are allowed. */
  function DigitsValue(s: string): nat
    requires AllDigits(s)
  {
    if s == [] then 0
    else DigitsValue(s[..|s| - 1]) * 10 + (s[|s| - 1] as int - '0' as int)
  }

  /** `int(s)` on a string: an optional sign followed by decimal digits; `None` where Python raises `ValueError`. */
  function ParseInt(s: string): (r: Option<int>)
    ensures r.Some? <==> IsNumeral(s) || (|s| > 0 && (s[0] == '+' || s[0] == '-') && IsNumeral(s[1..]))
    ensures IsNumeral(s) ==> r.Some? && r.value >= 0
    ensures r.Some? && s[0] == '-' ==> r.value <= 0
    ensures r.Some? && s[0] != '-' ==> r.value >= 0
  {
    if |s| > 0 && (s[0] == '+' || s[0] == '-') then
      if IsNumeral(s[1..]) then
        var magnitude: int := DigitsValue(s[1..]);
        Some(if s[0] == '-' then -magnitude else magnitude)
      else None
    else if IsNumeral(s) then Some(DigitsValue(s))
    else None
  }

  /** `int(k)` on a dictionary key. */
  function ToInt(k: DictKey): Option<int> {
    match k
    case IntKey(n) => Some(n)
    case StrKey(s) => ParseInt(s)
  }

  /** An integer key and its decimal string form convert to the same integer, so they collide. */
  lemma IntAndStringKeysCollide(n: int)
    ensures ToInt(StrKey(if n < 0 then "-" + Decimal(-n) else Decimal(n))) == ToInt(IntKey(n)) == Some(n)
  {
    if n < 0 {
      ParseDecimal(-n);
    } else {
      ParseDecimal(n);
    }
  }

  /** `str(n)` for a non-negative integer: its decimal digits without leading zeros. */
  function Decimal(n: nat): (s: string)
    ensures IsNumeral(s)
  {
    if n < 10 then [('0' as int + n) as char]
    else Decimal(n / 10) + [('0' as int + n % 10) as char]
  }

  lemma {:induction false} DecimalValue(n: nat)
    ensures DigitsValue(Decimal(n)) == n
  {
    if n >= 10 {
      var s := Decimal(n);
      assert s[..|s| - 1] == Decimal(n / 10);
      DecimalValue(n / 10);
    }
  }

  /** `int(str(n)) == n` for every integer, negative ones written with a leading minus sign. */
  lemma ParseDecimal(n: nat)
    ensures ParseInt(Decimal(n)) == Some(n)
    ensures ParseInt("-" + Decimal(n)) == Some(0 - n as int)
  {
    DecimalValue(n);
    var s := Decimal(n);
    assert ("-" + s)[1..] == s;
  }

  lemma {:induction false} LeadingZeroDigits(s: string)
    requires AllDigits(s)
    ensures AllDigits("0" + s) && DigitsValue("0" + s) == DigitsValue(s)
  {
    if s != [] {
      assert ("0" + s)[..|s|] == "0" + s[..|s| - 1];
      LeadingZeroDigits(s[..|s| - 1]);
    }
  }

  /**
   * A leading zero does not change what `int(...)` gives, so two distinct string
   * keys such as "1" and "01" convert to the same integer.
   */
  lemma LeadingZero(s: string)
    requires IsNumeral(s)
    ensures ParseInt("0" + s) == ParseInt(s)
  {
    LeadingZeroDigits(s);
  }
}
