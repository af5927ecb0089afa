/** The Python values the core handles (decoded JSON, database cells, keyword arguments),
    their truthiness, and the built-in conversions `str(v)` and `int(v)`. */
module Values {
  import opened Base
  import opened Text

  /** A Python value: what `json.loads` produces, plus the `datetime` a timestamp column yields
      (kept as its count of microseconds). */
  datatype Value =
    | Null
    | Bool(b: bool)
    | Int(i: int)
    | Str(s: string)
    | List(items: seq<Value>)
    | Dict(entries: map<string, Value>)
    | DateTime(micros: int)

  /** The values a seat count is passed as: `None`, a boolean, an integer or a string. */
  type Scalar = v: Value | v.Null? || v.Bool? || v.Int? || v.Str? witness Null

  /** Python's `bool(v)`, the test behind `if v:` and `not v`: a number is true when it is not
      zero, a string or container when it is not empty. */
  function Truthy(v: Value): (t: bool)
    ensures v.Null? ==> !t
    ensures v.Bool? || v.Int? ==> (t <==> ToInt(v) != Ok(0))
    ensures v.Str? ==> (t <==> Filled(Some(v.s)))
    ensures v.DateTime? ==> t
  {
    match v
    case Null => false
    case Bool(b) => b
    case Int(i) => i != 0
    case Str(s) => s != []
    case List(items) => items != []
    case Dict(entries) => |entries| != 0
    case DateTime(_) => true
  }

  /** Truthiness of an optional string argument: present and not empty. */
  predicate Filled(s: Option<string>) {
    s.Some? && s.value != []
  }

  /** Python's `str(v)`, which is also what an f-string inserts for `{v}`: the text of an
      integer is a canonical numeral that reads back as that integer (which determines it, see
      `StrOfIntDetermined`). */
  function ToStr(v: Scalar): (r: string)
    ensures v.Null? ==> r == "None"
    ensures v.Bool? ==> r == (if v.b then "True" else "False")
    ensures v.Int? ==> IsCanonicalNumeral(r) && ParseDecimal(r) == Some(v.i) && Strip(r) == r
    ensures v.Str? ==> r == v.s
  {
    if v.Null? then "None"
    else if v.Bool? then (if v.b then "True" else "False")
    else if v.Int? then
      DecimalRoundTrip(v.i);
      DecimalIsStripped(v.i);
      Decimal(v.i)
    else v.s
  }

  const IntOfNoneMessage: string :=
    "int() argument must be a string, a bytes-like object or a real number, not 'NoneType'"

  /** Python's `int(v)`: `None` raises TypeError, a string that is not an optionally signed
      decimal numeral, once the whitespace `int()` skips is dropped, raises ValueError. */
  function ToInt(v: Scalar): (r: Result<int>)
    ensures r.Err? <==> v.Null? || (v.Str? && ParseDecimal(IntStrip(v.s)).None?)
    ensures v.Int? ==> r == Ok(v.i)
    ensures v.Bool? ==> r == Ok(if v.b then 1 else 0)
    ensures v.Str? && r.Ok? ==> r.value == ParseDecimal(IntStrip(v.s)).value
  {
    if v.Null? then Err(TypeError(IntOfNoneMessage))
    else if v.Bool? then Ok(if v.b then 1 else 0)
    else if v.Int? then Ok(v.i)
    else
      match ParseDecimal(IntStrip(v.s))
      case Some(n) => Ok(n)
      case None => Err(ValueError("invalid literal for int() with base 10: '" + v.s + "'"))
  }

  /** `int(str(n)) == n` for every integer `n`. */
  lemma IntOfStrOfInt(n: int)
    ensures ToInt(Str(ToStr(Int(n)))) == Ok(n)
  {
    var d := Decimal(n);
    DecimalIsStripped(n);
    DecimalRoundTrip(n);
    assert ToStr(Int(n)) == d;
    assert ParseDecimal(IntStrip(d)) == Some(n);
  }

  /** The integer clause of `ToStr` pins `str(n)` down: the only canonical numeral that reads back
      as `n` is `str(n)`. */
  lemma StrOfIntDetermined(n: int, s: string)
    requires IsCanonicalNumeral(s) && ParseDecimal(s) == Some(n)
    ensures s == ToStr(Int(n))
  {
    CanonicalNumeralIsDecimal(s, n);
  }

  /** `int()` does not skip the ASCII separators U+001C to U+001F that `strip()` removes: a
      string that begins with one is rejected, as `int("\x1c1")` raises ValueError while
      `"\x1c1".strip()` is "1". */
  lemma LeadingSeparatorRejected(s: string)
    requires |s| > 0 && '\U{1C}' <= s[0] <= '\U{1F}'
    ensures Strip(s) == Strip(s[1..])
    ensures ToInt(Str(s)).Err?
  {
    assert Strip(s) == Strip(s[1..]) by {
      assert [s[0]] + s[1..] + [] == s;
      StripIgnoresPadding([s[0]], s[1..], []);
    }
    assert LStrip(s, IsIntSpace) == s;
    var r := IntStrip(s);
    assert r == s[..|r|];
    if r != [] {
      assert r[0] == s[0];
      assert !AllDigits(r) && r[0] != '+' && r[0] != '-';
    }
  }

  /** `str(n) == "1"` exactly when the integer `n` is one. */
  lemma StrOfIntIsOne(n: int)
    ensures ToStr(Int(n)) == "1" <==> n == 1
  {
    DecimalOne();
    if Decimal(n) == "1" {
      DecimalInjective(n, 1);
    }
  }
}
