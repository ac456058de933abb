/**
 * JavaScript values as they reach the core: parsed JSON request bodies and
 * parsed config files.  JavaScript numbers are modelled as integers.
 */
module Json {
  import opened Wrappers

  /** A JavaScript value; `Undefined` is what reading a missing property gives. */
  datatype Value =
    | Undefined
    | Null
    | Bool(b: bool)
    | Num(n: int)
    | Str(s: string)
    | Arr(items: seq<Value>)
    | Obj(fields: map<string, Value>)

  /** `typeof v === 'object'` (true of `null` and of arrays too). */
  predicate IsObjectType(v: Value) {
    v.Null? || v.Arr? || v.Obj?
  }

  /** JavaScript truthiness (`!v` is its negation). */
  predicate Truthy(v: Value) {
    match v
    case Undefined => false
    case Null => false
    case Bool(b) => b
    case Num(n) => n != 0
    case Str(s) => s != ""
    case Arr(_) => true
    case Obj(_) => true
  }

  // ---------------------------------------------------------------------
  // Decimal digits and the canonical string of an array index
  // ---------------------------------------------------------------------

  predicate IsDigit(c: char) {
    '0' <= c <= '9'
  }

  predicate AllDigits(s: string) {
    forall i :: 0 <= i < |s| ==> IsDigit(s[i])
  }

  function DigitChar(d: nat): (c: char)
    requires d < 10
    ensures IsDigit(c) && c as int - '0' as int == d
  {
    ('0' as int + d) as char
  }

  /** The decimal value of a string of digits, most significant first. */
  function DigitsValue(s: string): nat
    requires AllDigits(s)
  {
    if s == [] then 0
    else DigitsValue(s[..|s| - 1]) * 10 + (s[|s| - 1] as int - '0' as int)
  }

  /** `String(n)` for a natural number: its canonical decimal form. */
  function NatToString(n: nat): (s: string)
    ensures s != [] && AllDigits(s)
  {
    if n < 10 then [DigitChar(n)]
    else NatToString(n / 10) + [DigitChar(n % 10)]
  }

  /** Reading back the decimal form of `n` gives `n`. */
  lemma {:induction false} NatToStringRoundTrip(n: nat)
    ensures DigitsValue(NatToString(n)) == n
  {
    if n >= 10 {
      var s := NatToString(n / 10);
      NatToStringRoundTrip(n / 10);
      assert (s + [DigitChar(n % 10)])[..|s|] == s;
    }
  }

  /** Distinct indices have distinct keys, so an array spread never loses an element. */
  lemma NatToStringInjective(i: nat, j: nat)
    requires NatToString(i) == NatToString(j)
    ensures i == j
  {
    NatToStringRoundTrip(i);
    NatToStringRoundTrip(j);
  }

  // ---------------------------------------------------------------------
  // Number(): string-to-number coercion
  // ---------------------------------------------------------------------

  /** The ASCII white space that `Number()` strips from both ends of a string. */
  predicate IsSpace(c: char) {
    c == ' ' || c == '\t' || c == '\n' || c == '\r'
  }

  function TrimStart(s: string): (r: string)
    ensures r == [] || !IsSpace(r[0])
    ensures |r| <= |s| && r == s[|s| - |r|..]
  {
    if s != [] && IsSpace(s[0]) then TrimStart(s[1..]) else s
  }

  function TrimEnd(s: string): (r: string)
    ensures r == [] || !IsSpace(r[|r| - 1])
    ensures |r| <= |s| && r == s[..|r|]
  {
    if s != [] && IsSpace(s[|s| - 1]) then TrimEnd(s[..|s| - 1]) else s
  }

  /** An optionally signed, non-empty run of decimal digits. */
  predicate IsIntegerText(t: string) {
    (t != [] && AllDigits(t)) || (|t| > 1 && (t[0] == '-' || t[0] == '+') && AllDigits(t[1..]))
  }

  /**
   * `Number(s)` for a string: surrounding white space is ignored, the empty
   * string is 0, and an optionally signed run of decimal digits is its value;
   * anything else is NaN (`None`).
   */
  function ParseNumber(s: string): (r: Option<int>)
    ensures TrimEnd(TrimStart(s)) == [] ==> r == Some(0)
    ensures r.None? <==> TrimEnd(TrimStart(s)) != [] && !IsIntegerText(TrimEnd(TrimStart(s)))
    ensures AllDigits(s) && s != [] ==> r == Some(DigitsValue(s))
  {
    var t := TrimEnd(TrimStart(s));
    if t == [] then Some(0)
    else if t[0] == '-' && |t| > 1 && AllDigits(t[1..]) then Some(0 - DigitsValue(t[1..]) as int)
    else if t[0] == '+' && |t| > 1 && AllDigits(t[1..]) then Some(DigitsValue(t[1..]))
    else if AllDigits(t) then Some(DigitsValue(t))
    else None
  }

  /** `String(i)` for an integer. */
  function IntToString(i: int): (s: string)
    ensures s != []
  {
    if i < 0 then "-" + NatToString(-i) else NatToString(i)
  }

  /** `Number(String(i)) == i`: the coercion reads back every integer it could be given. */
  lemma IntToStringRoundTrip(i: int)
    ensures ParseNumber(IntToString(i)) == Some(i)
  {
    var s := IntToString(i);
    if i < 0 {
      NatToStringRoundTrip(-i);
      assert s[1..] == NatToString(-i);
    } else {
      NatToStringRoundTrip(i);
    }
    assert TrimStart(s) == s;
    assert TrimEnd(s) == s;
  }

  /**
   * `Number(v)`: `None` stands for NaN.  `undefined` and plain objects are NaN,
   * `null` and `false` are 0, `true` is 1, an array is read through its string
   * form (`''` for the empty array, the element's own form for a one-element
   * array, and a string with a comma, hence NaN, for longer ones).
   */
  function ToNumber(v: Value): (r: Option<int>)
    ensures v.Undefined? || v.Obj? ==> r == None
    ensures v.Null? ==> r == Some(0)
    ensures v.Num? ==> r == Some(v.n)
    ensures v.Bool? ==> r == Some(if v.b then 1 else 0)
    ensures v.Str? ==> r == ParseNumber(v.s)
    ensures v.Arr? && |v.items| > 1 ==> r == None
  {
    match v
    case Undefined => None
    case Null => Some(0)
    case Bool(b) => Some(if b then 1 else 0)
    case Num(n) => Some(n)
    case Str(s) => ParseNumber(s)
    case Arr(items) =>
      if items == [] then Some(0)
      else if |items| > 1 then None
      else (match items[0]
        case Undefined => Some(0)
        case Null => Some(0)
        case Bool(_) => None
        case Obj(_) => None
        case _ => ToNumber(items[0]))
    case Obj(_) => None
  }

  // ---------------------------------------------------------------------
  // Own enumerable properties: object spread and property reads
  // ---------------------------------------------------------------------

  /** The index-keyed properties of an array (or of a string's characters). */
  function Indexed(items: seq<Value>): (m: map<string, Value>)
    ensures forall i :: 0 <= i < |items| ==> NatToString(i) in m && m[NatToString(i)] == items[i]
    ensures forall k :: k in m ==> exists i :: 0 <= i < |items| && k == NatToString(i)
  {
    if items == [] then map[]
    else
      var n := |items| - 1;
      var m := Indexed(items[..n]);
      forall i | 0 <= i < n ensures NatToString(i) != NatToString(n) {
        if NatToString(i) == NatToString(n) { NatToStringInjective(i, n); }
      }
      m[NatToString(n) := items[n]]
  }

  /** The properties `{...v}` copies: an object's fields, the indices of an array or string, none for the other primitives. */
  function Spread(v: Value): (m: map<string, Value>)
    ensures v.Obj? ==> m == v.fields
    ensures !(v.Obj? || v.Arr? || v.Str?) ==> m == map[]
    ensures v.Arr? ==> |m| == |v.items|
    ensures v.Arr? ==> forall i :: 0 <= i < |v.items| ==> NatToString(i) in m && m[NatToString(i)] == v.items[i]
    ensures v.Arr? ==> forall k :: k in m ==> exists i :: 0 <= i < |v.items| && k == NatToString(i)
    ensures v.Str? ==> forall i :: 0 <= i < |v.s| ==> NatToString(i) in m && m[NatToString(i)] == Str([v.s[i]])
    ensures v.Str? ==> forall k :: k in m ==> exists i :: 0 <= i < |v.s| && k == NatToString(i)
  {
    match v
    case Obj(fields) => fields
    case Arr(items) => IndexedSize(items); Indexed(items)
    case Str(s) => Indexed(seq(|s|, i requires 0 <= i < |s| => Str([s[i]])))
    case _ => map[]
  }

  /** An array of n elements spreads to exactly n keys. */
  lemma {:induction false} IndexedSize(items: seq<Value>)
    ensures |Indexed(items)| == |items|
  {
    if items != [] {
      var n := |items| - 1;
      IndexedSize(items[..n]);
      assert NatToString(n) !in Indexed(items[..n]) by {
        if NatToString(n) in Indexed(items[..n]) {
          var i :| 0 <= i < n && NatToString(n) == NatToString(i);
          NatToStringInjective(i, n);
        }
      }
    }
  }

  /** `v[key]` on a value other than `null`/`undefined` (reading either of those throws). */
  function Get(v: Value, key: string): (r: Value)
    requires !v.Null? && !v.Undefined?
    ensures v.Obj? ==> r == (if key in v.fields then v.fields[key] else Undefined)
    ensures key !in Spread(v) ==> r == Undefined
  {
    var m := Spread(v);
    if key in m then m[key] else Undefined
  }
}
