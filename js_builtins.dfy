/** The JavaScript built-ins the core leans on, stated once: the values JSON.parse can
    hand back, truthiness and `typeof`, `parseInt`, `String(n)` for integers,
    `String.prototype.includes`/`startsWith` and `Array.prototype.slice(-n)`. */
module JsBuiltins {

  datatype Option<+T> = None | Some(value: T)

  /** A JavaScript value as JSON.parse produces it, plus `undefined`.
      Numbers are integers in this model. */
  datatype JsValue =
    | Undefined
    | Null
    | Bool(b: bool)
    | Num(n: int)
    | Str(s: string)
    | Arr(items: seq<JsValue>)
    | Obj(fields: map<string, JsValue>)

  /** `!!v` */
  predicate Truthy(v: JsValue) {
    match v
    case Undefined => false
    case Null => false
    case Bool(b) => b
    case Num(n) => n != 0
    case Str(s) => s != ""
    case _ => true
  }

  /** `typeof v === 'object'`; as in JavaScript this holds for `null` too. */
  predicate IsObjectType(v: JsValue) {
    v.Null? || v.Arr? || v.Obj?
  }

  /** The property read `v[key]`: undefined when `v` has no such own field. */
  function Prop(v: JsValue, key: string): JsValue {
    if v.Obj? && key in v.fields then v.fields[key] else Undefined
  }

  /** `v || d` */
  function OrElse(v: JsValue, d: JsValue): JsValue {
    if Truthy(v) then v else d
  }

  // ---------------------------------------------------------------------------
  // String(n) for integers

  predicate IsDecimalDigit(c: char) {
    '0' <= c <= '9'
  }

  function DigitChar(d: nat): (c: char)
    requires d < 10
    ensures IsDecimalDigit(c) && c as int - '0' as int == d
  {
    ('0' as int + d) as char
  }

  /** Decimal spelling of a natural number, most significant digit first. */
  function NatToString(n: nat): (s: string)
    ensures |s| > 0
    ensures forall i :: 0 <= i < |s| ==> IsDecimalDigit(s[i])
    decreases n
  {
    if n < 10 then [DigitChar(n)] else NatToString(n / 10) + [DigitChar(n % 10)]
  }

  /** `String(n)` */
  function IntToString(n: int): string {
    if n < 0 then "-" + NatToString(-n) else NatToString(n)
  }

  // ---------------------------------------------------------------------------
  // parseInt(s) with no radix argument

  /** The white-space characters parseInt skips before the number: the
      ECMAScript WhiteSpace and LineTerminator characters, space separators
      (category Zs) included. */
  predicate IsSpace(c: char) {
    || c in {' ', '\t', '\n', '\r', '\U{000B}', '\U{000C}', '\U{00A0}', '\U{FEFF}', '\U{2028}', '\U{2029}'}
    || c in {'\U{1680}', '\U{202F}', '\U{205F}', '\U{3000}'}
    || '\U{2000}' <= c <= '\U{200A}'
  }

  function TrimStart(s: string): (r: string)
    ensures |r| <= |s| && r == s[|s| - |r|..]
    ensures r == [] || !IsSpace(r[0])
  {
    if s != [] && IsSpace(s[0]) then TrimStart(s[1..]) else s
  }

  /** The value of a digit in radix 16 (which covers radix 10), or -1. */
  function DigitValue(c: char): (d: int)
    ensures -1 <= d < 16
  {
    if '0' <= c <= '9' then c as int - '0' as int
    else if 'a' <= c <= 'f' then c as int - 'a' as int + 10
    else if 'A' <= c <= 'F' then c as int - 'A' as int + 10
    else -1
  }

  predicate IsDigitIn(c: char, radix: nat) {
    0 <= DigitValue(c) < radix
  }

  /** Length of the longest prefix of `s` made of radix digits. */
  function LeadingDigits(s: string, radix: nat): (k: nat)
    ensures k <= |s|
    ensures forall i :: 0 <= i < k ==> IsDigitIn(s[i], radix)
    ensures k < |s| ==> !IsDigitIn(s[k], radix)
  {
    if s == [] || !IsDigitIn(s[0], radix) then 0 else 1 + LeadingDigits(s[1..], radix)
  }

  /** Positional value of a string of radix digits (a non-digit counts as 0;
      parseInt only ever applies it to digits). */
  function DigitsValue(ds: string, radix: nat): nat {
    if ds == [] then 0
    else
      var d := DigitValue(ds[|ds| - 1]);
      var low: nat := if d < 0 then 0 else d;
      DigitsValue(ds[..|ds| - 1], radix) * radix + low
  }

  /** `u` starts with "0x" or "0X". */
  predicate HexPrefixed(u: string) {
    |u| >= 2 && u[0] == '0' && (u[1] == 'x' || u[1] == 'X')
  }

  /** The unsigned part of parseInt: a "0x"/"0X" prefix switches to radix 16,
      then the longest run of digits is read; NaN (None) when it is empty.
      Anything after the digits is ignored. */
  function ParseUnsigned(u: string): (r: Option<nat>)
    ensures u == [] ==> r.None?
    ensures u != [] && IsDecimalDigit(u[0]) && !HexPrefixed(u) ==> r.Some?
  {
    var hex := HexPrefixed(u);
    var radix := if hex then 16 else 10;
    var body := if hex then u[2..] else u;
    var k := LeadingDigits(body, radix);
    if k == 0 then None else Some(DigitsValue(body[..k], radix))
  }

  /** parseInt after the leading white space: an optional sign, then the
      unsigned part. */
  function ParseSigned(t: string): (r: Option<int>)
    ensures t == [] ==> r.None?
    ensures t != [] && IsDecimalDigit(t[0]) && !HexPrefixed(t) ==> r.Some? && r.value >= 0
    ensures r.Some? && r.value < 0 ==> t[0] == '-'
  {
    var negative := t != [] && t[0] == '-';
    var u := if t != [] && (t[0] == '-' || t[0] == '+') then t[1..] else t;
    match ParseUnsigned(u)
    case None => None
    case Some(m) =>
      var v: int := m;
      Some(if negative then -v else v)
  }

  /** `parseInt(s)` with no radix argument. */
  function ParseInt(s: string): (r: Option<int>)
    ensures TrimStart(s) == [] ==> r.None?
    ensures var t := TrimStart(s); t != [] && IsDecimalDigit(t[0]) && !HexPrefixed(t) ==> r.Some? && r.value >= 0
    ensures r.Some? && r.value < 0 ==> TrimStart(s)[0] == '-'
  {
    ParseSigned(TrimStart(s))
  }

  /** `parseInt(v) || 0`, where an absent value reads as `undefined` (NaN). */
  function ParseIntOrZero(v: Option<string>): (r: int)
    ensures v.Some? && ParseInt(v.value).Some? ==> r == ParseInt(v.value).value
    ensures r != 0 ==> v.Some? && ParseInt(v.value) == Some(r)
  {
    if v.None? then 0
    else match ParseInt(v.value)
      case None => 0
      case Some(n) => n
  }

  /** The digit run of `d + rest` is exactly `d` when `rest` does not go on with a digit. */
  lemma {:induction false} LeadingDigitsOfAppend(d: string, rest: string, radix: nat)
    requires forall i :: 0 <= i < |d| ==> IsDigitIn(d[i], radix)
    requires rest == [] || !IsDigitIn(rest[0], radix)
    ensures LeadingDigits(d + rest, radix) == |d|
  {
    if d != [] {
      LeadingDigitsOfAppend(d[1..], rest, radix);
      assert (d + rest)[1..] == d[1..] + rest;
    } else {
      assert d + rest == rest;
    }
  }

  lemma {:induction false} DecimalValueOfNatToString(n: nat)
    ensures forall i :: 0 <= i < |NatToString(n)| ==> IsDigitIn(NatToString(n)[i], 10)
    ensures DigitsValue(NatToString(n), 10) == n
    decreases n
  {
    var s := NatToString(n);
    if n >= 10 {
      DecimalValueOfNatToString(n / 10);
      assert s[..|s| - 1] == NatToString(n / 10);
    }
  }

  /** A character that ends the number parseInt reads after a decimal spelling. */
  predicate EndsNumber(rest: string) {
    rest == [] || (!IsDigitIn(rest[0], 10) && rest[0] != 'x' && rest[0] != 'X')
  }

  /** A decimal spelling followed by `rest` does not start with a "0x" prefix. */
  lemma NoHexPrefix(d: string, rest: string)
    requires |d| > 0 && forall i :: 0 <= i < |d| ==> IsDecimalDigit(d[i])
    requires EndsNumber(rest)
    ensures var u := d + rest; !(|u| >= 2 && u[0] == '0' && (u[1] == 'x' || u[1] == 'X'))
  {
    var u := d + rest;
    if |u| >= 2 {
      if |d| >= 2 {
        assert u[1] == d[1] && IsDecimalDigit(d[1]);
      } else {
        assert u[1] == rest[0];
      }
    }
  }

  lemma UnsignedOfNatToString(m: nat, rest: string)
    requires EndsNumber(rest)
    ensures ParseUnsigned(NatToString(m) + rest) == Some(m)
  {
    var d := NatToString(m);
    var u := d + rest;
    NoHexPrefix(d, rest);
    DecimalValueOfNatToString(m);
    LeadingDigitsOfAppend(d, rest, 10);
    assert LeadingDigits(u, 10) == |d|;
    assert u[..|d|] == d;
    assert DigitsValue(u[..|d|], 10) == m;
  }

  /** A leading '-' negates what the unsigned reader finds after it. */
  lemma ParseSignedOfMinus(t: string, u: string, m: nat)
    requires t == "-" + u && ParseUnsigned(u) == Some(m)
    ensures ParseSigned(t) == Some(-(m as int))
  {
    assert t[0] == '-' && t[1..] == u;
  }

  /** Without a sign the unsigned reader's answer is parseInt's. */
  lemma ParseSignedOfUnsigned(u: string, m: nat)
    requires u != [] && u[0] != '-' && u[0] != '+'
    requires ParseUnsigned(u) == Some(m)
    ensures ParseSigned(u) == Some(m)
  {
  }

  /** parseInt skips no white space before a sign or a digit. */
  lemma ParseIntOfSigned(s: string)
    requires s != [] && (s[0] == '-' || IsDecimalDigit(s[0]))
    ensures ParseInt(s) == ParseSigned(s)
  {
    assert !IsSpace(s[0]);
  }

  lemma ParseIntOfNegative(s: string, m: nat, rest: string)
    requires m > 0 && EndsNumber(rest)
    requires s == "-" + (NatToString(m) + rest)
    ensures ParseInt(s) == Some(-(m as int))
  {
    var u := NatToString(m) + rest;
    UnsignedOfNatToString(m, rest);
    ParseSignedOfMinus(s, u, m);
    ParseIntOfSigned(s);
  }

  lemma ParseIntOfNonNegative(s: string, m: nat, rest: string)
    requires EndsNumber(rest)
    requires s == NatToString(m) + rest
    ensures ParseInt(s) == Some(m)
  {
    UnsignedOfNatToString(m, rest);
    assert s[0] == NatToString(m)[0];
    ParseSignedOfUnsigned(s, m);
    ParseIntOfSigned(s);
  }

  /** parseInt reads back what `String(n)` wrote, whatever non-digit text follows it. */
  lemma ParseIntOfIntToStringThen(n: int, rest: string)
    requires EndsNumber(rest)
    ensures ParseInt(IntToString(n) + rest) == Some(n)
  {
    var s := IntToString(n) + rest;
    if n < 0 {
      assert s == "-" + (NatToString(-n) + rest);
      ParseIntOfNegative(s, -n, rest);
    } else {
      ParseIntOfNonNegative(s, n, rest);
    }
  }

  /** Reading back what `String(n)` wrote gives `n`: the storage round trip
      of every counter the app persists as text. */
  lemma ParseIntOfIntToString(n: int)
    ensures ParseInt(IntToString(n)) == Some(n)
  {
    ParseIntOfIntToStringThen(n, "");
    assert IntToString(n) + "" == IntToString(n);
  }

  // ---------------------------------------------------------------------------
  // Strings and arrays

  /** `s.length`: the number of UTF-16 code units, two for a character
      outside the Basic Multilingual Plane. */
  function Utf16Length(s: string): (n: nat)
    ensures |s| <= n <= 2 * |s|
  {
    if s == [] then 0 else (if s[0] as int >= 0x10000 then 2 else 1) + Utf16Length(s[1..])
  }

  /** `s.startsWith(p)` */
  predicate StartsWith(s: string, p: string) {
    |p| <= |s| && s[..|p|] == p
  }

  /** `s.includes(sub)` */
  predicate Includes(s: string, sub: string)
    decreases |s|
  {
    StartsWith(s, sub) || (s != [] && Includes(s[1..], sub))
  }

  /** `s.slice(-n)` for n > 0: the last n elements, or all of them. */
  function TakeLast<T>(s: seq<T>, n: nat): (r: seq<T>)
    requires n > 0
    ensures |r| == if |s| <= n then |s| else n
    ensures forall i :: 0 <= i < |r| ==> r[i] == s[|s| - |r| + i]
  {
    if |s| <= n then s else s[|s| - n..]
  }

  /** `Math.round(a / b * 100)` for b > 0, in exact arithmetic:
      floor(100a/b + 1/2), the nearest integer with halves rounded up. */
  function RoundPercent(a: int, b: int): (p: int)
    requires b > 0
    ensures 2 * b * p <= 200 * a + b < 2 * b * (p + 1)
  {
    (200 * a + b) / (2 * b)
  }

  /** A share of at most the whole rounds to a percentage in [0, 100]. */
  lemma RoundPercentOfShare(a: int, b: int)
    requires 0 <= a <= b && b > 0
    ensures 0 <= RoundPercent(a, b) <= 100
  {
    var p := RoundPercent(a, b);
    if p > 100 {
      ScaleLe(101, p, 2 * b);
    }
    if p < 0 {
      ScaleLe(p + 1, 0, 2 * b);
    }
  }

  lemma ScaleLe(x: int, y: int, c: int)
    requires x <= y && c > 0
    ensures c * x <= c * y
  {
  }

  /** The `storageGet` reply for one key: the stored text, None for a missing key. */
  function Lookup(store: map<string, string>, key: string): (r: Option<string>)
    ensures r.Some? <==> key in store
    ensures r.Some? ==> r.value == store[key]
  {
    if key in store then Some(store[key]) else None
  }

  /** The answer of an adapter's `purchase`. */
  datatype PurchaseResult = PurchaseResult(success: bool, reason: string)

  /** `Math.min(Math.max(lo, x), hi)` */
  function Clamp(x: int, lo: int, hi: int): (r: int)
    requires lo <= hi
    ensures lo <= r <= hi
    ensures lo <= x <= hi ==> r == x
  {
    if x < lo then lo else if x > hi then hi else x
  }

  /** `a` keeps some of the elements of `b`, in their order in `b`:
      what `b.filter(p)` returns stands in this relation to `b`. */
  predicate IsSubsequence<T(==)>(a: seq<T>, b: seq<T>)
    decreases |b|
  {
    a == [] || (b != [] && if a[0] == b[0] then IsSubsequence(a[1..], b[1..]) else IsSubsequence(a, b[1..]))
  }
}
