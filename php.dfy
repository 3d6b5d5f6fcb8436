/** The parts of PHP's value semantics that the custom global search endpoint
    relies on: truthiness (`if ($x)`, `(bool)`, `empty`), `isset` on array keys,
    `trim`, `explode`, and the `(int)` cast of a request string. */
module Php {

  datatype Option<+T> = None | Some(value: T)

  /** A PHP value as it occurs in request arguments, engine results and
      formatted records. A PHP array is either a list or a string-keyed
      dictionary; key order is not kept. The empty PHP array has the two
      representations `List([])` and `Dict(map[])`, which stand for the same
      value. A `Float` is a real number: NaN and the infinities are not
      representable. */
  datatype Value =
    | Null
    | Bool(b: bool)
    | Int(i: int)
    | Float(x: real)
    | Str(s: string)
    | List(items: seq<Value>)
    | Dict(entries: map<string, Value>)

  /** PHP's conversion to boolean: what `(bool) $v` gives and `if ($v)` tests. */
  predicate Truthy(v: Value) {
    match v
    case Null => false
    case Bool(b) => b
    case Int(i) => i != 0
    case Float(x) => x != 0.0
    case Str(s) => s != "" && s != "0"
    case List(items) => items != []
    case Dict(entries) => entries != map[]
  }

  /** The values PHP converts to false are exactly null, false, 0, 0.0, the
      strings "" and "0", and the empty array (in either representation). */
  lemma FalsyValues(v: Value)
    ensures !Truthy(v) <==>
      v in {Null, Bool(false), Int(0), Float(0.0), Str(""), Str("0"), List([]), Dict(map[])}
  {
  }

  /** `is_array($v)` */
  predicate IsArray(v: Value) {
    v.List? || v.Dict?
  }

  /** `isset($data[$key])`: the key is present and its value is not null. */
  predicate Isset(data: map<string, Value>, key: string) {
    key in data && data[key] != Null
  }

  // ---------------------------------------------------------------------
  // trim()

  /** The characters PHP's `trim` strips by default: space, tab, line feed,
      carriage return, NUL and vertical tab. */
  predicate IsTrimmable(c: char) {
    c == ' ' || c == '\t' || c == '\n' || c == '\r' || c == '\0' || c == 11 as char
  }

  function TrimLeft(s: string): (r: string)
    ensures |r| <= |s| && r == s[|s| - |r|..]
    ensures forall i :: 0 <= i < |s| - |r| ==> IsTrimmable(s[i])
    ensures r != [] ==> !IsTrimmable(r[0])
  {
    if s != [] && IsTrimmable(s[0]) then TrimLeft(s[1..]) else s
  }

  function TrimRight(s: string): (r: string)
    ensures |r| <= |s| && r == s[..|r|]
    ensures forall i :: |r| <= i < |s| ==> IsTrimmable(s[i])
    ensures r != [] ==> !IsTrimmable(r[|r| - 1])
  {
    if s != [] && IsTrimmable(s[|s| - 1]) then TrimRight(s[..|s| - 1]) else s
  }

  /** `trim($s)` with the default character list. */
  function Trim(s: string): string {
    TrimRight(TrimLeft(s))
  }

  /** An independent description of the strings for which `empty(trim($s))`
      holds: nothing but trimmable characters, possibly around a single "0". */
  ghost predicate BlankOrZero(s: string) {
    (forall i :: 0 <= i < |s| ==> IsTrimmable(s[i]))
    || (exists a :: 0 <= a < |s| && s[a] == '0' &&
          forall i :: 0 <= i < |s| && i != a ==> IsTrimmable(s[i]))
  }

  lemma TrimBlankOrZero(s: string)
    requires BlankOrZero(s)
    ensures !Truthy(Str(Trim(s)))
  {
    var l := TrimLeft(s);
    var p := |s| - |l|;
    var r := TrimRight(l);
    if l != [] {
      assert l[0] == s[p];
      var a :| 0 <= a < |s| && s[a] == '0' &&
        forall i :: 0 <= i < |s| && i != a ==> IsTrimmable(s[i]);
      assert p == a;
      if |r| == 1 {
        assert r == [l[0]];
      }
    }
  }

  lemma TrimToNothing(s: string)
    requires Trim(s) == ""
    ensures forall i :: 0 <= i < |s| ==> IsTrimmable(s[i])
  {
    assert TrimLeft(s) == [];
  }

  lemma TrimToZero(s: string)
    requires Trim(s) == "0"
    ensures exists a ::
      (0 <= a < |s| && s[a] == '0' && forall i :: 0 <= i < |s| && i != a ==> IsTrimmable(s[i]))
  {
    var l := TrimLeft(s);
    var p := |s| - |l|;
    assert s[p] == l[0] == '0';
    forall i | 0 <= i < |s| && i != p
      ensures IsTrimmable(s[i])
    {
      if i > p {
        assert s[i] == l[i - p];
      }
    }
  }

  lemma TrimEmptyBlankOrZero(s: string)
    requires !Truthy(Str(Trim(s)))
    ensures BlankOrZero(s)
  {
    if Trim(s) == "" {
      TrimToNothing(s);
    } else {
      TrimToZero(s);
    }
  }

  /** `empty(trim($s))` holds exactly for the blank strings and for "0"
      surrounded by blanks. */
  lemma EmptyTrimIff(s: string)
    ensures !Truthy(Str(Trim(s))) <==> BlankOrZero(s)
  {
    if BlankOrZero(s) {
      TrimBlankOrZero(s);
    }
    if !Truthy(Str(Trim(s))) {
      TrimEmptyBlankOrZero(s);
    }
  }

  // ---------------------------------------------------------------------
  // explode() and implode() with a one-character delimiter

  /** `explode($sep, $s)`: the pieces between delimiters, untrimmed, empty
      pieces kept. */
  function Explode(sep: char, s: string): (pieces: seq<string>)
    ensures |pieces| >= 1
    ensures forall i :: 0 <= i < |pieces| ==> sep !in pieces[i]
  {
    if s == [] then [""]
    else
      var rest := Explode(sep, s[1..]);
      if s[0] == sep then [""] + rest
      else [[s[0]] + rest[0]] + rest[1..]
  }

  /** `implode($sep, $pieces)` for a non-empty list of pieces. */
  function Implode(sep: char, pieces: seq<string>): string
    requires |pieces| >= 1
  {
    if |pieces| == 1 then pieces[0]
    else pieces[0] + [sep] + Implode(sep, pieces[1..])
  }

  /** Joining the pieces again gives back the original string: nothing is
      trimmed or dropped. */
  lemma {:induction false} ImplodeExplode(sep: char, s: string)
    ensures Implode(sep, Explode(sep, s)) == s
  {
    if s != [] {
      var rest := Explode(sep, s[1..]);
      ImplodeExplode(sep, s[1..]);
      if s[0] == sep {
        assert Explode(sep, s) == [""] + rest;
        assert ([""] + rest)[1..] == rest;
      } else {
        var pieces := [[s[0]] + rest[0]] + rest[1..];
        assert Explode(sep, s) == pieces;
        if |rest| == 1 {
          assert s == [s[0]] + s[1..];
        } else {
          assert pieces[1..] == rest[1..];
          assert Implode(sep, rest) == rest[0] + [sep] + Implode(sep, rest[1..]);
          assert s == [s[0]] + s[1..];
        }
      }
    }
  }

  lemma {:induction false} ExplodePrepend(sep: char, p: string, t: string)
    requires sep !in p
    ensures Explode(sep, p + [sep] + t) == [p] + Explode(sep, t)
  {
    if p == [] {
      assert [] + [sep] + t == [sep] + t;
      assert ([sep] + t)[1..] == t;
    } else {
      var s := p + [sep] + t;
      assert s[1..] == p[1..] + [sep] + t;
      ExplodePrepend(sep, p[1..], t);
      assert [p[0]] + p[1..] == p;
    }
  }

  lemma {:induction false} ExplodeSingle(sep: char, p: string)
    requires sep !in p
    ensures Explode(sep, p) == [p]
  {
    if p != [] {
      ExplodeSingle(sep, p[1..]);
      assert [p[0]] + p[1..] == p;
    }
  }

  /** Splitting a join of delimiter-free pieces gives back exactly those
      pieces: the other direction of the round trip. */
  lemma {:induction false} ExplodeImplode(sep: char, pieces: seq<string>)
    requires |pieces| >= 1
    requires forall i :: 0 <= i < |pieces| ==> sep !in pieces[i]
    ensures Explode(sep, Implode(sep, pieces)) == pieces
  {
    if |pieces| == 1 {
      ExplodeSingle(sep, pieces[0]);
    } else {
      ExplodeImplode(sep, pieces[1..]);
      ExplodePrepend(sep, pieces[0], Implode(sep, pieces[1..]));
      assert [pieces[0]] + pieces[1..] == pieces;
    }
  }

  /** There is one more piece than there are delimiters in the string. */
  lemma {:induction false} ExplodeCount(sep: char, s: string)
    ensures |Explode(sep, s)| == multiset(s)[sep] + 1
  {
    if s != [] {
      ExplodeCount(sep, s[1..]);
      assert s == [s[0]] + s[1..];
      assert multiset(s) == multiset([s[0]]) + multiset(s[1..]);
    }
  }

  // ---------------------------------------------------------------------
  // (int) cast of a string

  const PHP_INT_MAX: int := 0x7FFF_FFFF_FFFF_FFFF
  const PHP_INT_MIN: int := -0x8000_0000_0000_0000

  /** The whitespace a PHP numeric string may start with. */
  predicate IsNumericSpace(c: char) {
    c == ' ' || c == '\t' || c == '\n' || c == '\r' || c == 11 as char || c == 12 as char
  }

  predicate IsDigit(c: char) {
    '0' <= c <= '9'
  }

  function SkipNumericSpace(s: string): (r: string)
    ensures |r| <= |s| && r == s[|s| - |r|..]
    ensures r != [] ==> !IsNumericSpace(r[0])
  {
    if s != [] && IsNumericSpace(s[0]) then SkipNumericSpace(s[1..]) else s
  }

  /** The longest prefix of `s` made of decimal digits. */
  function LeadingDigits(s: string): (d: string)
    ensures d <= s
    ensures forall i :: 0 <= i < |d| ==> IsDigit(d[i])
    ensures |d| < |s| ==> !IsDigit(s[|d|])
  {
    if s != [] && IsDigit(s[0]) then [s[0]] + LeadingDigits(s[1..]) else []
  }

  function DigitValue(c: char): nat
    requires IsDigit(c)
  {
    c as int - '0' as int
  }

  /** The value of a string of decimal digits. */
  function DecimalValue(d: string): nat
    requires forall i :: 0 <= i < |d| ==> IsDigit(d[i])
  {
    if d == [] then 0
    else 10 * DecimalValue(d[..|d| - 1]) + DigitValue(d[|d| - 1])
  }

  /** The value of the run of digits `s` starts with (0 if there is none). */
  function Magnitude(s: string): int {
    DecimalValue(LeadingDigits(s))
  }

  /** The least integer that `strtod` rounds to infinity: halfway between
      the largest finite double, 2^1024 - 2^971, and 2^1024 (the tie rounds
      up, to even). It equals 2^1024 - 2^970. */
  const DOUBLE_OVERFLOW: int :=
    0xfffffffffffffc00_0000000000000000_0000000000000000_0000000000000000_0000000000000000_0000000000000000_0000000000000000_0000000000000000_0000000000000000_0000000000000000_0000000000000000_0000000000000000_0000000000000000_0000000000000000_0000000000000000_0000000000000000

  /** How the cast turns the value it read into an integer: a value of the
      64-bit range is kept; a larger one is read as a double, which is capped
      to the nearest bound when finite and gives 0 when it overflowed to an
      infinity. */
  function CapToInt(n: int): (r: int)
    ensures PHP_INT_MIN <= r <= PHP_INT_MAX
    ensures PHP_INT_MIN <= n <= PHP_INT_MAX ==> r == n
  {
    if n >= DOUBLE_OVERFLOW || n <= -DOUBLE_OVERFLOW then 0
    else if n < PHP_INT_MIN then PHP_INT_MIN
    else if n > PHP_INT_MAX then PHP_INT_MAX
    else n
  }

  /** `(int) $s`: leading numeric whitespace is skipped, an optional sign and
      the longest run of digits that follows are read, anything after is
      ignored, and a string without such a prefix gives 0. A value beyond the
      64-bit range is capped to the nearest bound, unless it is beyond the
      range of doubles too, in which case it gives 0. */
  function IntCast(s: string): (n: int)
    ensures PHP_INT_MIN <= n <= PHP_INT_MAX
  {
    var t := SkipNumericSpace(s);
    if t != [] && t[0] == '-' then CapToInt(-Magnitude(t[1..]))
    else if t != [] && t[0] == '+' then CapToInt(Magnitude(t[1..]))
    else CapToInt(Magnitude(t))
  }

  /** Decimal rendering of a natural number, most significant digit first. */
  function DecimalString(n: nat): (d: string)
    ensures d != []
    ensures forall i :: 0 <= i < |d| ==> IsDigit(d[i])
  {
    if n < 10 then [('0' as int + n) as char]
    else DecimalString(n / 10) + [('0' as int + n % 10) as char]
  }

  lemma {:induction false} DecimalValueOfString(n: nat)
    ensures DecimalValue(DecimalString(n)) == n
  {
    var d := DecimalString(n);
    if n >= 10 {
      DecimalValueOfString(n / 10);
      assert d[..|d| - 1] == DecimalString(n / 10);
    }
  }

  lemma {:induction false} LeadingDigitsOfDigits(d: string, rest: string)
    requires forall i :: 0 <= i < |d| ==> IsDigit(d[i])
    requires rest == [] || !IsDigit(rest[0])
    ensures LeadingDigits(d + rest) == d
  {
    if d != [] {
      assert (d + rest)[1..] == d[1..] + rest;
      LeadingDigitsOfDigits(d[1..], rest);
      assert [d[0]] + d[1..] == d;
    } else {
      assert d + rest == rest;
    }
  }

  lemma MagnitudeOfDigits(d: string, tail: string)
    requires forall i :: 0 <= i < |d| ==> IsDigit(d[i])
    requires tail == [] || !IsDigit(tail[0])
    ensures Magnitude(d + tail) == DecimalValue(d)
  {
    LeadingDigitsOfDigits(d, tail);
  }

  lemma MagnitudeOfNumeral(m: nat, tail: string)
    requires tail == [] || !IsDigit(tail[0])
    ensures Magnitude(DecimalString(m) + tail) == m
  {
    DecimalValueOfString(m);
    MagnitudeOfDigits(DecimalString(m), tail);
  }

  /** Text that ends a numeral where PHP ends it too: nothing, or a character
      that can start neither more digits, a fraction nor an exponent. */
  predicate NumeralEnd(tail: string) {
    tail == [] || (!IsDigit(tail[0]) && tail[0] != '.' && tail[0] != 'e' && tail[0] != 'E')
  }

  lemma IntCastUnsigned(s: string)
    requires s != [] && IsDigit(s[0])
    ensures IntCast(s) == CapToInt(Magnitude(s))
  {
    var t := SkipNumericSpace(s);
    assert t == s;
    assert t[0] != '-' && t[0] != '+';
  }

  lemma IntCastNegative(s: string)
    requires s != [] && s[0] == '-'
    ensures IntCast(s) == CapToInt(-Magnitude(s[1..]))
  {
    var t := SkipNumericSpace(s);
    assert t == s;
  }

  /** A negative decimal numeral with any non-digit tail casts as its value
      would. */
  lemma IntCastOfNegativeNumeral(m: nat, tail: string)
    requires NumeralEnd(tail)
    ensures IntCast("-" + DecimalString(m) + tail) == CapToInt(-(m as int))
    ensures m <= -PHP_INT_MIN ==> IntCast("-" + DecimalString(m) + tail) == -(m as int)
  {
    var s := "-" + DecimalString(m) + tail;
    assert s[1..] == DecimalString(m) + tail;
    MagnitudeOfNumeral(m, tail);
    IntCastNegative(s);
  }

  /** An unsigned decimal numeral with any non-digit tail casts as its value
      would. */
  lemma IntCastOfNumeral(m: nat, tail: string)
    requires NumeralEnd(tail)
    ensures IntCast(DecimalString(m) + tail) == CapToInt(m)
    ensures m <= PHP_INT_MAX ==> IntCast(DecimalString(m) + tail) == m
  {
    var s := DecimalString(m) + tail;
    assert s[0] == DecimalString(m)[0];
    MagnitudeOfNumeral(m, tail);
    IntCastUnsigned(s);
  }

  /** The cast reads back any integer of the 64-bit range written in decimal,
      in particular negative ones, and ignores a non-digit tail. */
  lemma IntCastOfDecimal(n: int, tail: string)
    requires PHP_INT_MIN <= n <= PHP_INT_MAX
    requires NumeralEnd(tail)
    ensures IntCast((if n < 0 then "-" + DecimalString(-n) else DecimalString(n)) + tail) == n
  {
    if n < 0 {
      IntCastOfNegativeNumeral(-n, tail);
    } else {
      IntCastOfNumeral(n, tail);
    }
  }

  /** A numeral beyond the 64-bit range but within the range of doubles is
      capped: to the largest integer, or with a minus sign to the smallest. */
  lemma IntCastCapped(m: nat, tail: string)
    requires PHP_INT_MAX < m < DOUBLE_OVERFLOW
    requires NumeralEnd(tail)
    ensures IntCast(DecimalString(m) + tail) == PHP_INT_MAX
    ensures m > -PHP_INT_MIN ==> IntCast("-" + DecimalString(m) + tail) == PHP_INT_MIN
  {
    IntCastOfNumeral(m, tail);
    IntCastOfNegativeNumeral(m, tail);
  }

  /** A numeral too large even for a double casts to 0, with or without a
      minus sign. */
  lemma IntCastBeyondDouble(m: nat, tail: string)
    requires m >= DOUBLE_OVERFLOW
    requires NumeralEnd(tail)
    ensures IntCast(DecimalString(m) + tail) == 0
    ensures IntCast("-" + DecimalString(m) + tail) == 0
  {
    IntCastOfNumeral(m, tail);
    IntCastOfNegativeNumeral(m, tail);
  }

  /** A string with no digits, and no decimal point, after its whitespace and
      sign casts to 0; the empty string is one. */
  lemma IntCastNoDigits(s: string)
    requires var t := SkipNumericSpace(s);
      t == [] ||
      (!IsDigit(t[0]) && t[0] != '.' &&
       ((t[0] != '-' && t[0] != '+') || |t| == 1 || (!IsDigit(t[1]) && t[1] != '.')))
    ensures IntCast(s) == 0
  {
  }
}
