/** The small part of the JavaScript runtime that the app and the curtain
    driver rely on: numbers that may be NaN, promise outcomes, `parseInt`,
    `Number(string)`, `toString` on integers, `String.prototype.split` with a
    one-character separator, `replace` with a global character-class regex,
    `toLowerCase`, `Math.round` and the truncation `parseInt` applies to a
    number. Each is stated for the inputs the core passes to it. */
module JsRuntime {

  datatype Option<+T> = None | Some(value: T)

  /** A JavaScript number: a (mathematical) real value or NaN. */
  datatype JsNumber = Num(value: real) | NaN

  /** How a promise settles. */
  datatype Settled<+T, +E> = Resolved(value: T) | Rejected(error: E)

  /** `parseInt` yields NaN where this model yields None. */
  function NumberOfParsed(n: Option<int>): (r: JsNumber)
    ensures r.NaN? <==> n.None?
    ensures n.Some? ==> r == Num(n.value as real)
  {
    match n
    case None => NaN
    case Some(i) => Num(i as real)
  }

  // ---------------------------------------------------------------------------
  // Removing characters: `s.replace(/<class>/g, "")`
  // ---------------------------------------------------------------------------

  /** The characters of `s` that `keep` accepts, in their original order. */
  function Filter(s: string, keep: char -> bool): (r: string)
    ensures |r| <= |s|
    ensures forall i :: 0 <= i < |r| ==> keep(r[i])
    ensures forall c :: c in r ==> c in s
  {
    if s == [] then []
    else (if keep(s[0]) then [s[0]] else []) + Filter(s[1..], keep)
  }

  /** Filtering distributes over concatenation: nothing is reordered and
      nothing is kept or dropped because of its neighbours. */
  lemma {:induction false} FilterConcat(a: string, b: string, keep: char -> bool)
    ensures Filter(a + b, keep) == Filter(a, keep) + Filter(b, keep)
  {
    if a == [] {
      assert a + b == b;
    } else {
      assert (a + b)[0] == a[0];
      assert (a + b)[1..] == a[1..] + b;
      FilterConcat(a[1..], b, keep);
    }
  }

  /** A string every character of which is kept is left as it is. */
  lemma {:induction false} FilterKeepsAll(s: string, keep: char -> bool)
    requires forall i :: 0 <= i < |s| ==> keep(s[i])
    ensures Filter(s, keep) == s
  {
    if s != [] {
      FilterKeepsAll(s[1..], keep);
    }
  }

  /** The characters JavaScript's `\s` class matches (white space and line
      terminators of ECMAScript). */
  predicate IsJsWhitespace(c: char)
  {
    c == '\t' || c == '\n' || c == '\U{000B}' || c == '\U{000C}' || c == '\r' || c == ' '
    || c == '\U{00A0}' || c == '\U{1680}' || ('\U{2000}' <= c <= '\U{200A}')
    || c == '\U{2028}' || c == '\U{2029}' || c == '\U{202F}' || c == '\U{205F}'
    || c == '\U{3000}' || c == '\U{FEFF}'
  }

  /** `s.replace(/\s/g, "")`. */
  function StripWhitespace(s: string): (r: string)
    ensures forall i :: 0 <= i < |r| ==> !IsJsWhitespace(r[i])
    ensures forall c :: c in s && !IsJsWhitespace(c) ==> c in r
  {
    var r := Filter(s, c => !IsJsWhitespace(c));
    forall c | c in s && !IsJsWhitespace(c) ensures c in r {
      var i :| 0 <= i < |s| && s[i] == c;
      FilterConcat(s[..i], s[i..], c => !IsJsWhitespace(c));
      assert s == s[..i] + s[i..];
      assert s[i..] == [c] + s[i + 1..];
      FilterConcat([c], s[i + 1..], c => !IsJsWhitespace(c));
    }
    r
  }

  /** `toLowerCase` on one character, for the Latin letters. */
  function LowerAscii(c: char): (d: char)
    ensures !('A' <= d <= 'Z')
    ensures ('A' <= c <= 'Z') ==> d as int == c as int + 32
    ensures !('A' <= c <= 'Z') ==> d == c
  {
    if 'A' <= c <= 'Z' then (c as int + 32) as char else c
  }

  /** `s.toLowerCase()`, for the Latin letters. */
  function ToLowerAscii(s: string): (r: string)
    ensures |r| == |s|
    ensures forall i :: 0 <= i < |s| ==> r[i] == LowerAscii(s[i])
  {
    seq(|s|, i requires 0 <= i < |s| => LowerAscii(s[i]))
  }

  /** `s.indexOf(c)`: the position of the first `c` in `s`, or `|s|` when
      `c` does not occur. */
  function IndexOf(s: string, c: char): (i: nat)
    ensures i <= |s|
    ensures i < |s| ==> s[i] == c
    ensures forall j :: 0 <= j < i ==> s[j] != c
    ensures i == |s| ==> c !in s
  {
    if s == [] then 0
    else if s[0] == c then 0
    else 1 + IndexOf(s[1..], c)
  }

  // ---------------------------------------------------------------------------
  // `s.split(sep)` for a one-character separator, and its inverse `join`
  // ---------------------------------------------------------------------------

  /** `s.split(sep)`: the pieces between separators, read one character at
      a time; always at least one piece. */
  function Split(s: string, sep: char): (fields: seq<string>)
    ensures |fields| >= 1
  {
    if s == [] then [[]]
    else
      var tail := Split(s[1..], sep);
      if s[0] == sep then [[]] + tail
      else [[s[0]] + tail[0]] + tail[1..]
  }

  /** `fields.join(sep)`. */
  function Join(fields: seq<string>, sep: char): string
  {
    if fields == [] then ""
    else if |fields| == 1 then fields[0]
    else fields[0] + [sep] + Join(fields[1..], sep)
  }

  lemma HeadTail<T>(s: seq<T>)
    requires s != []
    ensures [s[0]] + s[1..] == s
  {
  }

  /** There is more than one piece exactly when the separator occurs. */
  lemma {:induction false} SplitCount(s: string, sep: char)
    ensures |Split(s, sep)| == 1 <==> sep !in s
  {
    if s != [] {
      SplitCount(s[1..], sep);
      HeadTail(s);
    }
  }

  /** No piece of a split contains the separator. */
  lemma {:induction false} SplitFieldsFree(s: string, sep: char)
    ensures forall k :: 0 <= k < |Split(s, sep)| ==> sep !in Split(s, sep)[k]
  {
    if s != [] {
      SplitFieldsFree(s[1..], sep);
    }
  }

  /** Splitting a field followed by a separator peels off that field. */
  lemma {:induction false} SplitCons(a: string, rest: string, sep: char)
    requires sep !in a
    ensures Split(a + [sep] + rest, sep) == [a] + Split(rest, sep)
  {
    var s := a + [sep] + rest;
    if a == [] {
      assert s[1..] == rest;
    } else {
      assert s[1..] == a[1..] + [sep] + rest;
      SplitCons(a[1..], rest, sep);
      HeadTail(a);
    }
  }

  /** A separator-free field followed by nothing or by a separator is the
      first piece of the split. */
  lemma LeadingField(field: string, rest: string, sep: char)
    requires sep !in field
    requires rest == [] || rest[0] == sep
    ensures Split(field + rest, sep)[0] == field
  {
    if rest == [] {
      assert field + rest == field;
      SplitCount(field, sep);
      SplitWhole(field, sep);
    } else {
      assert field + rest == field + [sep] + rest[1..];
      SplitCons(field, rest[1..], sep);
    }
  }

  /** Text without the separator is one piece, itself. */
  lemma {:induction false} SplitWhole(s: string, sep: char)
    requires sep !in s
    ensures Split(s, sep) == [s]
  {
    if s != [] {
      SplitWhole(s[1..], sep);
      HeadTail(s);
    }
  }

  lemma JoinCons(field: string, rest: seq<string>, sep: char)
    requires rest != []
    ensures Join([field] + rest, sep) == field + [sep] + Join(rest, sep)
  {
    assert ([field] + rest)[1..] == rest;
  }

  /** Prefixing the first field with `c` prefixes the join with `c`. */
  lemma JoinHead(c: char, fields: seq<string>, sep: char)
    requires fields != []
    ensures Join([[c] + fields[0]] + fields[1..], sep) == [c] + Join(fields, sep)
  {
    var g := [[c] + fields[0]] + fields[1..];
    if |fields| > 1 {
      assert g[1..] == fields[1..];
    }
  }

  /** Joining the pieces of a split gives back the string. */
  lemma {:induction false} JoinSplit(s: string, sep: char)
    ensures Join(Split(s, sep), sep) == s
  {
    if s != [] {
      var tail := Split(s[1..], sep);
      JoinSplit(s[1..], sep);
      HeadTail(s);
      if s[0] == sep {
        JoinCons([], tail, sep);
      } else {
        JoinHead(s[0], tail, sep);
      }
    }
  }

  /** Splitting a join of separator-free fields gives back the fields. */
  lemma {:induction false} SplitJoin(fields: seq<string>, sep: char)
    requires |fields| >= 1
    requires forall k :: 0 <= k < |fields| ==> sep !in fields[k]
    ensures Split(Join(fields, sep), sep) == fields
  {
    if |fields| > 1 {
      SplitJoin(fields[1..], sep);
      SplitCons(fields[0], Join(fields[1..], sep), sep);
    } else {
      SplitWhole(fields[0], sep);
    }
  }

  // ---------------------------------------------------------------------------
  // Integers as text: `n.toString()` and `parseInt(s)`
  // ---------------------------------------------------------------------------

  predicate IsDecimalDigit(c: char) { '0' <= c <= '9' }

  /** A digit of `radix` (10 or 16; hexadecimal letters in either case). */
  predicate IsDigitIn(c: char, radix: nat)
  {
    IsDecimalDigit(c) || (radix == 16 && ('a' <= c <= 'f' || 'A' <= c <= 'F'))
  }

  function DigitValue(c: char): (v: nat)
    requires IsDigitIn(c, 16)
    ensures v < 16
    ensures IsDecimalDigit(c) ==> v < 10
  {
    if IsDecimalDigit(c) then c as int - '0' as int
    else if 'a' <= c <= 'f' then c as int - 'a' as int + 10
    else c as int - 'A' as int + 10
  }

  /** The value of a digit string, most significant digit first. */
  function DigitsValue(ds: string, radix: nat): nat
    requires forall i :: 0 <= i < |ds| ==> IsDigitIn(ds[i], radix)
  {
    if ds == [] then 0
    else
      var last := ds[|ds| - 1];
      assert IsDigitIn(last, radix);
      DigitsValue(ds[..|ds| - 1], radix) * radix + DigitValue(last)
  }

  /** The longest prefix of `s` made of digits of `radix`. */
  function DigitPrefix(s: string, radix: nat): (p: string)
    ensures |p| <= |s| && p == s[..|p|]
    ensures forall i :: 0 <= i < |p| ==> IsDigitIn(p[i], radix)
    ensures |p| < |s| ==> !IsDigitIn(s[|p|], radix)
  {
    if s == [] || !IsDigitIn(s[0], radix) then []
    else [s[0]] + DigitPrefix(s[1..], radix)
  }

  /** Leading white space removed, as `parseInt` does before anything else. */
  function TrimStart(s: string): (r: string)
    ensures |r| <= |s| && r == s[|s| - |r|..]
    ensures r != [] ==> !IsJsWhitespace(r[0])
    ensures (s == [] || !IsJsWhitespace(s[0])) ==> r == s
  {
    if s != [] && IsJsWhitespace(s[0]) then TrimStart(s[1..]) else s
  }

  /** `parseInt(s)` with no radix argument: leading white space, an optional
      sign, an optional `0x`/`0X` prefix that selects base 16, then the longest
      run of digits; NaN (None) when that run is empty. */
  function ParseInt(s: string): (r: Option<int>)
    ensures TrimStart(s) == [] ==> r.None?
    ensures r.Some? && r.value < 0 ==> TrimStart(s)[0] == '-'
  {
    ParseSigned(TrimStart(s))
  }

  /** An optional `-` or `+`, then the magnitude. */
  function ParseSigned(t: string): Option<int>
  {
    var negative := t != [] && t[0] == '-';
    var u := if t != [] && (t[0] == '-' || t[0] == '+') then t[1..] else t;
    match ParseMagnitude(u)
    case None => None
    case Some(m) =>
      var magnitude: int := m;
      Some(if negative then -magnitude else magnitude)
  }

  /** An optional `0x`/`0X` prefix selecting base 16, then the longest run of
      digits of the base; None when that run is empty. */
  function ParseMagnitude(u: string): Option<nat>
  {
    var hex := |u| >= 2 && u[0] == '0' && (u[1] == 'x' || u[1] == 'X');
    var radix := if hex then 16 else 10;
    var digits := DigitPrefix(if hex then u[2..] else u, radix);
    if digits == [] then None else Some(DigitsValue(digits, radix))
  }

  function DigitChar(d: nat): (c: char)
    requires d < 10
    ensures IsDecimalDigit(c) && DigitValue(c) == d
  {
    ('0' as int + d) as char
  }

  /** Decimal text of a natural number, no leading zeros. */
  function NatToString(n: nat): (r: string)
    ensures r != []
    ensures forall i :: 0 <= i < |r| ==> IsDecimalDigit(r[i])
    ensures r[0] == '0' ==> n == 0 && r == "0"
  {
    if n < 10 then [DigitChar(n)] else NatToString(n / 10) + [DigitChar(n % 10)]
  }

  /** The text `toString` gives an integer: an optional minus sign, then
      decimal digits with no leading zero; zero is "0", never "-0". */
  predicate DecimalText(r: string)
  {
    var d := if r != [] && r[0] == '-' then r[1..] else r;
    && d != []
    && AllDecimal(d)
    && (d[0] == '0' ==> r == "0")
  }

  /** `n.toString()` for an integer `n`. */
  function IntToString(n: int): (r: string)
    ensures r != [] && !IsJsWhitespace(r[0])
    ensures DecimalText(r)
    ensures r[0] == '-' <==> n < 0
  {
    if n < 0 then
      var d := NatToString(-n);
      assert ("-" + d)[1..] == d;
      "-" + d
    else NatToString(n)
  }

  lemma {:induction false} NatToStringValue(n: nat)
    ensures DigitsValue(NatToString(n), 10) == n
  {
    if n >= 10 {
      var r := NatToString(n);
      assert r[..|r| - 1] == NatToString(n / 10);
      NatToStringValue(n / 10);
    }
  }

  lemma {:induction false} DigitPrefixOfDigits(s: string, radix: nat)
    requires forall i :: 0 <= i < |s| ==> IsDigitIn(s[i], radix)
    ensures DigitPrefix(s, radix) == s
  {
    if s != [] {
      DigitPrefixOfDigits(s[1..], radix);
    }
  }

  /** `parseInt` reads back what `toString` wrote. */
  lemma ParseIntToString(n: int)
    ensures ParseInt(IntToString(n)) == Some(n)
  {
    var r := IntToString(n);
    assert TrimStart(r) == r;
    var m: nat := if n < 0 then -n else n;
    ParseNatToString(m);
    if n < 0 {
      ParseSignedMinus(NatToString(m), m);
    } else {
      ParseSignedDigits(NatToString(m), m);
    }
  }

  /** `parseInt` skips leading white space. */
  lemma ParseIntSkipsWhitespace(c: char, s: string)
    requires IsJsWhitespace(c)
    ensures ParseInt([c] + s) == ParseInt(s)
  {
    assert ([c] + s)[1..] == s;
  }

  /** `parseInt` stops at the first character that cannot continue the
      number: the text of an integer followed by anything else reads as that
      integer. An `x` or `X` right after a lone 0 would make a hexadecimal
      prefix instead. */
  lemma ParseIntIgnoresTail(n: int, rest: string)
    requires rest == [] || (!IsDecimalDigit(rest[0]) && rest[0] != 'x' && rest[0] != 'X')
    ensures ParseInt(IntToString(n) + rest) == Some(n)
  {
    var t := IntToString(n) + rest;
    assert t[0] == IntToString(n)[0];
    ParseSignedTail(n, rest);
  }

  lemma ParseSignedTail(n: int, rest: string)
    requires rest == [] || (!IsDecimalDigit(rest[0]) && rest[0] != 'x' && rest[0] != 'X')
    ensures ParseSigned(IntToString(n) + rest) == Some(n)
  {
    if n < 0 {
      NegativeTail(n, rest);
    } else {
      NonNegativeTail(n, rest);
    }
  }

  lemma NegativeTail(n: int, rest: string)
    requires n < 0
    requires rest == [] || (!IsDecimalDigit(rest[0]) && rest[0] != 'x' && rest[0] != 'X')
    ensures ParseSigned(IntToString(n) + rest) == Some(n)
  {
    var d := NatToString(-n);
    NatToStringTail(-n, rest);
    ParseSignedMinus(d + rest, -n);
    MinusConcat(d, rest);
  }

  lemma MinusConcat(d: string, rest: string)
    ensures ("-" + d) + rest == "-" + (d + rest)
  {
  }

  lemma NonNegativeTail(n: nat, rest: string)
    requires rest == [] || (!IsDecimalDigit(rest[0]) && rest[0] != 'x' && rest[0] != 'X')
    ensures ParseSigned(IntToString(n) + rest) == Some(n)
  {
    var t := IntToString(n) + rest;
    assert t[0] == IntToString(n)[0];
    NatToStringTail(n, rest);
  }

  lemma NatToStringTail(m: nat, rest: string)
    requires rest == [] || (!IsDecimalDigit(rest[0]) && rest[0] != 'x' && rest[0] != 'X')
    ensures ParseMagnitude(NatToString(m) + rest) == Some(m)
  {
    NatToStringValue(m);
    ParseMagnitudeStops(NatToString(m), rest);
  }

  lemma ParseMagnitudeStops(d: string, rest: string)
    requires d != [] && AllDecimal(d) && (d[0] == '0' ==> d == "0")
    requires rest == [] || (!IsDecimalDigit(rest[0]) && rest[0] != 'x' && rest[0] != 'X')
    ensures ParseMagnitude(d + rest) == Some(DigitsValue(d, 10))
  {
    DigitPrefixStops(d, rest);
    var u := d + rest;
    if |u| >= 2 && u[0] == '0' {
      assert d == "0";
      assert u[1] == rest[0];
    }
  }

  /** The digit run ends where the digits end. */
  lemma {:induction false} DigitPrefixStops(d: string, rest: string)
    requires AllDecimal(d)
    requires rest == [] || !IsDecimalDigit(rest[0])
    ensures DigitPrefix(d + rest, 10) == d
  {
    if d == [] {
      assert d + rest == rest;
    } else {
      assert (d + rest)[1..] == d[1..] + rest;
      DigitPrefixStops(d[1..], rest);
      HeadTail(d);
    }
  }

  /** Text that, after white space, does not start with a sign or a digit
      reads as NaN. */
  lemma ParseIntNaN(s: string)
    requires s != [] && !IsJsWhitespace(s[0])
    requires !IsDecimalDigit(s[0]) && s[0] != '-' && s[0] != '+'
    ensures ParseInt(s) == None
  {
    assert TrimStart(s) == s;
  }

  lemma ParseSignedMinus(digits: string, m: nat)
    requires ParseMagnitude(digits) == Some(m)
    ensures ParseSigned("-" + digits) == Some(-(m as int))
  {
    assert ("-" + digits)[1..] == digits;
  }

  lemma ParseSignedDigits(digits: string, m: nat)
    requires digits != [] && IsDecimalDigit(digits[0])
    requires ParseMagnitude(digits) == Some(m)
    ensures ParseSigned(digits) == Some(m)
  {
  }

  lemma ParseNatToString(m: nat)
    ensures ParseMagnitude(NatToString(m)) == Some(m)
  {
    var digits := NatToString(m);
    NatToStringValue(m);
    DigitPrefixOfDigits(digits, 10);
  }

  /** Every text of that form is what `toString` writes for the number
      `parseInt` reads from it, so the two together fix the text. */
  lemma ToStringOfDecimalText(r: string)
    requires DecimalText(r)
    ensures ParseInt(r).Some? && IntToString(ParseInt(r).value) == r
  {
    assert r[0] == '-' || IsDecimalDigit(r[0]) by {
      if r[0] != '-' {
        assert AllDecimal(r);
      }
    }
    assert !IsJsWhitespace(r[0]);
    assert ParseInt(r) == ParseSigned(r);
    if r[0] == '-' {
      assert r == "-" + r[1..];
      ToStringOfNegative(r[1..]);
    } else {
      ToStringOfDigits(r);
    }
  }

  lemma ToStringOfNegative(d: string)
    requires d != [] && AllDecimal(d) && d[0] != '0'
    ensures ParseSigned("-" + d).Some? && IntToString(ParseSigned("-" + d).value) == "-" + d
  {
    var m := DigitsValue(d, 10);
    ParseDecimalDigits(d);
    ParseSignedMinus(d, m);
    LeadingDigitPositive(d);
  }

  lemma ToStringOfDigits(d: string)
    requires d != [] && AllDecimal(d) && (d[0] == '0' ==> d == "0")
    ensures ParseSigned(d).Some? && IntToString(ParseSigned(d).value) == d
  {
    var m := DigitsValue(d, 10);
    ParseDecimalDigits(d);
    ParseSignedDigits(d, m);
  }

  /** Decimal digits with no leading zero read as their value, and they are
      the text of that value. */
  lemma ParseDecimalDigits(d: string)
    requires d != [] && AllDecimal(d) && (d[0] == '0' ==> d == "0")
    ensures ParseMagnitude(d) == Some(DigitsValue(d, 10))
    ensures NatToString(DigitsValue(d, 10)) == d
  {
    DigitPrefixOfDigits(d, 10);
    NatToStringOfDigits(d);
  }

  /** Decimal digits with no leading zero are the text of their value. */
  lemma {:induction false} NatToStringOfDigits(d: string)
    requires d != [] && AllDecimal(d) && (d[0] == '0' ==> d == "0")
    ensures NatToString(DigitsValue(d, 10)) == d
    decreases |d|
  {
    var init := d[..|d| - 1];
    var last := d[|d| - 1];
    if |d| == 1 {
      assert init == [];
    } else {
      assert init[0] == d[0];
      LeadingDigitPositive(init);
      NatToStringOfDigits(init);
      var v := DigitsValue(d, 10);
      assert v == DigitsValue(init, 10) * 10 + DigitValue(last);
      assert v / 10 == DigitsValue(init, 10) && v % 10 == DigitValue(last);
      assert d == init + [last];
    }
  }

  /** Digits that do not start with 0 have a positive value. */
  lemma {:induction false} LeadingDigitPositive(d: string)
    requires d != [] && AllDecimal(d) && d[0] != '0'
    ensures DigitsValue(d, 10) >= 1
    decreases |d|
  {
    if |d| > 1 {
      var init := d[..|d| - 1];
      assert init[0] == d[0];
      LeadingDigitPositive(init);
    }
  }

  /** `Number(s)` for text that is an optionally signed decimal integer
      surrounded by white space; blank text is 0 and any other text is NaN
      here (see README for the forms this leaves out). */
  function StringToNumber(s: string): (r: JsNumber)
    ensures Trim(s) == [] ==> r == Num(0.0)
  {
    var t := Trim(s);
    if t == [] then Num(0.0) else NumberOfParsed(SignedDecimal(t))
  }

  predicate AllDecimal(u: string)
  {
    forall i :: 0 <= i < |u| ==> IsDecimalDigit(u[i])
  }

  /** An optional sign followed by at least one decimal digit, and nothing else. */
  function SignedDecimal(t: string): Option<int>
  {
    var negative := t != [] && t[0] == '-';
    var u := if t != [] && (t[0] == '-' || t[0] == '+') then t[1..] else t;
    if u != [] && AllDecimal(u) then
      var v: int := DigitsValue(u, 10);
      Some(if negative then -v else v)
    else None
  }

  /** Leading and trailing white space removed (`String.prototype.trim`). */
  function Trim(s: string): (r: string)
    ensures r != [] ==> !IsJsWhitespace(r[0]) && !IsJsWhitespace(r[|r| - 1])
  {
    TrimEnd(TrimStart(s))
  }

  function TrimEnd(s: string): (r: string)
    ensures |r| <= |s| && r == s[..|r|]
    ensures r != [] ==> !IsJsWhitespace(r[|r| - 1])
    ensures (s == [] || !IsJsWhitespace(s[|s| - 1])) ==> r == s
  {
    if s != [] && IsJsWhitespace(s[|s| - 1]) then TrimEnd(s[..|s| - 1]) else s
  }

  /** `Number(n.toString())` is `n`. */
  lemma NumberOfIntToString(n: int)
    ensures StringToNumber(IntToString(n)) == Num(n as real)
  {
    var s := IntToString(n);
    assert !IsJsWhitespace(s[|s| - 1]) by {
      if n < 0 { assert s[|s| - 1] == NatToString(-n)[|NatToString(-n)| - 1]; }
    }
    assert TrimStart(s) == s;
    assert Trim(s) == s;
    SignedDecimalOfIntToString(n);
  }

  lemma SignedDecimalOfIntToString(n: int)
    ensures SignedDecimal(IntToString(n)) == Some(n)
  {
    var m: nat := if n < 0 then -n else n;
    var digits := NatToString(m);
    NatToStringValue(m);
    if n < 0 {
      assert IntToString(n)[1..] == digits;
    }
  }

  // ---------------------------------------------------------------------------
  // Number-to-integer conversions
  // ---------------------------------------------------------------------------

  /** `Math.round(x)`: the nearest integer, halves rounded up. */
  function RoundHalfUp(x: real): (n: int)
    ensures x - 0.5 < n as real <= x + 0.5
  {
    (x + 0.5).Floor
  }

  /** `parseInt(x)` of a number `x`: its integer part (truncation toward
      zero), for numbers whose decimal text has no exponent. */
  function TruncateToInt(x: real): (n: int)
    ensures 0.0 <= x ==> 0 <= n && n as real <= x < n as real + 1.0
    ensures x < 0.0 ==> n <= 0 && n as real - 1.0 < x <= n as real
    ensures x == x.Floor as real ==> n == x.Floor
  {
    if x >= 0.0 then x.Floor else -((-x).Floor)
  }
}
