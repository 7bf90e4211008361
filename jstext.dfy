/** The handful of JavaScript string and number built-ins that the console's
    protocol engine relies on: `trim`, `split` with a one-character separator,
    `includes`, `substring(k)`, `toLowerCase`, `parseInt` with no radix, and the
    conversion of an integer Number to its decimal text. Strings are sequences
    of code points, not of UTF-16 code units. */
module JsText {

  /** The value of a JavaScript Number as far as this engine can produce one:
      `parseInt` yields an integer or NaN. */
  datatype Num = Int(value: int) | NaN

  /** ECMAScript WhiteSpace and LineTerminator code points, the set that both
      `String.prototype.trim` and `parseInt` skip. */
  predicate IsSpace(c: char) {
    var n := c as int;
    n == 0x09 || n == 0x0A || n == 0x0B || n == 0x0C || n == 0x0D || n == 0x20
    || n == 0xA0 || n == 0x1680 || (0x2000 <= n <= 0x200A) || n == 0x2028
    || n == 0x2029 || n == 0x202F || n == 0x205F || n == 0x3000 || n == 0xFEFF
  }

  /** `s.trimStart()`: drops the leading white space and nothing else. */
  function TrimStart(s: string): (r: string)
    ensures |r| <= |s| && r == s[|s| - |r|..]
    ensures forall i :: 0 <= i < |s| - |r| ==> IsSpace(s[i])
    ensures r == [] || !IsSpace(r[0])
    decreases |s|
  {
    if s != [] && IsSpace(s[0]) then TrimStart(s[1..]) else s
  }

  /** `s.trimEnd()`: drops the trailing white space and nothing else. */
  function TrimEnd(s: string): (r: string)
    ensures |r| <= |s| && r == s[..|r|]
    ensures forall i :: |r| <= i < |s| ==> IsSpace(s[i])
    ensures r == [] || !IsSpace(r[|r| - 1])
    decreases |s|
  {
    if s != [] && IsSpace(s[|s| - 1]) then TrimEnd(s[..|s| - 1]) else s
  }

  /** `r` is `s` with white space removed around it and nothing else: `r`
      is what `s` holds from index `k` on, and `s` holds only white space
      before index `k` and after `r`. */
  predicate TrimOfAt(s: string, r: string, k: int) {
    && 0 <= k <= |s| - |r|
    && r <= s[k..]
    && (forall i :: 0 <= i < k ==> IsSpace(s[i]))
    && (forall i :: k + |r| <= i < |s| ==> IsSpace(s[i]))
  }

  /** `s.trim()`: `s` with its surrounding white space removed and nothing
      else, so no white space is left at either end, and a string without
      white space at its ends is its own trim. */
  function Trim(s: string): (r: string)
    ensures |r| <= |s|
    ensures r == [] || (!IsSpace(r[0]) && !IsSpace(r[|r| - 1]))
    ensures (s == [] || (!IsSpace(s[0]) && !IsSpace(s[|s| - 1]))) ==> r == s
  {
    TrimEnd(TrimStart(s))
  }

  /** How much white space `s` starts with. */
  function LeadingSpace(s: string): (k: nat)
    ensures k <= |s|
  {
    |s| - |TrimStart(s)|
  }

  /** `trim` removes the white space around the text and nothing else. */
  lemma TrimRemovesOnlySpace(s: string)
    ensures TrimOfAt(s, Trim(s), LeadingSpace(s))
  {
    TrimSlice(s);
    TrimSliceAfter(s);
  }

  lemma TrimSlice(s: string)
    ensures var r, k := TrimEnd(TrimStart(s)), LeadingSpace(s);
      0 <= k <= |s| - |r| && r <= s[k..]
  {
    var t := TrimStart(s);
    var r := TrimEnd(t);
    var k := LeadingSpace(s);
    assert t == s[k..] && r == t[..|r|];
  }

  lemma TrimSliceAfter(s: string)
    ensures var t := TrimStart(s); var k := |s| - |t|;
      forall i :: k + |TrimEnd(t)| <= i < |s| ==> IsSpace(s[i])
  {
    var t := TrimStart(s);
    var r := TrimEnd(t);
    var k := |s| - |t|;
    assert t == s[k..];
    forall i | k + |r| <= i < |s|
      ensures IsSpace(s[i])
    {
      var j := i - k;
      assert |r| <= j < |t| && t[j] == s[i];
    }
  }

  /** Trailing white space, such as the carriage return of a CRLF line end,
      is trimmed away from text that has none of its own at either end. */
  lemma TrimTrailingSpace(x: string, w: string)
    requires x != [] && !IsSpace(x[0]) && !IsSpace(x[|x| - 1])
    requires forall i :: 0 <= i < |w| ==> IsSpace(w[i])
    ensures Trim(x + w) == x
  {
    TrimStartNoSpace(x + w);
    TrimEndSpaces(x, w);
  }

  lemma {:induction false} TrimEndSpaces(x: string, w: string)
    requires x != [] && !IsSpace(x[|x| - 1])
    requires forall i :: 0 <= i < |w| ==> IsSpace(w[i])
    ensures TrimEnd(x + w) == x
    decreases |w|
  {
    if w == [] {
      assert x + w == x;
    } else {
      var v := w[..|w| - 1];
      assert (x + w)[..|x + w| - 1] == x + v;
      TrimEndSpaces(x, v);
    }
  }

  /** `s.split(d)` for a one-character separator `d`: the pieces between the
      separators, in order, never fewer than one. */
  function Split(s: string, d: char): (r: seq<string>)
    ensures |r| >= 1
    ensures (d in s) <==> |r| > 1
    ensures forall i :: 0 <= i < |r| ==> d !in r[i]
    decreases |s|
  {
    if s == [] then [""]
    else
      var tail := Split(s[1..], d);
      if s[0] == d then [""] + tail
      else [[s[0]] + tail[0]] + tail[1..]
  }

  /** `pieces.join(d)` */
  function Join(pieces: seq<string>, d: char): string
    requires |pieces| >= 1
    decreases |pieces|
  {
    if |pieces| == 1 then pieces[0] else pieces[0] + [d] + Join(pieces[1..], d)
  }

  /** Splitting loses nothing: joining the pieces back gives the string. */
  lemma {:induction false} JoinSplit(s: string, d: char)
    ensures Join(Split(s, d), d) == s
    decreases |s|
  {
    if s != [] {
      var tail := Split(s[1..], d);
      JoinSplit(s[1..], d);
      if s[0] == d {
        assert Split(s, d)[1..] == tail;
      } else {
        var r := Split(s, d);
        if |tail| > 1 {
          assert r[1..] == tail[1..];
          assert Join(tail, d) == tail[0] + [d] + Join(tail[1..], d);
        }
      }
    }
  }

  /** A string without the separator is a single piece. */
  lemma {:induction false} SplitNoSeparator(s: string, d: char)
    requires d !in s
    ensures Split(s, d) == [s]
    decreases |s|
  {
    if s != [] {
      SplitNoSeparator(s[1..], d);
      assert [s[0]] + s[1..] == s;
    }
  }

  /** The first separator of `l + [d] + t` ends the first piece. */
  lemma {:induction false} SplitFirstPiece(l: string, d: char, t: string)
    requires d !in l
    ensures Split(l + [d] + t, d) == [l] + Split(t, d)
    decreases |l|
  {
    var s := l + [d] + t;
    if l == [] {
      assert s[1..] == t;
    } else {
      assert s[1..] == l[1..] + [d] + t;
      SplitFirstPiece(l[1..], d, t);
      assert [l[0]] + l[1..] == l;
    }
  }

  /** Splitting undoes joining, as long as no piece holds the separator. */
  lemma {:induction false} SplitJoin(pieces: seq<string>, d: char)
    requires |pieces| >= 1
    requires forall i :: 0 <= i < |pieces| ==> d !in pieces[i]
    ensures Split(Join(pieces, d), d) == pieces
    decreases |pieces|
  {
    if |pieces| == 1 {
      SplitNoSeparator(pieces[0], d);
    } else {
      SplitJoin(pieces[1..], d);
      SplitFirstPiece(pieces[0], d, Join(pieces[1..], d));
      assert [pieces[0]] + pieces[1..] == pieces;
    }
  }

  /** `t` occurs in `s` starting at index `i`. */
  predicate OccursAt(s: string, t: string, i: int) {
    0 <= i <= |s| - |t| && s[i..i + |t|] == t
  }

  /** `s.includes(t)`: holds when `t` starts the string, and only when `t`
      is no longer than it; `ContainsOccurs` shows it holds exactly when `t`
      occurs in `s` at some index. */
  function Contains(s: string, t: string): (b: bool)
    ensures t <= s ==> b
    ensures b ==> |t| <= |s|
    decreases |s|
  {
    t <= s || (s != [] && Contains(s[1..], t))
  }

  /** Past index 0, the occurrences of `t` in `s` are those in `s[1..]`,
      shifted by one. */
  lemma OccursShift(s: string, t: string)
    requires s != [] && !(t <= s)
    ensures (exists i :: OccursAt(s, t, i)) <==> (exists i :: OccursAt(s[1..], t, i))
  {
    if exists i :: OccursAt(s, t, i) {
      var i :| OccursAt(s, t, i);
      assert i != 0;
      assert s[1..][i - 1..i - 1 + |t|] == s[i..i + |t|];
      assert OccursAt(s[1..], t, i - 1);
    }
    if exists i :: OccursAt(s[1..], t, i) {
      var i :| OccursAt(s[1..], t, i);
      assert s[1..][i..i + |t|] == s[i + 1..i + 1 + |t|];
      assert OccursAt(s, t, i + 1);
    }
  }

  /** `includes` holds exactly when the token occurs at some index. */
  lemma {:induction false} ContainsOccurs(s: string, t: string)
    ensures Contains(s, t) <==> exists i :: OccursAt(s, t, i)
    decreases |s|
  {
    if t <= s {
      assert OccursAt(s, t, 0);
    } else if s == [] {
      assert forall i :: !OccursAt(s, t, i);
    } else {
      ContainsOccurs(s[1..], t);
      OccursShift(s, t);
    }
  }

  /** A string ends with, hence contains, any of its suffixes. */
  lemma {:induction false} ContainsSuffix(a: string, t: string)
    ensures Contains(a + t, t)
    decreases |a|
  {
    if a != [] {
      assert (a + t)[1..] == a[1..] + t;
      ContainsSuffix(a[1..], t);
    }
  }

  /** An occurrence of `t` puts its first character in the string. */
  lemma {:induction false} ContainsFirstChar(s: string, t: string)
    requires t != [] && Contains(s, t)
    ensures t[0] in s
    decreases |s|
  {
    if !(t <= s) {
      ContainsFirstChar(s[1..], t);
    }
  }

  /** A prefix free of the first character of `t` cannot hold the start of an
      occurrence of `t`, so it can be skipped. */
  lemma {:induction false} ContainsSkip(a: string, s: string, t: string)
    requires t != [] && t[0] !in a
    ensures Contains(a + s, t) == Contains(s, t)
    decreases |a|
  {
    if a == [] {
      assert a + s == s;
    } else {
      var w := a + s;
      assert w[0] == a[0] != t[0];
      assert !(t <= w);
      assert w[1..] == a[1..] + s;
      ContainsSkip(a[1..], s, t);
      assert Contains(w, t) == Contains(w[1..], t);
    }
  }

  /** `s.substring(k)` for `k >= 0`: JavaScript clamps a start past the end. */
  function Drop(s: string, k: nat): (r: string)
    ensures |r| == if k <= |s| then |s| - k else 0
    ensures r == s[|s| - |r|..]
  {
    if k <= |s| then s[k..] else ""
  }

  /** `toLowerCase` on the ASCII letters. */
  function LowerChar(c: char): char {
    if 'A' <= c <= 'Z' then (c as int + 32) as char else c
  }

  /** `s.toLowerCase()` on ASCII: no capital is left, each capital becomes
      its small letter, and every other character is kept. */
  function ToLower(s: string): (r: string)
    ensures |r| == |s|
    ensures forall i :: 0 <= i < |r| ==> !('A' <= r[i] <= 'Z')
    ensures forall i :: 0 <= i < |s| && 'A' <= s[i] <= 'Z' ==> 'a' <= r[i] <= 'z' && r[i] as int - s[i] as int == 32
    ensures forall i :: 0 <= i < |s| && !('A' <= s[i] <= 'Z') ==> r[i] == s[i]
  {
    seq(|s|, i requires 0 <= i < |s| => LowerChar(s[i]))
  }

  /** Lower-casing twice is lower-casing once. */
  lemma ToLowerIdempotent(s: string)
    ensures ToLower(ToLower(s)) == ToLower(s)
  {
    var once := ToLower(s);
    assert forall i :: 0 <= i < |once| ==> ToLower(once)[i] == once[i];
  }

  /** The value of a digit in radices up to 36, or 36 when `c` is no digit:
      `0`-`9` are worth 0 to 9, and a letter of either case is worth 10 to 35. */
  function DigitValue(c: char): (v: nat)
    ensures v <= 36
    ensures v == 36 <==> !('0' <= c <= '9' || 'a' <= c <= 'z' || 'A' <= c <= 'Z')
    ensures v < 10 <==> '0' <= c <= '9'
    ensures '0' <= c <= '9' ==> v == c as int - '0' as int
    ensures v < 16 <==> ('0' <= c <= '9' || 'a' <= c <= 'f' || 'A' <= c <= 'F')
  {
    if '0' <= c <= '9' then c as int - '0' as int
    else if 'a' <= c <= 'z' then c as int - 'a' as int + 10
    else if 'A' <= c <= 'Z' then c as int - 'A' as int + 10
    else 36
  }

  /** The longest prefix of `s` made of digits of the given radix. */
  function LeadingDigits(s: string, radix: nat): (r: string)
    ensures r <= s
    ensures forall i :: 0 <= i < |r| ==> DigitValue(r[i]) < radix
    ensures |r| < |s| ==> DigitValue(s[|r|]) >= radix
    decreases |s|
  {
    if s != [] && DigitValue(s[0]) < radix then [s[0]] + LeadingDigits(s[1..], radix) else ""
  }

  /** The value of a digit string, most significant digit first. */
  function DigitsValue(s: string, radix: nat): nat
    decreases |s|
  {
    if s == [] then 0 else DigitsValue(s[..|s| - 1], radix) * radix + DigitValue(s[|s| - 1])
  }

  /** `parseInt(s)` with no radix argument: skip leading white space, take an
      optional sign, read hexadecimal after a `0x`/`0X` prefix and decimal
      otherwise, and stop at the first character that is not a digit; NaN when
      no digit was read. */
  function ParseInt(s: string): (r: Num)
    ensures TrimStart(s) == [] ==> r.NaN?
    ensures var t := TrimStart(s);
      t != [] && t[0] != '-' && t[0] != '+' && DigitValue(t[0]) >= 10 ==> r.NaN?
    ensures r.Int? && r.value < 0 ==> TrimStart(s)[0] == '-'
  {
    var t := TrimStart(s);
    if t != [] && t[0] == '-' then
      match ParseUnsigned(t[1..])
      case Int(m) => Int(-m)
      case NaN => NaN
    else if t != [] && t[0] == '+' then ParseUnsigned(t[1..])
    else ParseUnsigned(t)
  }

  /** The text after an optional leading sign. */
  function Unsigned(t: string): (u: string)
    ensures u == t || (t != [] && (t[0] == '-' || t[0] == '+') && u == t[1..])
  {
    if t != [] && (t[0] == '-' || t[0] == '+') then t[1..] else t
  }

  /** `0x` or `0X`: `parseInt` with no radix then reads hexadecimal. */
  predicate HexPrefixed(u: string) {
    |u| >= 2 && u[0] == '0' && (u[1] == 'x' || u[1] == 'X')
  }

  /** Unsigned text `parseInt` reads a number from: a hexadecimal digit after
      a `0x` prefix, otherwise a decimal digit first. */
  predicate StartsNumeral(u: string) {
    if HexPrefixed(u) then |u| >= 3 && DigitValue(u[2]) < 16
    else u != [] && DigitValue(u[0]) < 10
  }

  /** The part of `parseInt` after the sign. */
  function ParseUnsigned(u: string): (r: Num)
    ensures r.Int? ==> r.value >= 0
    ensures (u == [] || DigitValue(u[0]) >= 10) ==> r.NaN?
  {
    var hex := HexPrefixed(u);
    var radix := if hex then 16 else 10;
    var digits := LeadingDigits(if hex then u[2..] else u, radix);
    if digits == [] then NaN else Int(DigitsValue(digits, radix))
  }

  function DigitChar(d: nat): (c: char)
    requires d < 10
    ensures '0' <= c <= '9' && DigitValue(c) == d
  {
    ('0' as int + d) as char
  }

  /** The decimal text of a non-negative integer, as `${n}` renders it. */
  function NatToString(n: nat): (r: string)
    ensures r != []
    ensures forall i :: 0 <= i < |r| ==> '0' <= r[i] <= '9'
    decreases n
  {
    if n < 10 then [DigitChar(n)] else NatToString(n / 10) + [DigitChar(n % 10)]
  }

  /** The decimal text of an integer, with a `-` for negatives. */
  function IntToString(n: int): (r: string)
    ensures r != []
    ensures forall i :: 0 <= i < |r| ==> r[i] == '-' || '0' <= r[i] <= '9'
  {
    if n < 0 then "-" + NatToString(-n) else NatToString(n)
  }

  /** `${x}` for a Number that `parseInt` produced. */
  function NumToString(x: Num): (r: string)
    ensures r != []
  {
    match x
    case Int(n) => IntToString(n)
    case NaN => "NaN"
  }

  lemma {:induction false} DigitsValueOfNatToString(n: nat)
    ensures DigitsValue(NatToString(n), 10) == n
    decreases n
  {
    var s := NatToString(n);
    if n >= 10 {
      DigitsValueOfNatToString(n / 10);
      assert s[..|s| - 1] == NatToString(n / 10);
    }
  }

  lemma AllDigitsAreLeading(s: string)
    requires forall i :: 0 <= i < |s| ==> '0' <= s[i] <= '9'
    ensures LeadingDigits(s, 10) == s
  {
  }

  lemma ParseUnsignedNatToString(m: nat)
    ensures ParseUnsigned(NatToString(m)) == Int(m)
  {
    var digits := NatToString(m);
    assert !(|digits| >= 2 && (digits[1] == 'x' || digits[1] == 'X'));
    AllDigitsAreLeading(digits);
    DigitsValueOfNatToString(m);
  }

  /** Text that does not start with white space is its own `trimStart`. */
  lemma TrimStartNoSpace(s: string)
    requires s == [] || !IsSpace(s[0])
    ensures TrimStart(s) == s
  {
  }

  /** Text starting with a character that is no white space, no sign and no
      digit reads as NaN. */
  lemma ParseNonDigit(s: string)
    requires s != [] && !IsSpace(s[0]) && s[0] != '-' && s[0] != '+' && DigitValue(s[0]) >= 10
    ensures ParseInt(s) == NaN
  {
    TrimStartNoSpace(s);
  }

  /** `parseInt` gives a number exactly when, past the leading white space
      and an optional sign, the text starts a numeral: a decimal digit, or a
      hexadecimal digit after `0x`. */
  lemma ParseIntNumeral(s: string)
    ensures ParseInt(s).Int? <==> StartsNumeral(Unsigned(TrimStart(s)))
  {
    ParseUnsignedNumeral(Unsigned(TrimStart(s)));
  }

  /** The unsigned part gives a number exactly when the text starts a
      numeral. */
  lemma ParseUnsignedNumeral(u: string)
    ensures ParseUnsigned(u).Int? <==> StartsNumeral(u)
  {
  }

  /** A run of decimal digits ends where the first non-digit starts. */
  lemma {:induction false} LeadingDigitsPrefix(d: string, rest: string)
    requires forall i :: 0 <= i < |d| ==> '0' <= d[i] <= '9'
    requires rest == [] || DigitValue(rest[0]) >= 10
    ensures LeadingDigits(d + rest, 10) == d
    decreases |d|
  {
    if d != [] {
      assert (d + rest)[1..] == d[1..] + rest;
      LeadingDigitsPrefix(d[1..], rest);
      assert [d[0]] + d[1..] == d;
    }
  }

  /** `parseInt` reads the decimal text of a natural number followed by text
      that does not go on with a digit (nor turns a lone `0` into `0x`). */
  lemma ParseUnsignedLeadingNat(m: nat, rest: string)
    requires rest == [] || DigitValue(rest[0]) >= 10
    requires m == 0 && rest != [] ==> rest[0] != 'x' && rest[0] != 'X'
    ensures ParseUnsigned(NatToString(m) + rest) == Int(m)
  {
    var digits := NatToString(m);
    var u := digits + rest;
    assert !HexPrefixed(u) by {
      if m >= 10 {
        assert |NatToString(m / 10)| >= 1;
        assert u[1] == digits[1];
      } else if m > 0 {
        assert u[0] == DigitChar(m);
      }
    }
    LeadingDigitsPrefix(digits, rest);
    DigitsValueOfNatToString(m);
  }

  /** `parseInt` reads the leading decimal text of an integer and ignores the
      rest of the string, as long as the rest does not go on with a digit. */
  lemma ParseLeadingInt(n: int, rest: string)
    requires rest == [] || DigitValue(rest[0]) >= 10
    requires n == 0 && rest != [] ==> rest[0] != 'x' && rest[0] != 'X'
    ensures ParseInt(IntToString(n) + rest) == Int(n)
  {
    if n < 0 {
      var s := IntToString(n) + rest;
      assert s == ['-'] + (NatToString(-n) + rest);
      ParseLeadingNegative(-n, rest, s);
    } else {
      ParseLeadingNat(n, rest);
    }
  }

  /** A `-` followed by the decimal text of a positive number reads as its
      negation. */
  lemma ParseLeadingNegative(m: nat, rest: string, s: string)
    requires m > 0
    requires rest == [] || DigitValue(rest[0]) >= 10
    requires s == ['-'] + (NatToString(m) + rest)
    ensures ParseInt(s) == Int(-(m as int))
  {
    ParseUnsignedLeadingNat(m, rest);
    ParseNegative(NatToString(m) + rest);
  }

  /** The decimal text of a natural number reads as that number. */
  lemma ParseLeadingNat(n: nat, rest: string)
    requires rest == [] || DigitValue(rest[0]) >= 10
    requires n == 0 && rest != [] ==> rest[0] != 'x' && rest[0] != 'X'
    ensures ParseInt(NatToString(n) + rest) == Int(n)
  {
    var s := NatToString(n) + rest;
    assert '0' <= s[0] <= '9';
    ParseUnsignedLeadingNat(n, rest);
    ParseDigitFirst(s);
  }

  /** Text starting with `-` reads as the negated unsigned part. */
  lemma ParseNegative(u: string)
    ensures ParseInt(['-'] + u) == match ParseUnsigned(u) case Int(m) => Int(-m) case NaN => NaN
  {
    var s := ['-'] + u;
    assert s[0] == '-' && s[1..] == u;
    TrimStartNoSpace(s);
  }

  /** Text starting with a digit is read by the unsigned part alone. */
  lemma ParseDigitFirst(s: string)
    requires s != [] && '0' <= s[0] <= '9'
    ensures ParseInt(s) == ParseUnsigned(s)
  {
    TrimStartNoSpace(s);
    assert s[0] != '-' && s[0] != '+';
  }

  /** `parseInt` reads back the decimal text of every integer. */
  lemma ParseIntToString(n: int)
    ensures ParseInt(IntToString(n)) == Int(n)
  {
    assert IntToString(n) + "" == IntToString(n);
    ParseLeadingInt(n, "");
  }

  /** `parseInt` of the text of any Number it produced gives that Number back. */
  lemma ParseNumToString(x: Num)
    ensures ParseInt(NumToString(x)) == x
  {
    match x
    case Int(n) => ParseIntToString(n);
    case NaN => ParseNaNText();
  }

  lemma ParseNaNText()
    ensures ParseInt("NaN") == NaN
  {
    var s := "NaN";
    assert !IsSpace(s[0]) && s[0] != '-' && s[0] != '+';
    TrimStartNoSpace(s);
    assert DigitValue(s[0]) == 23;
    assert LeadingDigits(s, 10) == "";
  }
}
