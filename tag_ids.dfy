/** Tag ids and the numeric key the widget sorts its pool by.

    An id is free text, in practice `#<issue number>`. Two string operations of
    the widget are modelled here: `replace('#', '')`, which deletes only the
    FIRST `#`, and `parseInt(…, 10)`, which reads an optionally signed run of
    decimal digits after leading white space and yields NaN when there is none.
 */
module TagIds {

  datatype Option<T> = None | Some(value: T)

  /** `s.replace(c, '')` for a one-character pattern: the first `c` is
      deleted, later ones are kept. */
  function RemoveFirst(s: string, c: char): (r: string)
    ensures c !in s ==> r == s
    ensures c in s ==> |r| == |s| - 1
  {
    if s == [] then []
    else if s[0] == c then s[1..]
    else [s[0]] + RemoveFirst(s[1..], c)
  }

  /** Deleting the first `c` cuts the string at the position of the first
      `c` and nowhere else; a string starting with `c` loses exactly its
      first character. */
  lemma {:induction false} RemoveFirstAt(s: string, c: char, k: nat)
    requires k < |s| && s[k] == c && c !in s[..k]
    ensures RemoveFirst(s, c) == s[..k] + s[k + 1..]
  {
    if k > 0 {
      var t := s[1..];
      assert s[0] != c by { assert s[0] in s[..k]; }
      assert c !in t[..k - 1] by { assert t[..k - 1] == s[1..k]; }
      RemoveFirstAt(t, c, k - 1);
      assert s[..k] == [s[0]] + t[..k - 1];
      assert s[k + 1..] == t[k..];
    }
  }

  /** Only one copy of `c` goes, and nothing else. */
  lemma {:induction false} RemoveFirstCount(s: string, c: char)
    ensures multiset(RemoveFirst(s, c)) == multiset(s) - multiset{c}
  {
    if s != [] {
      assert s == [s[0]] + s[1..];
      if s[0] != c {
        RemoveFirstCount(s[1..], c);
      }
    }
  }

  /** StrWhiteSpaceChar of ECMAScript: the white space and line terminators
      that parseInt skips (TAB, LF, VT, FF, CR, every space separator,
      LINE SEPARATOR, PARAGRAPH SEPARATOR and the byte order mark). */
  predicate IsStrWhiteSpace(c: char)
  {
    var n := c as int;
    n == 0x09 || n == 0x0A || n == 0x0B || n == 0x0C || n == 0x0D ||
    n == 0x20 || n == 0xA0 || n == 0x1680 || (0x2000 <= n <= 0x200A) ||
    n == 0x2028 || n == 0x2029 || n == 0x202F || n == 0x205F ||
    n == 0x3000 || n == 0xFEFF
  }

  predicate IsDigit(c: char)
  {
    '0' <= c <= '9'
  }

  predicate AllDigits(d: string)
  {
    forall i :: 0 <= i < |d| ==> IsDigit(d[i])
  }

  /** `s` without its leading white space. */
  function TrimStart(s: string): (r: string)
    ensures |r| <= |s| && r == s[|s| - |r|..]
    ensures forall i :: 0 <= i < |s| - |r| ==> IsStrWhiteSpace(s[i])
    ensures r == [] || !IsStrWhiteSpace(r[0])
  {
    if s != [] && IsStrWhiteSpace(s[0]) then TrimStart(s[1..]) else s
  }

  /** The longest prefix of `s` made of decimal digits. */
  function LeadingDigits(s: string): (d: string)
    ensures |d| <= |s| && d == s[..|d|]
    ensures AllDigits(d)
    ensures |d| == |s| || !IsDigit(s[|d|])
  {
    if s != [] && IsDigit(s[0]) then [s[0]] + LeadingDigits(s[1..]) else []
  }

  /** The number a string of decimal digits denotes. */
  function DigitsValue(d: string): nat
    requires AllDigits(d)
  {
    if d == [] then 0
    else 10 * DigitsValue(d[..|d| - 1]) + (d[|d| - 1] as int - '0' as int)
  }

  /** The value of the digit run at the start of `u`, `None` (NaN) when
      `u` does not start with a digit. */
  function ParseDigits(u: string): Option<int>
  {
    var d := LeadingDigits(u);
    if d == [] then None else Some(DigitsValue(d))
  }

  /** parseInt after the white-space skip: one optional sign, then digits. */
  function ParseSigned(t: string): Option<int>
  {
    if t != [] && t[0] == '-' then
      match ParseDigits(t[1..])
      case None => None
      case Some(v) => Some(-v)
    else if t != [] && t[0] == '+' then ParseDigits(t[1..])
    else ParseDigits(t)
  }

  /** `parseInt(s, 10)`, with `None` for NaN. */
  function ParseInt(s: string): Option<int>
  {
    ParseSigned(TrimStart(s))
  }

  /** The sort key of an id: `parseInt(id.replace('#', ''), 10)`. */
  function NumKey(id: string): Option<int>
  {
    ParseInt(RemoveFirst(id, '#'))
  }

  /** The decimal numeral of `n`, without leading zeros. */
  function Decimal(n: nat): (d: string)
    ensures |d| > 0 && AllDigits(d)
  {
    if n < 10 then [('0' as int + n) as char]
    else Decimal(n / 10) + [('0' as int + n % 10) as char]
  }

  lemma {:induction false} DecimalValue(n: nat)
    ensures DigitsValue(Decimal(n)) == n
  {
    var d := Decimal(n);
    if n < 10 {
      assert d[..0] == [];
    } else {
      assert d[..|d| - 1] == Decimal(n / 10);
      DecimalValue(n / 10);
    }
  }

  lemma {:induction false} LeadingDigitsOfNumeral(d: string, rest: string)
    requires AllDigits(d)
    requires rest == [] || !IsDigit(rest[0])
    ensures LeadingDigits(d + rest) == d
  {
    if d != [] {
      assert (d + rest)[1..] == d[1..] + rest;
      LeadingDigitsOfNumeral(d[1..], rest);
      assert d == [d[0]] + d[1..];
    }
  }

  /** parseInt reads a run of digits at the very start of its argument and
      stops at the first character that is not a digit. */
  lemma ParseIntOfNumeral(d: string, rest: string)
    requires d != [] && AllDigits(d)
    requires rest == [] || !IsDigit(rest[0])
    ensures ParseInt(d + rest) == Some(DigitsValue(d))
  {
    var x := d + rest;
    assert IsDigit(x[0]) by { assert x[0] == d[0]; }
    assert TrimStart(x) == x;
    LeadingDigitsOfNumeral(d, rest);
  }

  predicate AllWhiteSpace(ws: string)
  {
    forall i :: 0 <= i < |ws| ==> IsStrWhiteSpace(ws[i])
  }

  /** The white-space skip removes a white-space prefix and stops at the
      first other character. */
  lemma {:induction false} TrimStartSkips(ws: string, x: string)
    requires AllWhiteSpace(ws)
    requires x == [] || !IsStrWhiteSpace(x[0])
    ensures TrimStart(ws + x) == x
  {
    if ws == [] {
      assert ws + x == x;
    } else {
      assert (ws + x)[0] == ws[0];
      assert (ws + x)[1..] == ws[1..] + x;
      TrimStartSkips(ws[1..], x);
    }
  }

  /** The digits parseInt reads from a digit run ended by a non-digit. */
  lemma ParseDigitsOfNumeral(d: string, rest: string)
    requires d != [] && AllDigits(d)
    requires rest == [] || !IsDigit(rest[0])
    ensures ParseDigits(d + rest) == Some(DigitsValue(d))
  {
    LeadingDigitsOfNumeral(d, rest);
  }

  /** At most one sign character, `+` or `-`. */
  predicate OptionalSign(sign: string)
  {
    sign == [] || (|sign| == 1 && (sign[0] == '+' || sign[0] == '-'))
  }

  function Negative(sign: string): bool
  {
    sign != [] && sign[0] == '-'
  }

  lemma ParseSignedUnsigned(d: string, rest: string)
    requires d != [] && AllDigits(d)
    requires rest == [] || !IsDigit(rest[0])
    ensures ParseSigned(d + rest) == Some(DigitsValue(d))
  {
    assert (d + rest)[0] == d[0] && IsDigit(d[0]);
    ParseDigitsOfNumeral(d, rest);
  }

  lemma ParseSignedWithSign(s: char, d: string, rest: string)
    requires s == '+' || s == '-'
    requires d != [] && AllDigits(d)
    requires rest == [] || !IsDigit(rest[0])
    ensures ParseSigned([s] + d + rest) == Some(if s == '-' then -(DigitsValue(d) as int) else DigitsValue(d) as int)
  {
    var x := [s] + d + rest;
    assert x[0] == s && x[1..] == d + rest;
    ParseDigitsOfNumeral(d, rest);
  }

  /** One optional sign in front of a digit run ended by a non-digit. */
  lemma ParseSignedNumeral(sign: string, d: string, rest: string)
    requires OptionalSign(sign)
    requires d != [] && AllDigits(d)
    requires rest == [] || !IsDigit(rest[0])
    ensures ParseSigned(sign + d + rest) == Some(if Negative(sign) then -(DigitsValue(d) as int) else DigitsValue(d) as int)
  {
    if sign == [] {
      assert sign + d + rest == d + rest;
      ParseSignedUnsigned(d, rest);
    } else {
      assert sign == [sign[0]];
      ParseSignedWithSign(sign[0], d, rest);
    }
  }

  /** parseInt skips leading white space, honours one optional sign, and
      reads the digit run that follows up to the first non-digit. */
  lemma ParseIntOfSignedNumeral(ws: string, sign: string, d: string, rest: string)
    requires AllWhiteSpace(ws)
    requires OptionalSign(sign)
    requires d != [] && AllDigits(d)
    requires rest == [] || !IsDigit(rest[0])
    ensures ParseInt(ws + sign + d + rest) == Some(if Negative(sign) then -(DigitsValue(d) as int) else DigitsValue(d) as int)
  {
    var x := sign + d + rest;
    assert ws + sign + d + rest == ws + x;
    assert !IsStrWhiteSpace(x[0]) by {
      assert IsDigit(d[0]);
      assert x[0] == if sign == [] then d[0] else sign[0];
    }
    TrimStartSkips(ws, x);
    ParseSignedNumeral(sign, d, rest);
  }

  /** The sort key of an issue reference `#<n>`, followed by any text that
      does not start with a digit, is the issue number `n`. */
  lemma KeyOfIssueId(n: nat, rest: string)
    requires rest == [] || !IsDigit(rest[0])
    ensures NumKey("#" + Decimal(n) + rest) == Some(n)
  {
    var d := Decimal(n);
    assert RemoveFirst("#" + d + rest, '#') == d + rest by {
      assert ("#" + d + rest)[0] == '#';
      assert ("#" + d + rest)[1..] == d + rest;
    }
    ParseIntOfNumeral(d, rest);
    DecimalValue(n);
  }

  /** A string without any decimal digit parses to NaN. */
  lemma ParseIntWithoutDigits(s: string)
    requires forall i :: 0 <= i < |s| ==> !IsDigit(s[i])
    ensures ParseInt(s) == None
  {
    var t := TrimStart(s);
    var j := if t != [] && (t[0] == '-' || t[0] == '+') then 1 else 0;
    var u := t[j..];
    if u != [] {
      assert u[0] == s[|s| - |t| + j];
    }
    assert LeadingDigits(u) == [];
  }

  /** An id without any decimal digit has no key (parseInt gives NaN). */
  lemma KeyOfIdWithoutDigits(id: string)
    requires forall i :: 0 <= i < |id| ==> !IsDigit(id[i])
    ensures NumKey(id) == None
  {
    var s := RemoveFirst(id, '#');
    RemoveFirstCount(id, '#');
    forall i | 0 <= i < |s| ensures !IsDigit(s[i]) {
      assert s[i] in multiset(s) && multiset(s) <= multiset(id);
      assert s[i] in id;
    }
    ParseIntWithoutDigits(s);
  }
}
