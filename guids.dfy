/**
 * System.Guid as the core uses it: Guid.TryParse turns a claim value into a
 * user id, and Guid.ToString() renders a user id into a cache key.
 */
module Guids {
  import opened Wrappers

  /** The value of one hexadecimal digit. */
  type Nibble = n: int | 0 <= n < 16

  /** A GUID, as the 32 hexadecimal digits of its text form, in the order that form lists them. */
  type Guid = s: seq<Nibble> | |s| == 32 witness seq(32, _ => 0)

  predicate IsHexChar(c: char)
  {
    '0' <= c <= '9' || 'a' <= c <= 'f' || 'A' <= c <= 'F'
  }

  /** The value of a hexadecimal digit of either case. */
  function HexValue(c: char): Nibble
    requires IsHexChar(c)
  {
    if '0' <= c <= '9' then c as int - '0' as int
    else if 'a' <= c <= 'f' then c as int - 'a' as int + 10
    else c as int - 'A' as int + 10
  }

  /** The lower-case digit Guid.ToString writes for a value; HexValue reads it back. */
  function HexChar(n: Nibble): (c: char)
    ensures IsHexChar(c) && HexValue(c) == n
    ensures !('A' <= c <= 'F')
  {
    if n < 10 then ('0' as int + n) as char else ('a' as int + n - 10) as char
  }

  /** Reads a run of hexadecimal digits; fails on the first character that is not one. */
  function ParseHex(s: string): (r: Option<seq<Nibble>>)
    ensures r.Some? <==> forall i :: 0 <= i < |s| ==> IsHexChar(s[i])
    ensures r.Some? ==> |r.value| == |s| && forall i :: 0 <= i < |s| ==> r.value[i] == HexValue(s[i])
  {
    if s == [] then Some([])
    else if !IsHexChar(s[0]) then None
    else match ParseHex(s[1..])
      case None => None
      case Some(rest) => Some([HexValue(s[0])] + rest)
  }

  /** Writes each value as one lower-case digit. */
  function FormatHex(ns: seq<Nibble>): (s: string)
    ensures |s| == |ns|
    ensures forall i :: 0 <= i < |ns| ==> s[i] == HexChar(ns[i])
  {
    if ns == [] then "" else [HexChar(ns[0])] + FormatHex(ns[1..])
  }

  lemma {:induction false} ParseFormatHex(ns: seq<Nibble>)
    ensures ParseHex(FormatHex(ns)) == Some(ns)
  {
    var s := FormatHex(ns);
    var r := ParseHex(s);
    assert r.Some?;
    assert |r.value| == |ns|;
    forall i | 0 <= i < |ns|
      ensures r.value[i] == ns[i]
    {
      assert s[i] == HexChar(ns[i]);
    }
    assert r.value == ns;
  }

  predicate IsHyphenPosition(i: int)
  {
    i == 8 || i == 13 || i == 18 || i == 23
  }

  /** The shape of the "D" form: 36 characters, hyphens at 8, 13, 18 and 23, hexadecimal digits elsewhere. */
  predicate IsDForm(s: string)
  {
    |s| == 36 && forall i :: 0 <= i < 36 ==> if IsHyphenPosition(i) then s[i] == '-' else IsHexChar(s[i])
  }

  /** Guid.ToString(), the "D" form: 8-4-4-4-12 lower-case digits joined by hyphens. */
  function Format(g: Guid): (s: string)
    ensures IsDForm(s)
    ensures forall i :: 0 <= i < |s| && !IsHyphenPosition(i) ==> !('A' <= s[i] <= 'F')
  {
    var a, b, c, d, e := FormatHex(g[..8]), FormatHex(g[8..12]), FormatHex(g[12..16]),
                         FormatHex(g[16..20]), FormatHex(g[20..]);
    a + "-" + b + "-" + c + "-" + d + "-" + e
  }

  /** Where the k-th of the 32 digits sits in a "D" form string: after the hyphens that precede it. */
  function DigitPosition(k: int): int
  {
    if k < 8 then k else if k < 12 then k + 1 else if k < 16 then k + 2 else if k < 20 then k + 3 else k + 4
  }

  /** The 32 digit positions of a "D" form string, hyphens skipped. */
  function DigitsOfD(s: string): (digits: string)
    requires |s| == 36
    ensures |digits| == 32
    ensures forall k :: 0 <= k < 32 ==> 0 <= DigitPosition(k) < 36 && !IsHyphenPosition(DigitPosition(k))
                                         && digits[k] == s[DigitPosition(k)]
  {
    s[..8] + s[9..13] + s[14..18] + s[19..23] + s[24..]
  }

  function ParseDigits(s: string): Option<Guid>
    requires |s| == 32
  {
    match ParseHex(s)
    case None => None
    case Some(ns) => Some(ns)
  }

  /** The "N" form: 32 digits. */
  function ParseExactN(s: string): Option<Guid>
  {
    if |s| == 32 then ParseDigits(s) else None
  }

  /** The "D" form: 36 characters with hyphens at 8, 13, 18 and 23. */
  function ParseExactD(s: string): Option<Guid>
  {
    if |s| == 36 && s[8] == '-' && s[13] == '-' && s[18] == '-' && s[23] == '-'
    then ParseDigits(DigitsOfD(s))
    else None
  }

  /** The "B" form, a "D" form in braces, and the "P" form, one in parentheses. */
  function ParseExactBracketed(s: string, open: char, close: char): Option<Guid>
  {
    if |s| == 38 && s[0] == open && s[37] == close then ParseExactD(s[1..37]) else None
  }

  /** With hyphens in place, the hyphen-free digits are all hexadecimal exactly when the other 32 characters are. */
  lemma DigitsOfDAreHex(s: string)
    requires |s| == 36 && s[8] == '-' && s[13] == '-' && s[18] == '-' && s[23] == '-'
    ensures (forall i :: 0 <= i < 32 ==> IsHexChar(DigitsOfD(s)[i])) <==> IsDForm(s)
  {
    var digits := DigitsOfD(s);
    if forall i :: 0 <= i < 32 ==> IsHexChar(digits[i]) {
      forall i | 0 <= i < 36 && !IsHyphenPosition(i)
        ensures IsHexChar(s[i])
      {
        var k := if i < 8 then i else if i < 13 then i - 1 else if i < 18 then i - 2 else if i < 23 then i - 3 else i - 4;
        assert digits[k] == s[i];
      }
    }
    if IsDForm(s) {
      forall k | 0 <= k < 32
        ensures IsHexChar(digits[k])
      {
        var i := if k < 8 then k else if k < 12 then k + 1 else if k < 16 then k + 2 else if k < 20 then k + 3 else k + 4;
        assert digits[k] == s[i];
      }
    }
  }

  /**
   * Guid.TryParse: picks the form by length and first character; None when the text is no GUID.
   * A 32-character text parses exactly when it is all digits, a 36-character one exactly when
   * it has the "D" shape, a 38-character one exactly when it is a "D" shape in braces or
   * parentheses. The GUID is the value of the 32 digits in text order, of either case.
   */
  function TryParse(s: string): (r: Option<Guid>)
    ensures r.Some? ==> |s| == 32 || |s| == 36 || |s| == 38
    ensures |s| == 32 ==> (r.Some? <==> forall i :: 0 <= i < 32 ==> IsHexChar(s[i]))
    ensures |s| == 36 ==> (r.Some? <==> IsDForm(s))
    ensures |s| == 38 ==>
              (r.Some? <==> ((s[0] == '{' && s[37] == '}') || (s[0] == '(' && s[37] == ')')) && IsDForm(s[1..37]))
    ensures |s| == 32 && r.Some? ==> forall i :: 0 <= i < 32 ==> r.value[i] == HexValue(s[i])
    ensures |s| == 36 && r.Some? ==> forall k :: 0 <= k < 32 ==> r.value[k] == HexValue(s[DigitPosition(k)])
    ensures |s| == 38 && r.Some? ==> forall k :: 0 <= k < 32 ==> r.value[k] == HexValue(s[1 + DigitPosition(k)])
  {
    if |s| == 32 then ParseExactN(s)
    else if |s| == 36 then
      if s[8] == '-' && s[13] == '-' && s[18] == '-' && s[23] == '-' then DigitsOfDAreHex(s); ParseExactD(s)
      else ParseExactD(s)
    else if |s| == 38 then
      var inner := s[1..37];
      if inner[8] == '-' && inner[13] == '-' && inner[18] == '-' && inner[23] == '-' then
        DigitsOfDAreHex(inner);
        if s[0] == '(' then ParseExactBracketed(s, '(', ')')
        else if s[0] == '{' then ParseExactBracketed(s, '{', '}')
        else None
      else if s[0] == '(' then ParseExactBracketed(s, '(', ')')
      else if s[0] == '{' then ParseExactBracketed(s, '{', '}')
      else None
    else None
  }

  /** TryParse reads back exactly the GUID that ToString wrote. */
  lemma FormatRoundTrip(g: Guid)
    ensures TryParse(Format(g)) == Some(g)
  {
    var a, b, c, d, e := FormatHex(g[..8]), FormatHex(g[8..12]), FormatHex(g[12..16]),
                         FormatHex(g[16..20]), FormatHex(g[20..]);
    var s := Format(g);
    assert s == a + "-" + b + "-" + c + "-" + d + "-" + e;
    assert s[8] == '-' && s[13] == '-' && s[18] == '-' && s[23] == '-';
    var digits := DigitsOfD(s);
    forall i | 0 <= i < 32
      ensures digits[i] == HexChar(g[i])
    {
      if i < 8 {
        assert digits[i] == s[i] == a[i];
      } else if i < 12 {
        assert digits[i] == s[i + 1] == b[i - 8];
      } else if i < 16 {
        assert digits[i] == s[i + 2] == c[i - 12];
      } else if i < 20 {
        assert digits[i] == s[i + 3] == d[i - 16];
      } else {
        assert digits[i] == s[i + 4] == e[i - 20];
      }
    }
    assert digits == FormatHex(g);
    ParseFormatHex(g);
  }

  /** TryParse reads the "B" and "P" forms of ToString's text, in braces or parentheses, as the same GUID. */
  lemma BracketedRoundTrip(g: Guid)
    ensures TryParse("{" + Format(g) + "}") == Some(g)
    ensures TryParse("(" + Format(g) + ")") == Some(g)
  {
    FormatRoundTrip(g);
    assert ("{" + Format(g) + "}")[1..37] == Format(g);
    assert ("(" + Format(g) + ")")[1..37] == Format(g);
  }

  /** Distinct GUIDs have distinct text forms. */
  lemma FormatInjective(g: Guid, h: Guid)
    requires Format(g) == Format(h)
    ensures g == h
  {
    FormatRoundTrip(g);
    FormatRoundTrip(h);
  }
}
