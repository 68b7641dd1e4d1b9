/** Identifiers of transaction records: UUIDs in the textual form of section 3 of
    RFC 4122 (8-4-4-4-12 hexadecimal digits separated by hyphens). */
module Uuids {
  import opened Wrappers

  /** 16 to the power n: the number of values n hexadecimal digits can spell. */
  function Pow16(n: nat): (p: nat)
    ensures p >= 1
  {
    if n == 0 then 1 else 16 * Pow16(n - 1)
  }

  predicate IsHexDigit(c: char) {
    '0' <= c <= '9' || 'a' <= c <= 'f' || 'A' <= c <= 'F'
  }

  /** The value of one hexadecimal digit, in either case. */
  function HexDigitValue(c: char): (r: Option<nat>)
    ensures r.Some? <==> IsHexDigit(c)
    ensures r.Some? ==> r.value < 16
  {
    if '0' <= c <= '9' then Some(c as int - '0' as int)
    else if 'a' <= c <= 'f' then Some(c as int - 'a' as int + 10)
    else if 'A' <= c <= 'F' then Some(c as int - 'A' as int + 10)
    else None
  }

  /** The lower-case digit for a value below 16. */
  function HexChar(d: nat): (c: char)
    requires d < 16
    ensures HexDigitValue(c) == Some(d)
    ensures !('A' <= c <= 'F')
  {
    if d < 10 then (d + '0' as int) as char else (d - 10 + 'a' as int) as char
  }

  /** ASCII lower-casing of the letters A-F, the only upper-case letters a UUID may hold. */
  function LowerHexChar(c: char): char {
    if 'A' <= c <= 'F' then (c as int - 'A' as int + 'a' as int) as char else c
  }

  function LowerHex(s: string): (t: string)
    ensures |t| == |s|
    ensures forall i :: 0 <= i < |s| ==> t[i] == LowerHexChar(s[i])
  {
    seq(|s|, i requires 0 <= i < |s| => LowerHexChar(s[i]))
  }

  /** The value of a string of hexadecimal digits, most significant first;
      None when some character is not a hexadecimal digit. */
  function ParseHex(s: string): (r: Option<nat>)
    ensures r.Some? <==> forall i :: 0 <= i < |s| ==> IsHexDigit(s[i])
    ensures r.Some? ==> r.value < Pow16(|s|)
    decreases |s|
  {
    if s == [] then Some(0)
    else
      var high := ParseHex(s[..|s| - 1]);
      var low := HexDigitValue(s[|s| - 1]);
      if high.Some? && low.Some? then Some(high.value * 16 + low.value) else None
  }

  /** n written with exactly `width` lower-case hexadecimal digits, zero-padded. */
  function ToHex(n: nat, width: nat): (s: string)
    requires n < Pow16(width)
    ensures |s| == width
    decreases width
  {
    if width == 0 then [] else ToHex(n / 16, width - 1) + [HexChar(n % 16)]
  }

  lemma {:induction false} ParseToHex(n: nat, width: nat)
    requires n < Pow16(width)
    ensures ParseHex(ToHex(n, width)) == Some(n)
    decreases width
  {
    if width > 0 {
      var s := ToHex(n, width);
      assert s[..width - 1] == ToHex(n / 16, width - 1);
      ParseToHex(n / 16, width - 1);
    }
  }

  lemma {:induction false} ToHexOfParse(s: string)
    requires ParseHex(s).Some?
    ensures ToHex(ParseHex(s).value, |s|) == LowerHex(s)
    decreases |s|
  {
    if s != [] {
      var init, last := s[..|s| - 1], s[|s| - 1];
      var v, high, d := ParseHex(s).value, ParseHex(init).value, HexDigitValue(last).value;
      assert v == high * 16 + d;
      assert v / 16 == high && v % 16 == d;
      ToHexOfParse(init);
      assert HexChar(d) == LowerHexChar(last);
      assert LowerHex(s) == LowerHex(init) + [LowerHexChar(last)];
    }
  }

  /** A UUID as the five groups of its textual form: time_low (8 digits),
      time_mid (4), time_hi_and_version (4), clock_seq (4) and node (12). */
  datatype Uuid = Uuid(timeLow: nat, timeMid: nat, timeHiAndVersion: nat, clockSeq: nat, node: nat)

  /** Each group fits in its number of hexadecimal digits (128 bits in all). */
  predicate WellFormed(u: Uuid) {
    u.timeLow < Pow16(8) && u.timeMid < Pow16(4) && u.timeHiAndVersion < Pow16(4)
    && u.clockSeq < Pow16(4) && u.node < Pow16(12)
  }

  predicate IsHyphenPosition(i: int) {
    i == 8 || i == 13 || i == 18 || i == 23
  }

  /** The canonical textual form: 36 characters, hyphens at 8, 13, 18 and 23,
      hexadecimal digits of either case everywhere else. */
  predicate IsCanonicalUuidText(s: string) {
    |s| == 36 &&
    forall i :: 0 <= i < 36 ==> if IsHyphenPosition(i) then s[i] == '-' else IsHexDigit(s[i])
  }

  /** `UUID.fromString` restricted to the canonical form: None stands for the
      IllegalArgumentException the library throws on malformed text. */
  function ParseUuid(s: string): (r: Option<Uuid>)
    ensures r.Some? <==> IsCanonicalUuidText(s)
    ensures r.Some? ==> WellFormed(r.value)
  {
    if |s| == 36 && s[8] == '-' && s[13] == '-' && s[18] == '-' && s[23] == '-' then
      var a, b, c := ParseHex(s[0..8]), ParseHex(s[9..13]), ParseHex(s[14..18]);
      var d, e := ParseHex(s[19..23]), ParseHex(s[24..36]);
      assert IsCanonicalUuidText(s) ==> a.Some? && b.Some? && c.Some? && d.Some? && e.Some?;
      assert a.Some? && b.Some? && c.Some? && d.Some? && e.Some? ==> IsCanonicalUuidText(s) by {
        if a.Some? && b.Some? && c.Some? && d.Some? && e.Some? {
          forall i | 0 <= i < 36 && !IsHyphenPosition(i) ensures IsHexDigit(s[i]) {
            if i < 8 { assert s[0..8][i] == s[i]; }
            else if i < 13 { assert s[9..13][i - 9] == s[i]; }
            else if i < 18 { assert s[14..18][i - 14] == s[i]; }
            else if i < 23 { assert s[19..23][i - 19] == s[i]; }
            else { assert s[24..36][i - 24] == s[i]; }
          }
        }
      }
      if a.Some? && b.Some? && c.Some? && d.Some? && e.Some? then
        Some(Uuid(a.value, b.value, c.value, d.value, e.value))
      else None
    else None
  }

  /** `UUID.toString`: the canonical lower-case form. */
  function FormatUuid(u: Uuid): (s: string)
    requires WellFormed(u)
    ensures |s| == 36
  {
    ToHex(u.timeLow, 8) + "-" + ToHex(u.timeMid, 4) + "-" + ToHex(u.timeHiAndVersion, 4) + "-"
    + ToHex(u.clockSeq, 4) + "-" + ToHex(u.node, 12)
  }

  /** Where the five groups and the four hyphens sit in a joined text. */
  lemma JoinedGroups(a: string, b: string, c: string, d: string, e: string)
    requires |a| == 8 && |b| == 4 && |c| == 4 && |d| == 4 && |e| == 12
    ensures var s := a + "-" + b + "-" + c + "-" + d + "-" + e;
      s[0..8] == a && s[9..13] == b && s[14..18] == c && s[19..23] == d && s[24..36] == e
      && s[8] == '-' && s[13] == '-' && s[18] == '-' && s[23] == '-'
  {
    var s := a + "-" + b + "-" + c + "-" + d + "-" + e;
    assert s[0..8] == a by { assert s == a + ("-" + b + "-" + c + "-" + d + "-" + e); }
  }

  /** A text with hyphens at the four group boundaries is the join of its groups. */
  lemma SplitGroups(s: string)
    requires |s| == 36 && s[8] == '-' && s[13] == '-' && s[18] == '-' && s[23] == '-'
    ensures s == s[0..8] + "-" + s[9..13] + "-" + s[14..18] + "-" + s[19..23] + "-" + s[24..36]
  {
  }

  lemma LowerHexConcat(x: string, y: string)
    ensures LowerHex(x + y) == LowerHex(x) + LowerHex(y)
  {
  }

  /** Formatting and then parsing gives the same UUID back. */
  lemma ParseFormat(u: Uuid)
    requires WellFormed(u)
    ensures ParseUuid(FormatUuid(u)) == Some(u)
  {
    JoinedGroups(ToHex(u.timeLow, 8), ToHex(u.timeMid, 4), ToHex(u.timeHiAndVersion, 4),
                 ToHex(u.clockSeq, 4), ToHex(u.node, 12));
    ParseToHex(u.timeLow, 8);
    ParseToHex(u.timeMid, 4);
    ParseToHex(u.timeHiAndVersion, 4);
    ParseToHex(u.clockSeq, 4);
    ParseToHex(u.node, 12);
  }

  /** Parsing and then formatting gives the text back, lower-cased: two texts
      name the same UUID exactly when they agree up to the case of their letters. */
  lemma FormatParse(s: string)
    requires ParseUuid(s).Some?
    ensures FormatUuid(ParseUuid(s).value) == LowerHex(s)
  {
    var a, b, c, d, e := s[0..8], s[9..13], s[14..18], s[19..23], s[24..36];
    ToHexOfParse(a);
    ToHexOfParse(b);
    ToHexOfParse(c);
    ToHexOfParse(d);
    ToHexOfParse(e);
    SplitGroups(s);
    LowerHexConcat(a + "-" + b + "-" + c + "-" + d + "-", e);
    LowerHexConcat(a + "-" + b + "-" + c + "-" + d, "-");
    LowerHexConcat(a + "-" + b + "-" + c + "-", d);
    LowerHexConcat(a + "-" + b + "-" + c, "-");
    LowerHexConcat(a + "-" + b + "-", c);
    LowerHexConcat(a + "-" + b, "-");
    LowerHexConcat(a + "-", b);
    LowerHexConcat(a, "-");
    assert LowerHex("-") == "-";
  }
}
