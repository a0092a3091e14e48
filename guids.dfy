/** `System.Guid`: a 128-bit identifier, its "D" text form (`ToString()`) and `Guid.Parse`. */
module Guids {
  import opened Wrappers

  type Nibble = x: int | 0 <= x < 16

  /** A GUID as its 32 hexadecimal digits, in the order `ToString()` prints them. */
  type Guid = s: seq<Nibble> | |s| == 32 witness seq<Nibble>(32, _ => 0)

  /** Lower-case hexadecimal digit, as `Guid.ToString()` prints it. */
  function HexDigit(n: Nibble): char
  {
    if n < 10 then ('0' as int + n) as char else ('a' as int + n - 10) as char
  }

  /** The value of a hexadecimal digit of either case, or `None` for any other character. */
  function HexValue(c: char): (r: Option<Nibble>)
    ensures r.Some? <==> ('0' <= c <= '9' || 'a' <= c <= 'f' || 'A' <= c <= 'F')
  {
    if '0' <= c <= '9' then Some(c as int - '0' as int)
    else if 'a' <= c <= 'f' then Some(c as int - 'a' as int + 10)
    else if 'A' <= c <= 'F' then Some(c as int - 'A' as int + 10)
    else None
  }

  lemma HexValueOfDigit(n: Nibble)
    ensures HexValue(HexDigit(n)) == Some(n)
  {
  }

  function Hex(ds: seq<Nibble>): (r: string)
    ensures |r| == |ds|
    ensures forall i :: 0 <= i < |ds| ==> r[i] == HexDigit(ds[i])
  {
    seq(|ds|, i requires 0 <= i < |ds| => HexDigit(ds[i]))
  }

  /** Reads a run of hexadecimal digits; fails on the first character that is not one. */
  function ParseHex(s: string): (r: Option<seq<Nibble>>)
    ensures r.Some? <==> forall i :: 0 <= i < |s| ==> HexValue(s[i]).Some?
    ensures r.Some? ==> |r.value| == |s| && forall i :: 0 <= i < |s| ==> HexValue(s[i]) == Some(r.value[i])
  {
    if s == [] then Some([])
    else match HexValue(s[0])
      case None => None
      case Some(d) =>
        match ParseHex(s[1..])
        case None => None
        case Some(rest) => Some([d] + rest)
  }

  lemma {:induction false} ParseHexOfHex(ds: seq<Nibble>)
    ensures ParseHex(Hex(ds)) == Some(ds)
  {
    var h := Hex(ds);
    forall i | 0 <= i < |ds| ensures HexValue(h[i]) == Some(ds[i]) {
      HexValueOfDigit(ds[i]);
    }
    assert ParseHex(h).Some?;
    var v := ParseHex(h).value;
    assert forall i :: 0 <= i < |ds| ==> v[i] == ds[i];
    assert v == ds;
  }

  /** `Guid.ToString()`: the "D" format, 8-4-4-4-12 lower-case digits separated by hyphens. */
  function Format(g: Guid): (r: string)
    ensures |r| == 36 && HyphensAt(r)
  {
    Hex(g[..8]) + "-" + Hex(g[8..12]) + "-" + Hex(g[12..16]) + "-" + Hex(g[16..20]) + "-" + Hex(g[20..])
  }

  predicate HyphensAt(s: string)
    requires |s| == 36
  {
    s[8] == '-' && s[13] == '-' && s[18] == '-' && s[23] == '-'
  }

  /** `Guid.Parse` on the "D" format, digits of either case; any other text fails with
      `FormatException`. */
  function Parse(s: string): (r: Result<Guid>)
    ensures r.Success? ==> |s| == 36 && HyphensAt(s)
    ensures r.Failure? ==> r.error == FormatException
  {
    if |s| != 36 || !HyphensAt(s) then Failure(FormatException)
    else
      match (ParseHex(s[..8]), ParseHex(s[9..13]), ParseHex(s[14..18]), ParseHex(s[19..23]), ParseHex(s[24..]))
      case (Some(a), Some(b), Some(c), Some(d), Some(e)) => Success(a + b + c + d + e)
      case _ => Failure(FormatException)
  }

  /** Text hyphenated like the "D" format whose five groups parse parses to their concatenation. */
  lemma ParseOfGroups(s: string, a: seq<Nibble>, b: seq<Nibble>, c: seq<Nibble>, d: seq<Nibble>, e: seq<Nibble>)
    requires |s| == 36 && HyphensAt(s)
    requires ParseHex(s[..8]) == Some(a) && ParseHex(s[9..13]) == Some(b) && ParseHex(s[14..18]) == Some(c)
    requires ParseHex(s[19..23]) == Some(d) && ParseHex(s[24..]) == Some(e)
    ensures |a + b + c + d + e| == 32 && Parse(s) == Success(a + b + c + d + e)
  {
  }

  /** Parsing the text form of a GUID gives the GUID back: the identifier in a token's
      NameIdentifier claim survives the trip through text. */
  lemma {:induction false} ParseFormat(g: Guid)
    ensures Parse(Format(g)) == Success(g)
  {
    FormatGroups(g);
    ParseHexOfHex(g[..8]);
    ParseHexOfHex(g[8..12]);
    ParseHexOfHex(g[12..16]);
    ParseHexOfHex(g[16..20]);
    ParseHexOfHex(g[20..]);
    ParseOfGroups(Format(g), g[..8], g[8..12], g[12..16], g[16..20], g[20..]);
    SplitGroups(g);
  }

  /** A GUID is the concatenation of its five digit groups. */
  lemma SplitGroups(g: Guid)
    ensures g[..8] + g[8..12] + g[12..16] + g[16..20] + g[20..] == g
  {
    assert g[..8] + g[8..12] == g[..12];
    assert g[..12] + g[12..16] == g[..16];
    assert g[..16] + g[16..20] == g[..20];
    assert g[..20] + g[20..] == g;
  }

  /** The five digit groups of the text form of a GUID, between the hyphens. */
  lemma FormatGroups(g: Guid)
    ensures var f := Format(g);
      && f[..8] == Hex(g[..8]) && f[9..13] == Hex(g[8..12]) && f[14..18] == Hex(g[12..16])
      && f[19..23] == Hex(g[16..20]) && f[24..] == Hex(g[20..])
  {
    var f := Format(g);
    var a, b, c, d, e := Hex(g[..8]), Hex(g[8..12]), Hex(g[12..16]), Hex(g[16..20]), Hex(g[20..]);
    assert f == a + "-" + b + "-" + c + "-" + d + "-" + e;
    assert f[..8] == a;
    assert f[9..13] == b;
    assert f[14..18] == c;
    assert f[19..23] == d;
    assert f[24..] == e;
  }

  /** Distinct GUIDs print differently. */
  lemma FormatInjective(g: Guid, h: Guid)
    ensures Format(g) == Format(h) <==> g == h
  {
    if Format(g) == Format(h) {
      ParseFormat(g);
      ParseFormat(h);
    }
  }
}
