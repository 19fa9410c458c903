/**
 * The part of the uuid crate the service relies on: `Uuid::parse_str` on the
 * simple (32 hex digits) and hyphenated (8-4-4-4-12) forms, and the
 * hyphenated rendering used when a UUID is shown.
 */
module Uuid {
  import opened Wrappers

  type Nibble = n: nat | n < 16

  /** A 128-bit identifier as its 32 hexadecimal digits, most significant first. */
  type Uuid = s: seq<Nibble> | |s| == 32 witness seq(32, _ => 0)

  datatype ParseError = InvalidLength(found: nat) | InvalidGroups | InvalidCharacter

  predicate IsHex(c: char) {
    ('0' <= c <= '9') || ('a' <= c <= 'f') || ('A' <= c <= 'F')
  }

  function NibbleOf(c: char): Nibble {
    if '0' <= c <= '9' then (c - '0') as int
    else if 'a' <= c <= 'f' then (c - 'a') as int + 10
    else if 'A' <= c <= 'F' then (c - 'A') as int + 10
    else 0
  }

  function HexDigit(n: Nibble): (c: char)
    ensures IsHex(c) && NibbleOf(c) == n
  {
    if n < 10 then '0' + n as char else 'a' + (n - 10) as char
  }

  function Hex(ns: seq<Nibble>): (s: string)
    ensures |s| == |ns|
    ensures forall i :: 0 <= i < |s| ==> IsHex(s[i]) && NibbleOf(s[i]) == ns[i]
  {
    seq(|ns|, i requires 0 <= i < |ns| => HexDigit(ns[i]))
  }

  predicate AllHex(s: string) {
    forall i :: 0 <= i < |s| ==> IsHex(s[i])
  }

  /** The 32 digits of a well-formed string, or the reason it is not one. */
  function ParseDigits(digits: string): (r: Result<Uuid, ParseError>)
    requires |digits| == 32
    ensures r.Success? <==> AllHex(digits)
    ensures r.Success? ==> forall i :: 0 <= i < 32 ==> r.value[i] == NibbleOf(digits[i])
  {
    if AllHex(digits) then Success(seq(32, i requires 0 <= i < 32 => NibbleOf(digits[i])))
    else Failure(InvalidCharacter)
  }

  predicate Dashed(s: string)
    requires |s| == 36
  {
    s[8] == '-' && s[13] == '-' && s[18] == '-' && s[23] == '-'
  }

  function Undashed(s: string): (d: string)
    requires |s| == 36
    ensures |d| == 32
  {
    s[..8] + s[9..13] + s[14..18] + s[19..23] + s[24..]
  }

  /** `Uuid::parse_str` on the simple and the hyphenated forms. */
  function ParseStr(s: string): (r: Result<Uuid, ParseError>)
    ensures |s| != 32 && |s| != 36 ==> r == Failure(InvalidLength(|s|))
    ensures r.Success? ==> |s| == 32 || |s| == 36
  {
    if |s| == 32 then ParseDigits(s)
    else if |s| == 36 then
      if Dashed(s) then ParseDigits(Undashed(s)) else Failure(InvalidGroups)
    else Failure(InvalidLength(|s|))
  }

  /** The 8-4-4-4-12 rendering of a UUID. */
  function Hyphenated(u: Uuid): (s: string)
    ensures |s| == 36
  {
    Hex(u[..8]) + "-" + Hex(u[8..12]) + "-" + Hex(u[12..16]) + "-" + Hex(u[16..20]) + "-" + Hex(u[20..])
  }

  lemma {:induction false} HexDecodes(u: Uuid)
    ensures ParseDigits(Hex(u)) == Success(u)
  {
    var s := Hex(u);
    assert AllHex(s);
    var r := ParseDigits(s);
    assert forall i :: 0 <= i < 32 ==> r.value[i] == u[i];
    assert r.value == u;
  }

  /** Parsing the hyphenated rendering gives back the same identifier. */
  lemma {:induction false} ParseHyphenated(u: Uuid)
    ensures ParseStr(Hyphenated(u)) == Success(u)
  {
    var s := Hyphenated(u);
    assert Dashed(s);
    assert Undashed(s) == Hex(u[..8]) + Hex(u[8..12]) + Hex(u[12..16]) + Hex(u[16..20]) + Hex(u[20..]);
    assert Undashed(s) == Hex(u);
    HexDecodes(u);
  }

  /** Parsing the simple rendering gives back the same identifier. */
  lemma {:induction false} ParseSimple(u: Uuid)
    ensures ParseStr(Hex(u)) == Success(u)
  {
    HexDecodes(u);
  }
}
