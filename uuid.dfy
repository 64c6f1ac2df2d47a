/**
 * The identifier value object. Its textual form is the one of section 3 of
 * RFC 4122: 32 hexadecimal digits in groups of 8-4-4-4-12 separated by hyphens.
 */
module Identifier {
  import opened Wrappers
  import opened Errors

  newtype byte = x: int | 0 <= x < 256

  /** The 16 random bytes a version-4 identifier is generated from. */
  type Entropy = s: seq<byte> | |s| == 16 witness seq(16, _ => 0)

  predicate IsHexDigit(c: char) {
    '0' <= c <= '9' || 'a' <= c <= 'f' || 'A' <= c <= 'F'
  }

  predicate IsHyphenPosition(i: int) {
    i == 8 || i == 13 || i == 18 || i == 23
  }

  /** The 8-4-4-4-12 hexadecimal shape, in either letter case. */
  predicate ValidUuid(s: string) {
    |s| == 36 &&
    forall i :: 0 <= i < |s| ==> if IsHyphenPosition(i) then s[i] == '-' else IsHexDigit(s[i])
  }

  datatype UuidValue = UuidValue(id: string)

  /** An identifier: only well-formed strings can be wrapped. */
  type Uuid = u: UuidValue | ValidUuid(u.id)
    witness UuidValue("00000000-0000-0000-0000-000000000000")

  /** `new Uuid(id)`: validates the supplied string and keeps it verbatim. */
  function Parse(s: string): (r: Result<Uuid, DomainError>)
    ensures r.Success? <==> ValidUuid(s)
    ensures r.Success? ==> r.value.id == s
    ensures r.Failure? ==> r.error == InvalidUuidError
  {
    if ValidUuid(s) then Success(UuidValue(s)) else Failure(InvalidUuidError)
  }

  /** The lower-case hexadecimal digit of `n`. */
  function HexDigit(n: int): (c: char)
    requires 0 <= n < 16
    ensures IsHexDigit(c)
  {
    if n < 10 then (n + 48) as char else (n - 10 + 97) as char
  }

  /** Two hexadecimal digits per byte, high nibble first. */
  function Hex(bs: seq<byte>): (r: string)
    ensures |r| == 2 * |bs|
    ensures forall k :: 0 <= k < |bs| ==>
      r[2 * k] == HexDigit(bs[k] as int / 16) && r[2 * k + 1] == HexDigit(bs[k] as int % 16)
    ensures forall i :: 0 <= i < |r| ==> IsHexDigit(r[i])
  {
    if bs == [] then []
    else [HexDigit(bs[0] as int / 16), HexDigit(bs[0] as int % 16)] + Hex(bs[1..])
  }

  /** The canonical text of 16 bytes: hex groups of 4, 2, 2, 2 and 6 bytes. */
  function Format(bs: seq<byte>): (s: string)
    requires |bs| == 16
    ensures ValidUuid(s)
    ensures s[14] == HexDigit(bs[6] as int / 16) && s[19] == HexDigit(bs[8] as int / 16)
  {
    var a, b, c, d, e := Hex(bs[..4]), Hex(bs[4..6]), Hex(bs[6..8]), Hex(bs[8..10]), Hex(bs[10..]);
    var s := a + "-" + b + "-" + c + "-" + d + "-" + e;
    assert forall i :: 0 <= i < 36 ==>
      if i < 8 then s[i] == a[i]
      else if i == 8 then s[i] == '-'
      else if i < 13 then s[i] == b[i - 9]
      else if i == 13 then s[i] == '-'
      else if i < 18 then s[i] == c[i - 14]
      else if i == 18 then s[i] == '-'
      else if i < 23 then s[i] == d[i - 19]
      else if i == 23 then s[i] == '-'
      else s[i] == e[i - 24];
    s
  }

  /**
   * `new Uuid()`: a random version-4 identifier. The version nibble is set
   * to 4 and the two variant bits to 10, as the generator does.
   */
  function Generate(random: Entropy): (u: Uuid)
    ensures u.id[14] == '4'
    ensures u.id[19] in {'8', '9', 'a', 'b'}
    ensures Parse(u.id) == Success(u)
  {
    var bs := random[6 := 0x40 + random[6] % 16][8 := 0x80 + random[8] % 64];
    UuidValue(Format(bs))
  }

  /** The two identifier strings of the value object's tests. */
  lemma TestIdentifiers()
    ensures Parse("invalid-uuid") == Failure(InvalidUuidError)
    ensures Parse("") == Failure(InvalidUuidError)
    ensures Parse("123e4567-e89b-12d3-a456-426614174000").Success?
    ensures Parse("123e4567-e89b-12d3-a456-426614174000").value.id == "123e4567-e89b-12d3-a456-426614174000"
  {
  }
}
