/**
 * The text form of identifiers: UUIDs as the vault's keys, and the vault's check on keys
 * (crates/singularis-vault/src/vault.rs, `validate_identifier`).
 */
module Identifiers {
  import opened Protocol
  import Text

  const MAX_ID_BYTES := 128

  predicate IsIdentifierChar(c: char) {
    'a' <= c <= 'z' || 'A' <= c <= 'Z' || '0' <= c <= '9' || c == '-' || c == '_'
  }

  predicate ValidIdentifier(value: string) {
    value != "" && Text.Utf8Length(value) <= MAX_ID_BYTES &&
    forall i | 0 <= i < |value| :: IsIdentifierChar(value[i])
  }

  function HexDigit(v: int): (c: char)
    requires 0 <= v < 16
    ensures IsIdentifierChar(c) && c as int < 0x80
    ensures c as int - (if v < 10 then '0' as int else 'a' as int - 10) == v
  {
    if v < 10 then ('0' as int + v) as char else ('a' as int + v - 10) as char
  }

  function Hex(n: nat, digits: nat): (text: string)
    ensures |text| == digits
    ensures forall i | 0 <= i < |text| :: IsIdentifierChar(text[i]) && text[i] as int < 0x80
  {
    if digits == 0 then "" else Hex(n / 16, digits - 1) + [HexDigit(n % 16)]
  }

  function Power16(digits: nat): nat { if digits == 0 then 1 else 16 * Power16(digits - 1) }

  lemma {:induction false} HexIsInjective(a: nat, b: nat, digits: nat)
    requires a < Power16(digits) && b < Power16(digits)
    requires Hex(a, digits) == Hex(b, digits)
    ensures a == b
  {
    if digits > 0 {
      var x, y := Hex(a, digits), Hex(b, digits);
      assert x[..digits - 1] == Hex(a / 16, digits - 1);
      assert y[..digits - 1] == Hex(b / 16, digits - 1);
      assert x[digits - 1] == HexDigit(a % 16) && y[digits - 1] == HexDigit(b % 16);
      assert a % 16 == b % 16;
      HexIsInjective(a / 16, b / 16, digits - 1);
    }
  }

  function Hyphenate(hex: string): (text: string)
    requires |hex| == 32
    ensures |text| == 36
    ensures forall i | 0 <= i < 36 :: text[i] == '-' || text[i] in hex
  {
    hex[..8] + "-" + hex[8..12] + "-" + hex[12..16] + "-" + hex[16..20] + "-" + hex[20..]
  }

  function Unhyphenate(text: string): string
    requires |text| == 36
  {
    text[..8] + text[9..13] + text[14..18] + text[19..23] + text[24..]
  }

  lemma UnhyphenateHyphenate(hex: string)
    requires |hex| == 32
    ensures Unhyphenate(Hyphenate(hex)) == hex
  {
    var text := Hyphenate(hex);
    assert text[..8] == hex[..8] && text[9..13] == hex[8..12];
    assert text[14..18] == hex[12..16] && text[19..23] == hex[16..20] && text[24..] == hex[20..];
  }

  /** `Uuid::to_string`: 32 hexadecimal digits as 8-4-4-4-12. */
  function UuidText(id: Uuid): string { Hyphenate(Hex(id, 32)) }

  lemma Power16Of32()
    ensures Power16(32) == 0x1_0000_0000_0000_0000_0000_0000_0000_0000
  {
    assert Power16(8) == 0x1_0000_0000;
    assert Power16(16) == 0x1_0000_0000_0000_0000;
    assert Power16(24) == 0x1_0000_0000_0000_0000_0000_0000;
  }

  /** The vault accepts every UUID as a key, and distinct UUIDs are distinct keys. */
  lemma UuidTextIsAKey(a: Uuid, b: Uuid)
    ensures ValidIdentifier(UuidText(a))
    ensures UuidText(a) == UuidText(b) ==> a == b
  {
    Text.AsciiLength(UuidText(a));
    hide Hyphenate, Unhyphenate, Hex, Power16;
    Power16Of32();
    if UuidText(a) == UuidText(b) {
      UnhyphenateHyphenate(Hex(a, 32));
      UnhyphenateHyphenate(Hex(b, 32));
      HexIsInjective(a, b, 32);
    }
  }
}
