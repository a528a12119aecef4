/** The parts of Rust's `str` that the modelled code relies on. */
module Text {
  /** Unicode White_Space, the class behind `trim` and `split_whitespace`. */
  predicate IsWhitespace(c: char) {
    var code := c as int;
    9 <= code <= 13 || code == 0x20 || code == 0x85 || code == 0xA0 || code == 0x1680 ||
    0x2000 <= code <= 0x200A || code == 0x2028 || code == 0x2029 || code == 0x202F ||
    code == 0x205F || code == 0x3000
  }

  /** The 25 characters with that property. */
  lemma WhitespaceExactly(c: char)
    ensures IsWhitespace(c) <==>
            c as int in {0x9, 0xA, 0xB, 0xC, 0xD, 0x20, 0x85, 0xA0, 0x1680, 0x2000, 0x2001, 0x2002, 0x2003, 0x2004,
                         0x2005, 0x2006, 0x2007, 0x2008, 0x2009, 0x200A, 0x2028, 0x2029, 0x202F, 0x205F, 0x3000}
  {
  }

  /** `text.trim().is_empty()` */
  predicate IsBlank(text: string) {
    forall i | 0 <= i < |text| :: IsWhitespace(text[i])
  }

  function Utf8Width(c: char): (width: nat)
    ensures 1 <= width <= 4
  {
    var code := c as int;
    if code < 0x80 then 1 else if code < 0x800 then 2 else if code < 0x1_0000 then 3 else 4
  }

  /** `text.len()`: the length in UTF-8 bytes. */
  function Utf8Length(text: string): (length: nat)
    ensures length >= |text|
  {
    if text == "" then 0 else Utf8Width(text[0]) + Utf8Length(text[1..])
  }

  predicate IsAscii(text: string) {
    forall i | 0 <= i < |text| :: text[i] as int < 0x80
  }

  lemma {:induction false} AsciiLength(text: string)
    requires IsAscii(text)
    ensures Utf8Length(text) == |text|
  {
    if text != "" {
      AsciiLength(text[1..]);
    }
  }
}
