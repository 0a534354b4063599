/** Bytes as hexadecimal text, and the number such a text writes. */
module Hex {
  import opened ByteWords
  import opened BigEndian

  predicate IsHexDigit(c: char) {
    '0' <= c <= '9' || 'a' <= c <= 'f' || 'A' <= c <= 'F'
  }

  function HexDigitValue(c: char): (n: nat)
    ensures n < 16 && (IsHexDigit(c) ==> (n == 0 <==> c == '0'))
  {
    if '0' <= c <= '9' then c as int - '0' as int
    else if 'a' <= c <= 'f' then c as int - 'a' as int + 10
    else if 'A' <= c <= 'F' then c as int - 'A' as int + 10
    else 0
  }

  /** The number a text of hexadecimal digits writes, most significant digit first. */
  function HexValue(text: string): nat {
    if text == "" then 0 else 16 * HexValue(text[..|text| - 1]) + HexDigitValue(text[|text| - 1])
  }

  /** The number is zero exactly when every digit is. */
  lemma {:induction false} HexZero(text: string)
    requires forall i | 0 <= i < |text| :: IsHexDigit(text[i])
    ensures HexValue(text) == 0 <==> forall i | 0 <= i < |text| :: text[i] == '0'
  {
    if text != "" {
      var init, last := text[..|text| - 1], text[|text| - 1];
      HexZero(init);
      assert forall i | 0 <= i < |text| :: text[i] == if i < |init| then init[i] else last;
    }
  }

  function HexDigit(d: nat): (c: char)
    requires d < 16
    ensures IsHexDigit(c) && HexDigitValue(c) == d
  {
    if d < 10 then ('0' as int + d) as char else ('a' as int + d - 10) as char
  }

  /** Two digits for each byte, in lower case. */
  function HexText(word: Bytes): (text: string)
    ensures |text| == 2 * |word| && forall i | 0 <= i < |text| :: IsHexDigit(text[i])
  {
    if word == [] then ""
    else
      var last := word[|word| - 1];
      HexText(word[..|word| - 1]) + [HexDigit(last / 16), HexDigit(last % 16)]
  }

  /** Written out and read back, a word keeps its number. */
  lemma {:induction false} HexReadsBack(word: Bytes)
    ensures HexValue(HexText(word)) == Value(word)
  {
    if word != [] {
      var init, last := word[..|word| - 1], word[|word| - 1];
      HexReadsBack(init);
      var high := HexText(init) + [HexDigit(last / 16)];
      assert HexText(word)[..|HexText(word)| - 1] == high && high[..|high| - 1] == HexText(init);
      TwoDigits(HexValue(HexText(init)), last / 16, last % 16, last);
    }
  }

  lemma TwoDigits(n: nat, high: nat, low: nat, last: nat)
    requires last == 16 * high + low
    ensures 16 * (16 * n + high) + low == 256 * n + last
  {
  }
}
