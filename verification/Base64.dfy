/** Standard base64 (section 4 of RFC 4648), as the mail builder uses it for every body. */
module Base64 {
  import opened Wrappers

  type Byte = b: int | 0 <= b < 256

  type Sextet = v: int | 0 <= v < 64

  // Table 1 of RFC 4648.
  function Digit(v: Sextet): char {
    if v < 26 then (v + 'A' as int) as char
    else if v < 52 then (v - 26 + 'a' as int) as char
    else if v < 62 then (v - 52 + '0' as int) as char
    else if v == 62 then '+'
    else '/'
  }

  function Value(c: char): Option<Sextet> {
    if 'A' <= c <= 'Z' then Some(c as int - 'A' as int)
    else if 'a' <= c <= 'z' then Some(c as int - 'a' as int + 26)
    else if '0' <= c <= '9' then Some(c as int - '0' as int + 52)
    else if c == '+' then Some(62)
    else if c == '/' then Some(63)
    else None
  }

  predicate IsSymbol(c: char) {
    'A' <= c <= 'Z' || 'a' <= c <= 'z' || '0' <= c <= '9' || c == '+' || c == '/' || c == '='
  }

  function Quad(a: Byte, b: Byte, c: Byte): string {
    [Digit(a / 4), Digit(a % 4 * 16 + b / 16), Digit(b % 16 * 4 + c / 64), Digit(c % 64)]
  }

  function Encode(data: seq<Byte>): string {
    if |data| == 0 then ""
    else if |data| == 1 then Quad(data[0], 0, 0)[..2] + "=="
    else if |data| == 2 then Quad(data[0], data[1], 0)[..3] + "="
    else Quad(data[0], data[1], data[2]) + Encode(data[3..])
  }

  function DecodeQuad(w: string): Option<seq<Byte>>
    requires |w| == 4
  {
    var p :- Value(w[0]);
    var q :- Value(w[1]);
    if w[2] == '=' && w[3] == '=' then Some([p * 4 + q / 16])
    else
      var r :- Value(w[2]);
      if w[3] == '=' then Some([p * 4 + q / 16, q % 16 * 16 + r / 4])
      else
        var s :- Value(w[3]);
        Some([p * 4 + q / 16, q % 16 * 16 + r / 4, r % 4 * 64 + s])
  }

  /** A decoder: padding is accepted in the last group only. */
  function Decode(text: string): Option<seq<Byte>> {
    if |text| == 0 then Some([])
    else if |text| < 4 then None
    else
      var head :- DecodeQuad(text[..4]);
      var rest :- Decode(text[4..]);
      if |head| < 3 && rest != [] then None else Some(head + rest)
  }

  lemma DigitHasValue(v: Sextet)
    ensures Value(Digit(v)) == Some(v)
  {
  }

  // The bits of three bytes, cut into four sextets and put together again.
  lemma BitsRegroup(a: Byte, b: Byte, c: Byte)
    ensures a / 4 * 4 + (a % 4 * 16 + b / 16) / 16 == a
    ensures (a % 4 * 16 + b / 16) % 16 * 16 + (b % 16 * 4 + c / 64) / 4 == b
    ensures (b % 16 * 4 + c / 64) % 4 * 64 + c % 64 == c
  {
  }

  lemma DecodeFullQuad(a: Byte, b: Byte, c: Byte)
    ensures DecodeQuad(Quad(a, b, c)) == Some([a, b, c])
  {
    var p, q, r, s := a / 4, a % 4 * 16 + b / 16, b % 16 * 4 + c / 64, c % 64;
    DigitHasValue(p);
    DigitHasValue(q);
    DigitHasValue(r);
    DigitHasValue(s);
    BitsRegroup(a, b, c);
  }

  lemma DecodeTwoBytes(a: Byte, b: Byte)
    ensures DecodeQuad(Quad(a, b, 0)[..3] + "=") == Some([a, b])
  {
    DigitHasValue(a / 4);
    DigitHasValue(a % 4 * 16 + b / 16);
    DigitHasValue(b % 16 * 4);
    BitsRegroup(a, b, 0);
  }

  lemma DecodeOneByte(a: Byte)
    ensures DecodeQuad(Quad(a, 0, 0)[..2] + "==") == Some([a])
  {
    DigitHasValue(a / 4);
    DigitHasValue(a % 4 * 16);
    BitsRegroup(a, 0, 0);
  }

  lemma DecodeGroup(group: string, rest: string, head: seq<Byte>, tail: seq<Byte>)
    requires |group| == 4 && DecodeQuad(group) == Some(head)
    requires Decode(rest) == Some(tail) && (|head| == 3 || tail == [])
    ensures Decode(group + rest) == Some(head + tail)
  {
    assert (group + rest)[..4] == group && (group + rest)[4..] == rest;
  }

  // The last group of data whose length is not a multiple of three.
  lemma DecodeInvertsTail(data: seq<Byte>)
    requires 0 < |data| < 3
    ensures Decode(Encode(data)) == Some(data)
  {
    var group := Encode(data);
    if |data| == 1 {
      DecodeOneByte(data[0]);
      assert data == [data[0]];
    } else {
      DecodeTwoBytes(data[0], data[1]);
      assert data == [data[0], data[1]];
    }
    DecodeGroup(group, "", data, []);
    assert group + "" == group && data + [] == data;
  }

  lemma {:induction false} DecodeInvertsEncode(data: seq<Byte>)
    ensures Decode(Encode(data)) == Some(data)
  {
    if |data| == 0 {
    } else if |data| < 3 {
      DecodeInvertsTail(data);
    } else {
      var head := [data[0], data[1], data[2]];
      DecodeFullQuad(data[0], data[1], data[2]);
      DecodeInvertsEncode(data[3..]);
      DecodeGroup(Quad(data[0], data[1], data[2]), Encode(data[3..]), head, data[3..]);
      assert head + data[3..] == data;
    }
  }

  /** The digits are A to Z, a to z, 0 to 9, + and /, in this order. */
  lemma DigitsAreTheAlphabet(v: Sextet)
    ensures Digit(0) == 'A' && Digit(26) == 'a' && Digit(52) == '0' && Digit(62) == '+' && Digit(63) == '/'
    ensures v !in {0, 26, 52, 62, 63} ==> Digit(v) as int == Digit(v - 1) as int + 1
  {
  }

  // The 24 bits of three bytes as four sextets, most significant first.
  lemma BitsAreKept(a: Byte, b: Byte, c: Byte)
    ensures ((a / 4 * 64 + (a % 4 * 16 + b / 16)) * 64 + (b % 16 * 4 + c / 64)) * 64 + c % 64 == (a * 256 + b) * 256 + c
  {
    assert a == a / 4 * 4 + a % 4 && b == b / 16 * 16 + b % 16 && c == c / 64 * 64 + c % 64;
  }

  /** A group of digits is the bits of its bytes, most significant first; padding fills the last group. */
  lemma EncodeIsBigEndian(a: Byte, b: Byte, c: Byte) returns (p: Sextet, q: Sextet, r: Sextet, t: Sextet)
    ensures ((p * 64 + q) * 64 + r) * 64 + t == (a * 256 + b) * 256 + c
    ensures Encode([a, b, c]) == [Digit(p), Digit(q), Digit(r), Digit(t)]
    ensures c == 0 ==> Encode([a, b]) == [Digit(p), Digit(q), Digit(r), '=']
    ensures b == 0 && c == 0 ==> Encode([a]) == [Digit(p), Digit(q), '=', '=']
  {
    p, q, r, t := a / 4, a % 4 * 16 + b / 16, b % 16 * 4 + c / 64, c % 64;
    BitsAreKept(a, b, c);
    hide Digit;
    assert Encode([a, b, c]) == Quad(a, b, c) + Encode([a, b, c][3..]) && [a, b, c][3..] == [];
  }

  lemma DigitIsSymbol(v: Sextet)
    ensures IsSymbol(Digit(v))
  {
  }

  lemma QuadEmitsSymbols(a: Byte, b: Byte, c: Byte)
    ensures forall d | d in Quad(a, b, c) :: IsSymbol(d)
  {
    DigitIsSymbol(a / 4);
    DigitIsSymbol(a % 4 * 16 + b / 16);
    DigitIsSymbol(b % 16 * 4 + c / 64);
    DigitIsSymbol(c % 64);
  }

  lemma {:induction false} EncodeEmitsSymbols(data: seq<Byte>)
    ensures forall c | c in Encode(data) :: IsSymbol(c)
  {
    if |data| == 0 {
    } else if |data| < 3 {
      var group := Quad(data[0], if |data| == 2 then data[1] else 0, 0);
      QuadEmitsSymbols(data[0], if |data| == 2 then data[1] else 0, 0);
      assert Encode(data) == if |data| == 1 then group[..2] + "==" else group[..3] + "=";
      assert forall c | c in group[..2] :: c in group;
      assert forall c | c in group[..3] :: c in group;
    } else {
      QuadEmitsSymbols(data[0], data[1], data[2]);
      EncodeEmitsSymbols(data[3..]);
    }
  }
}
