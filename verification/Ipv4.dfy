/**
 IPv4 addresses as numbers and as dotted quads, shell glob patterns, and the glob test the
 sandbox script uses in place of CIDR arithmetic.
 */
module Ipv4 {

  type Octet = o: int | 0 <= o < 256

  datatype Addr = Addr(a: Octet, b: Octet, c: Octet, d: Octet)

  function Number(x: Addr): nat {
    (x.a as int) * 0x100_0000 + (x.b as int) * 0x1_0000 + (x.c as int) * 0x100 + x.d
  }

  // ------------------------------------------------------------ dotted quads

  function DigitChar(n: int): char
    requires 0 <= n < 10
  {
    (n + '0' as int) as char
  }

  function Decimal(o: Octet): string {
    if o < 10 then [DigitChar(o)]
    else if o < 100 then [DigitChar(o / 10), DigitChar(o % 10)]
    else [DigitChar(o / 100), DigitChar(o / 10 % 10), DigitChar(o % 10)]
  }

  function Text(x: Addr): string {
    Decimal(x.a) + "." + (Decimal(x.b) + "." + (Decimal(x.c) + "." + Decimal(x.d)))
  }

  lemma DecimalIsInjective(o: Octet, p: Octet)
    ensures Decimal(o) == Decimal(p) <==> o == p
    ensures '.' !in Decimal(o)
  {
    if Decimal(o) == Decimal(p) && |Decimal(o)| == 3 {
      assert o / 100 == p / 100 && o / 10 % 10 == p / 10 % 10 && o % 10 == p % 10;
    }
  }

  // ------------------------------------------------------------ shell globs

  function DigitsValue(s: string): int {
    if s == "" then 0 else DigitsValue(s[..|s| - 1]) * 10 + (s[|s| - 1] as int - '0' as int)
  }

  /** The text of an octet is its decimal numeral, without a leading zero. */
  lemma DecimalDenotes(o: Octet)
    ensures DigitsValue(Decimal(o)) == o
    ensures forall c | c in Decimal(o) :: '0' <= c <= '9'
    ensures |Decimal(o)| > 1 ==> Decimal(o)[0] != '0'
  {
    var t := Decimal(o);
    assert DigitsValue("") == 0;
    assert DigitsValue(t[..1]) == t[0] as int - '0' as int by {
      assert t[..1][..0] == "";
    }
    if |t| == 2 {
      assert t[..2] == t && t[..2][..1] == t[..1];
    } else if |t| == 3 {
      assert t[..2][..1] == t[..1] && t[..3] == t && t[..3][..2] == t[..2];
    } else {
      assert t[..1] == t;
    }
  }

  datatype Token = Lit(c: char) | Range(lo: char, hi: char) | Star

  // Pattern text as the shell reads it; [x-y] is the only bracket form used.
  function Tokens(pattern: string): seq<Token> {
    if pattern == "" then []
    else if pattern[0] == '*' then [Star] + Tokens(pattern[1..])
    else if |pattern| >= 5 && pattern[0] == '[' && pattern[2] == '-' && pattern[4] == ']'
    then [Range(pattern[1], pattern[3])] + Tokens(pattern[5..])
    else [Lit(pattern[0])] + Tokens(pattern[1..])
  }

  predicate Matches(tokens: seq<Token>, s: string)
    decreases |tokens| + |s|
  {
    if tokens == [] then s == ""
    else match tokens[0]
      case Star => Matches(tokens[1..], s) || (s != "" && Matches(tokens, s[1..]))
      case Lit(c) => s != "" && s[0] == c && Matches(tokens[1..], s[1..])
      case Range(lo, hi) => s != "" && lo <= s[0] <= hi && Matches(tokens[1..], s[1..])
  }

  predicate Glob(pattern: string, s: string) {
    Matches(Tokens(pattern), s)
  }

  predicate Plain(s: string) {
    '*' !in s && '[' !in s
  }

  lemma {:induction false} StarMatchesAll(s: string)
    ensures Matches([Star], s)
  {
    if s != "" {
      StarMatchesAll(s[1..]);
    }
  }

  lemma {:induction false} PlainPrefix(p: string, rest: string, s: string)
    requires Plain(p)
    ensures Glob(p + rest, s) <==> p <= s && Glob(rest, s[|p|..])
  {
    if p == "" {
      assert p + rest == rest && s[0..] == s;
    } else {
      assert (p + rest)[1..] == p[1..] + rest;
      assert Tokens(p + rest) == [Lit(p[0])] + Tokens(p[1..] + rest);
      if s != "" {
        PlainPrefix(p[1..], rest, s[1..]);
        assert p <= s <==> p[0] == s[0] && p[1..] <= s[1..] by {
          assert [p[0]] + p[1..] == p && [s[0]] + s[1..] == s;
        }
        if p <= s {
          assert s[1..][|p| - 1..] == s[|p|..];
        }
      }
    }
  }

  lemma PrefixGlob(p: string, s: string)
    requires Plain(p)
    ensures Glob(p + "*", s) <==> p <= s
  {
    PlainPrefix(p, "*", s);
    if p <= s {
      assert Tokens("*") == [Star];
      StarMatchesAll(s[|p|..]);
    }
  }

  lemma RangeGlob(p: string, lo: char, hi: char, s: string)
    requires Plain(p)
    ensures Glob(p + ['[', lo, '-', hi, ']', '.', '*'], s)
       <==> p <= s && |s| >= |p| + 2 && lo <= s[|p|] <= hi && s[|p| + 1] == '.'
  {
    var tail := ['[', lo, '-', hi, ']', '.', '*'];
    PlainPrefix(p, tail, s);
    if p <= s {
      var rest := s[|p|..];
      assert tail[5..] == ['.', '*'] && Tokens(tail) == [Range(lo, hi)] + Tokens(['.', '*']);
      if rest != "" {
        PrefixGlob(".", rest[1..]);
        assert "." + "*" == ['.', '*'];
      }
    }
  }

  // ------------------------------------------------------------ prefixes of dotted quads

  lemma FirstPart(x: string, y: string, rest: string)
    requires '.' !in x && '.' !in y
    ensures x + "." <= y + "." + rest <==> x == y
  {
    var s := y + "." + rest;
    var p := x + ".";
    assert forall i | 0 <= i < |x| :: p[i] == x[i] != '.';
    assert forall i | 0 <= i < |y| :: s[i] == y[i] != '.';
    assert p[|x|] == '.' && s[|y|] == '.';
    if p <= s {
      assert s[|x|] == '.' && |x| == |y|;
      assert s[..|x|] == y && p[..|x|] == x;
    }
  }

  lemma FirstTwoParts(x: string, y: string, u: string, v: string, rest: string)
    requires '.' !in x && '.' !in y && '.' !in u && '.' !in v
    ensures x + "." + (y + ".") <= u + "." + (v + "." + rest) <==> x == u && y == v
  {
    var s := u + "." + (v + "." + rest);
    var p := x + "." + (y + ".");
    FirstPart(x, u, v + "." + rest);
    FirstPart(y, v, rest);
    if p <= s {
      assert p[..|x| + 1] == x + "." && s[..|x| + 1] == x + ".";
      assert x == u;
    }
    if x == u {
      assert s[|x| + 1..] == v + "." + rest && p[|x| + 1..] == y + ".";
      assert p <= s <==> y + "." <= v + "." + rest by {
        assert s == (x + ".") + s[|x| + 1..] && p == (x + ".") + p[|x| + 1..];
      }
    }
  }
}
