/** Base 32 with a sortable alphabet: `s32encode` and `s32decode`. */
module S32 {
  const ALPHABET: string := "234567abcdefghijklmnopqrstuvwxyz"

  /** The position of a character in the alphabet, -1 if it is not there. */
  function Digit(c: char): int {
    if '2' <= c <= '7' then c as int - '2' as int
    else if 'a' <= c <= 'z' then c as int - 'a' as int + 6
    else -1
  }

  lemma FirstHalfAt(d: nat)
    requires d < 16
    ensures ALPHABET[d] as int == if d < 6 then '2' as int + d else 'a' as int + d - 6
  {
    assert ALPHABET[0] == '2' && ALPHABET[1] == '3' && ALPHABET[2] == '4' && ALPHABET[3] == '5';
    assert ALPHABET[4] == '6' && ALPHABET[5] == '7' && ALPHABET[6] == 'a' && ALPHABET[7] == 'b';
    assert ALPHABET[8] == 'c' && ALPHABET[9] == 'd' && ALPHABET[10] == 'e' && ALPHABET[11] == 'f';
    assert ALPHABET[12] == 'g' && ALPHABET[13] == 'h' && ALPHABET[14] == 'i' && ALPHABET[15] == 'j';
  }

  lemma SecondHalfAt(d: nat)
    requires 16 <= d < 32
    ensures ALPHABET[d] as int == 'a' as int + d - 6
  {
    assert ALPHABET[16] == 'k' && ALPHABET[17] == 'l' && ALPHABET[18] == 'm' && ALPHABET[19] == 'n';
    assert ALPHABET[20] == 'o' && ALPHABET[21] == 'p' && ALPHABET[22] == 'q' && ALPHABET[23] == 'r';
    assert ALPHABET[24] == 's' && ALPHABET[25] == 't' && ALPHABET[26] == 'u' && ALPHABET[27] == 'v';
    assert ALPHABET[28] == 'w' && ALPHABET[29] == 'x' && ALPHABET[30] == 'y' && ALPHABET[31] == 'z';
  }

  /** The alphabet is the digits from 2 to 7 and then the letters. */
  lemma AlphabetAt(d: nat)
    requires d < 32
    ensures ALPHABET[d] as int == if d < 6 then '2' as int + d else 'a' as int + d - 6
  {
    if d < 16 {
      FirstHalfAt(d);
    } else {
      SecondHalfAt(d);
    }
  }

  lemma DigitIsPosition(d: nat)
    requires d < 32
    ensures Digit(ALPHABET[d]) == d
  {
    AlphabetAt(d);
  }

  lemma PositionIsDigit(c: char)
    requires Digit(c) >= 0
    ensures Digit(c) < 32 && ALPHABET[Digit(c)] == c
  {
    AlphabetAt(Digit(c));
  }

  predicate WellFormed(s: string) {
    forall i :: 0 <= i < |s| ==> Digit(s[i]) >= 0
  }

  function Encode(n: nat): string {
    if n == 0 then "" else Encode(n / 32) + [ALPHABET[n % 32]]
  }

  function Decode(s: string): int {
    if s == "" then 0 else Decode(s[..|s| - 1]) * 32 + Digit(s[|s| - 1])
  }

  /** The loop builds the text from its last character to its first. */
  method S32Encode(n: nat) returns (s: string)
    ensures s == Encode(n)
  {
    s := "";
    var i := n;
    while i != 0
      invariant Encode(n) == Encode(i) + s
    {
      var c := i % 32;
      assert Encode(i) + s == Encode(i / 32) + ([ALPHABET[c]] + s);
      i := i / 32;
      s := [ALPHABET[c]] + s;
    }
  }

  method S32Decode(s: string) returns (n: int)
    ensures n == Decode(s)
  {
    n := 0;
    for i := 0 to |s|
      invariant n == Decode(s[..i])
    {
      assert s[..i + 1][..i] == s[..i];
      n := n * 32 + Digit(s[i]);
    }
    assert s[..|s|] == s;
  }

  lemma {:induction false} EncodeWellFormed(n: nat)
    ensures WellFormed(Encode(n))
    ensures n > 0 ==> Encode(n) != "" && Encode(n)[0] != '2'
  {
    if n > 0 {
      EncodeWellFormed(n / 32);
      DigitIsPosition(n % 32);
      if n < 32 {
        assert Encode(n / 32) == "";
        assert Digit('2') == 0 && Digit(ALPHABET[n]) == n;
      }
    }
  }

  /** Decoding undoes encoding. */
  lemma {:induction false} DecodeEncode(n: nat)
    ensures Decode(Encode(n)) == n
  {
    if n > 0 {
      DecodeEncode(n / 32);
      DigitIsPosition(n % 32);
      assert Encode(n)[..|Encode(n)| - 1] == Encode(n / 32);
    }
  }

  /** Encoding undoes decoding on texts without leading zeros. */
  lemma {:induction false} EncodeDecode(s: string)
    requires WellFormed(s) && (s != "" ==> s[0] != '2')
    ensures Decode(s) >= 0 && Encode(Decode(s)) == s
    ensures s != "" ==> Decode(s) > 0
  {
    if s != "" {
      var front, c := s[..|s| - 1], s[|s| - 1];
      EncodeDecode(front);
      PositionIsDigit(c);
      var d, n := Digit(c), Decode(front) * 32 + Digit(c);
      assert n / 32 == Decode(front) && n % 32 == d;
      if front == "" {
        assert c != '2' && Digit('2') == 0 && ALPHABET[0] == '2';
      }
      assert s == front + [c];
    }
  }

  // ----- lengths and order -----

  function Pow32(k: nat): (p: nat)
    ensures p >= 1
  {
    if k == 0 then 1 else 32 * Pow32(k - 1)
  }

  /** A number has at most k digits exactly if it is below 32 to the power of k. */
  lemma {:induction false} EncodeLength(n: nat, k: nat)
    ensures |Encode(n)| <= k <==> n < Pow32(k)
  {
    if n > 0 && k > 0 {
      EncodeLength(n / 32, k - 1);
      assert n / 32 < Pow32(k - 1) <==> n < 32 * Pow32(k - 1);
    }
  }

  lemma {:induction false} DecodeBound(s: string)
    requires WellFormed(s)
    ensures 0 <= Decode(s) < Pow32(|s|)
  {
    if s != "" {
      DecodeBound(s[..|s| - 1]);
      PositionIsDigit(s[|s| - 1]);
    }
  }

  lemma {:induction false} DecodeAppend(a: string, b: string)
    ensures Decode(a + b) == Decode(a) * Pow32(|b|) + Decode(b)
  {
    if b == "" {
      assert a + b == a;
    } else {
      var front := b[..|b| - 1];
      DecodeAppend(a, front);
      assert (a + b)[..|a + b| - 1] == a + front;
      Distribute(Decode(a), Pow32(|front|), Decode(front), Digit(b[|b| - 1]));
    }
  }

  lemma Distribute(a: int, p: int, f: int, d: int)
    ensures (a * p + f) * 32 + d == a * (32 * p) + (f * 32 + d)
  {
  }

  /** Comparison of strings by code units, the `<` of JavaScript. */
  predicate Less(a: string, b: string) {
    b != "" && (a == "" || a[0] < b[0] || (a[0] == b[0] && Less(a[1..], b[1..])))
  }

  lemma DecodeHead(s: string)
    requires s != ""
    ensures Decode(s) == Digit(s[0]) * Pow32(|s| - 1) + Decode(s[1..])
  {
    hide Decode;
    assert s == [s[0]] + s[1..];
    DecodeAppend([s[0]], s[1..]);
    DecodeOne(s[0]);
  }

  lemma DecodeOne(c: char)
    ensures Decode([c]) == Digit(c)
  {
    hide Digit;
    assert [c][..0] == "";
  }

  lemma Multiply(k: int, p: int)
    requires k >= 1 && p >= 0
    ensures k * p >= p
  {
  }

  lemma Lexicographic(d: int, e: int, p: int, x: int, y: int)
    requires 0 <= x < p && 0 <= y < p
    ensures d < e ==> d * p + x < e * p + y
  {
    if d < e {
      Multiply(e - d, p);
      assert e * p == d * p + (e - d) * p;
    }
  }

  lemma DigitOrder(a: char, b: char)
    requires Digit(a) >= 0 && Digit(b) >= 0
    ensures a < b <==> Digit(a) < Digit(b)
    ensures a == b <==> Digit(a) == Digit(b)
  {
  }

  /** Texts of equal length are ordered like the numbers they stand for. */
  lemma {:induction false} OrderAgrees(a: string, b: string)
    requires |a| == |b| && WellFormed(a) && WellFormed(b)
    ensures Less(a, b) <==> Decode(a) < Decode(b)
    ensures a == b <==> Decode(a) == Decode(b)
  {
    if a != "" {
      DecodeHead(a);
      DecodeHead(b);
      DecodeBound(a[1..]);
      DecodeBound(b[1..]);
      DigitOrder(a[0], b[0]);
      OrderAgrees(a[1..], b[1..]);
      var d, e, p := Digit(a[0]), Digit(b[0]), Pow32(|a| - 1);
      Lexicographic(d, e, p, Decode(a[1..]), Decode(b[1..]));
      Lexicographic(e, d, p, Decode(b[1..]), Decode(a[1..]));
      assert a == [a[0]] + a[1..] && b == [b[0]] + b[1..];
    }
  }
}
