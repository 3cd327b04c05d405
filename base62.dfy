/** Base62Encoder.java: the digit loops that turn a numeric key into a short
    alphanumeric code and back. */
module Base62 {
  import opened Common

  const Base: nat := 62

  /** The characters `first`, `first + 1`, ..., `n` of them. */
  function CharRange(first: char, n: nat): (r: string)
    requires first as int + n <= 0xD800
    ensures |r| == n
    ensures forall i :: 0 <= i < n ==> r[i] as int == first as int + i
  {
    seq(n, i requires 0 <= i < n => (first as int + i) as char)
  }

  /** BASE62_CHARS: the ten digits, then `a`..`z`, then `A`..`Z`. */
  const Base62Chars: string := CharRange('0', 10) + CharRange('a', 26) + CharRange('A', 26)

  /** `BASE62_CHARS.indexOf(c)`: the position of `c`, or -1. The alphabet
      has no repeated character, so the position is the only one. */
  function IndexOf(c: char): (r: int)
    ensures |Base62Chars| == Base
    ensures -1 <= r < Base
    ensures 0 <= r ==> Base62Chars[r] == c
    ensures r == -1 <==> c !in Base62Chars
    ensures forall k :: 0 <= k < Base && Base62Chars[k] == c ==> r == k
  {
    if '0' <= c <= '9' then c as int - '0' as int
    else if 'a' <= c <= 'z' then c as int - 'a' as int + 10
    else if 'A' <= c <= 'Z' then c as int - 'A' as int + 36
    else -1
  }

  predicate InAlphabet(s: string) {
    forall i :: 0 <= i < |s| ==> s[i] in Base62Chars
  }

  function Reverse(s: string): (r: string)
    ensures |r| == |s|
  {
    if s == [] then [] else Reverse(s[1..]) + [s[0]]
  }

  lemma {:induction false} ReverseSnoc(s: string, c: char)
    ensures Reverse(s + [c]) == [c] + Reverse(s)
  {
    if s == [] {
      assert [c][1..] == [];
    } else {
      assert (s + [c])[1..] == s[1..] + [c];
      ReverseSnoc(s[1..], c);
    }
  }

  /** The base-62 numeral of `n`, most significant digit first; empty for 0. */
  function Digits(n: nat): (s: string)
    ensures InAlphabet(s)
    ensures n > 0 ==> |s| > 0 && s[0] != Base62Chars[0]
    ensures n == 0 <==> s == []
  {
    if n == 0 then []
    else
      assert IndexOf(Base62Chars[n % Base]) == n % Base;
      Digits(n / Base) + [Base62Chars[n % Base]]
  }

  /** What `encode(num)` returns: "0" for zero, the empty string for a
      negative number (the loop never runs), the numeral otherwise. */
  function Encoded(num: int): string {
    if num == 0 then "0"
    else if num < 0 then []
    else Digits(num)
  }

  /** `encode`: collects the digits least significant first, then reverses. */
  method Encode(num: int) returns (s: string)
    ensures s == Encoded(num)
  {
    if num == 0 {
      assert Base62Chars[0] == '0';
      return [Base62Chars[0]];
    }
    var sb: string := [];
    var n := num;
    while n > 0
      invariant num < 0 ==> n == num && sb == []
      invariant num > 0 ==> 0 <= n && Digits(num) == Digits(n) + Reverse(sb)
    {
      var remainder := n % Base;
      EncodeStep(num, n, sb);
      sb := sb + [Base62Chars[remainder]];
      n := n / Base;
    }
    s := Reverse(sb);
  }

  /** One turn of the loop in `encode`: the digit it appends is the last
      digit still owed. */
  lemma EncodeStep(num: nat, n: nat, sb: string)
    requires n > 0 && Digits(num) == Digits(n) + Reverse(sb)
    ensures Digits(num) == Digits(n / Base) + Reverse(sb + [Base62Chars[n % Base]])
  {
    var c := Base62Chars[n % Base];
    ReverseSnoc(sb, c);
    DigitsLast(n);
    AppendAssoc(Digits(n / Base), [c], Reverse(sb));
  }

  lemma DigitsLast(n: nat)
    requires n > 0
    ensures Digits(n) == Digits(n / Base) + [Base62Chars[n % Base]]
  {
  }

  lemma AppendAssoc(a: string, b: string, c: string)
    ensures a + b + c == a + (b + c)
  {
  }

  /** The number a string of alphabet characters denotes, read most
      significant digit first. */
  function DecodedValue(s: string): (v: nat)
    requires InAlphabet(s)
  {
    if s == [] then 0
    else DecodedValue(s[..|s| - 1]) * Base + IndexOf(s[|s| - 1])
  }

  /** Position of the first character outside the alphabet. */
  function FirstInvalid(s: string): (k: nat)
    requires !InAlphabet(s)
    ensures k < |s| && s[k] !in Base62Chars
    ensures InAlphabet(s[..k])
  {
    if s[0] !in Base62Chars then 0
    else
      var k := FirstInvalid(s[1..]);
      assert s[..k + 1] == [s[0]] + s[1..][..k];
      k + 1
  }

  lemma {:induction false} FirstInvalidAt(s: string, i: nat)
    requires i < |s| && InAlphabet(s[..i]) && s[i] !in Base62Chars
    ensures !InAlphabet(s) && FirstInvalid(s) == i
  {
    if i > 0 {
      assert s[..i][0] == s[0];
      assert s[1..][..i - 1] == s[..i][1..];
      FirstInvalidAt(s[1..], i - 1);
    }
  }

  const InvalidCharMessage: string := "Invalid Base62 character: "

  /** `decode`: accumulates `num * BASE + index` left to right and throws
      `IllegalArgumentException` at the first character outside the
      alphabet. */
  method Decode(s: string) returns (r: Result<int, string>)
    ensures r.Ok? <==> InAlphabet(s)
    ensures r.Ok? ==> r.value == DecodedValue(s)
    ensures r.Err? ==> !InAlphabet(s) && r.error == InvalidCharMessage + [s[FirstInvalid(s)]]
  {
    var num := 0;
    var i := 0;
    while i < |s|
      invariant 0 <= i <= |s|
      invariant InAlphabet(s[..i])
      invariant num == DecodedValue(s[..i])
    {
      var c := s[i];
      var index := IndexOf(c);
      if index == -1 {
        assert !InAlphabet(s);
        FirstInvalidAt(s, i);
        return Err(InvalidCharMessage + [c]);
      }
      DecodeStep(s, i);
      num := num * Base + index;
      i := i + 1;
    }
    assert s[..i] == s;
    r := Ok(num);
  }

  /** One turn of the loop in `decode`: a valid next character extends the
      valid prefix, and its value is shifted in as the lowest digit. */
  lemma DecodeStep(s: string, i: nat)
    requires i < |s| && InAlphabet(s[..i]) && s[i] in Base62Chars
    ensures InAlphabet(s[..i + 1])
    ensures DecodedValue(s[..i + 1]) == DecodedValue(s[..i]) * Base + IndexOf(s[i])
  {
    assert s[..i + 1] == s[..i] + [s[i]];
    DecodedAppend(s[..i], s[i]);
  }

  /** Every character of an encoding comes from the alphabet. */
  lemma EncodedInAlphabet(num: int)
    ensures InAlphabet(Encoded(num))
    ensures num > 0 ==> Encoded(num)[0] != Base62Chars[0]
  {
    assert Base62Chars[0] == '0';
  }

  /** Digits are emitted most significant first. */
  lemma {:induction false} EncodedLastDigit(n: nat)
    requires n >= Base
    ensures Encoded(n) == Encoded(n / Base) + [Base62Chars[n % Base]]
  {
  }

  /** The round trip: `decode(encode(n)) == n` for every `n >= 0`. */
  lemma {:induction false} DecodeEncoded(n: nat)
    ensures InAlphabet(Encoded(n))
    ensures DecodedValue(Encoded(n)) == n
  {
    if n == 0 {
      assert IndexOf(Base62Chars[0]) == 0;
    } else if n < Base {
      assert Encoded(n) == [Base62Chars[n]];
      assert IndexOf(Base62Chars[n]) == n;
    } else {
      DecodeEncoded(n / Base);
      var d := Digits(n / Base);
      assert Encoded(n) == d + [Base62Chars[n % Base]];
      assert (d + [Base62Chars[n % Base]])[..|d|] == d;
      assert IndexOf(Base62Chars[n % Base]) == n % Base;
    }
  }

  /** Different non-negative keys never share a code. */
  lemma EncodedInjective(a: nat, b: nat)
    requires Encoded(a) == Encoded(b)
    ensures a == b
  {
    DecodeEncoded(a);
    DecodeEncoded(b);
  }

  /** Appending a character multiplies by the base and adds its index. */
  lemma DecodedAppend(s: string, c: char)
    requires InAlphabet(s) && c in Base62Chars
    ensures InAlphabet(s + [c])
    ensures DecodedValue(s + [c]) == DecodedValue(s) * Base + IndexOf(c)
  {
    assert (s + [c])[..|s|] == s;
  }
  /** `BASE` raised to the `k`-th power. */
  function Power(k: nat): (p: nat)
    ensures p > 0
  {
    if k == 0 then 1 else Base * Power(k - 1)
  }

  lemma MulAtLeast(k: int, d: int)
    requires k >= 1 && d > 0
    ensures k * d >= d
  {
  }

  /** Euclidean division has one quotient and one remainder. */
  lemma ModUnique(x: int, d: int, a: int, b: int)
    requires d > 0 && x == a * d + b && 0 <= b < d
    ensures x % d == b
  {
    var q, r := x / d, x % d;
    assert (a - q) * d == r - b;
    if a > q {
      MulAtLeast(a - q, d);
    } else if a < q {
      MulAtLeast(q - a, d);
    }
  }

  lemma SameRemainder(x: int, y: int, d: int, e: int)
    requires x == y && d == e && d > 0
    ensures x % d == y % e
  {
  }

  /** Taking the remainder of `q * BASE + r` by `m * BASE` keeps the low
      digit and reduces the rest modulo `m`. */
  lemma ModShift(q: nat, m: nat, r: nat)
    requires m > 0 && r < Base
    ensures (q * Base + r) % (m * Base) == (q % m) * Base + r
  {
    var a, b := q / m, q % m;
    assert q * Base == a * (m * Base) + b * Base;
    assert b * Base <= (m - 1) * Base;
    ModUnique(q * Base + r, m * Base, a, b * Base + r);
  }

  /** Keeping the last `k` characters of a code keeps its value modulo
      `BASE^k`. */
  lemma {:induction false} DecodedTail(s: string, k: nat)
    requires InAlphabet(s)
    ensures InAlphabet(LastN(s, k))
    ensures DecodedValue(LastN(s, k)) == DecodedValue(s) % Power(k)
  {
    if k == 0 {
      assert LastN(s, k) == [];
      assert DecodedValue(s) % 1 == 0;
    } else if s == [] {
      assert LastN(s, k) == [];
      assert 0 % Power(k) == 0;
    } else {
      var t, c := s[..|s| - 1], s[|s| - 1];
      InAlphabetSplit(s);
      DecodedTail(t, k - 1);
      LastNSnoc(t, c, k - 1);
      DecodedTailStep(t, c, k);
    }
  }

  lemma InAlphabetSplit(s: string)
    requires s != [] && InAlphabet(s)
    ensures s == s[..|s| - 1] + [s[|s| - 1]]
    ensures InAlphabet(s[..|s| - 1]) && s[|s| - 1] in Base62Chars
  {
  }

  lemma LastNSnoc(t: string, c: char, k: nat)
    ensures LastN(t + [c], k + 1) == LastN(t, k) + [c]
  {
  }

  /** The inductive step of `DecodedTail`, as arithmetic on the two values. */
  lemma DecodedTailStep(t: string, c: char, k: nat)
    requires k > 0 && InAlphabet(t) && c in Base62Chars
    requires InAlphabet(LastN(t, k - 1))
    requires DecodedValue(LastN(t, k - 1)) == DecodedValue(t) % Power(k - 1)
    ensures InAlphabet(LastN(t, k - 1) + [c])
    ensures DecodedValue(LastN(t, k - 1) + [c]) == DecodedValue(t + [c]) % Power(k)
  {
    var tail := LastN(t, k - 1);
    DecodedAppend(tail, c);
    DecodedAppend(t, c);
    var v, p, i := DecodedValue(t), Power(k - 1), IndexOf(c);
    ModShift(v, p, i);
    assert Power(k) == p * Base;
    SameRemainder(DecodedValue(t + [c]), v * Base + i, Power(k), p * Base);
  }
}
