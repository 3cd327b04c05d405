/** Shared vocabulary: optional values, results, and the few Java/JavaScript
    string and list primitives that the URLify code relies on. */
module Common {

  /** A value that may be absent (`null` / `undefined` in the source). */
  datatype Option<+T> = None | Some(value: T)

  /** The outcome of an operation that may throw or reject. */
  datatype Result<+T, +E> = Ok(value: T) | Err(error: E)

  /** Java's `String.trim` treats every character up to U+0020 as blank. */
  predicate IsBlankChar(c: char) {
    c <= ' '
  }

  /** Number of blank characters at the front of `s`. */
  function LeadingBlanks(s: string): (k: nat)
    ensures k <= |s|
    ensures forall i :: 0 <= i < k ==> IsBlankChar(s[i])
    ensures k < |s| ==> !IsBlankChar(s[k])
  {
    if s == [] || !IsBlankChar(s[0]) then 0 else 1 + LeadingBlanks(s[1..])
  }

  /** Length of `s` once its blank tail is dropped. */
  function EndOfContent(s: string): (k: nat)
    ensures k <= |s|
    ensures forall i :: k <= i < |s| ==> IsBlankChar(s[i])
    ensures 0 < k ==> !IsBlankChar(s[k - 1])
  {
    if s == [] || !IsBlankChar(s[|s| - 1]) then |s| else EndOfContent(s[..|s| - 1])
  }

  /** Java's `String.trim`: the slice between the first and the last
      non-blank character, or the empty string when there is none. */
  function Trim(s: string): (r: string)
    ensures |r| <= |s|
    ensures r == [] <==> forall i :: 0 <= i < |s| ==> IsBlankChar(s[i])
    ensures r != [] ==> !IsBlankChar(r[0]) && !IsBlankChar(r[|r| - 1])
    ensures LeadingBlanks(s) + |r| <= |s| && r == s[LeadingBlanks(s)..LeadingBlanks(s) + |r|]
  {
    var lo := LeadingBlanks(s);
    var hi := EndOfContent(s);
    if lo < hi then
      assert !IsBlankChar(s[lo]) && !IsBlankChar(s[hi - 1]);
      s[lo..hi]
    else
      assert forall i :: 0 <= i < |s| ==> IsBlankChar(s[i]);
      assert s[0..0] == [];
      []
  }

  /** `s.trim().isEmpty()`. */
  predicate IsBlank(s: string) {
    Trim(s) == []
  }

  /** ASCII lower-casing, which is what Java's `toLowerCase` does on the
      ASCII characters that reach it in this code. */
  function LowerChar(c: char): (d: char)
    ensures 'A' <= c <= 'Z' ==> d as int == c as int + 32
    ensures !('A' <= c <= 'Z') ==> d == c
  {
    if 'A' <= c <= 'Z' then (c as int + 32) as char else c
  }

  function ToLowerAscii(s: string): (r: string)
    ensures |r| == |s|
    ensures forall i :: 0 <= i < |s| ==> r[i] == LowerChar(s[i])
  {
    seq(|s|, i requires 0 <= i < |s| => LowerChar(s[i]))
  }

  /** Java's `equalsIgnoreCase`, restricted to ASCII case folding. */
  predicate EqualsIgnoreCase(a: string, b: string) {
    ToLowerAscii(a) == ToLowerAscii(b)
  }

  predicate StartsWith(s: string, prefix: string) {
    |prefix| <= |s| && s[..|prefix|] == prefix
  }

  predicate EndsWith(s: string, suffix: string) {
    |suffix| <= |s| && s[|s| - |suffix|..] == suffix
  }

  /** JavaScript `slice(-n)` and Java `substring(length - n)` on a longer
      string: the last `n` elements, or all of them when there are fewer. */
  function LastN<T>(s: seq<T>, n: nat): (r: seq<T>)
    ensures |r| == if |s| <= n then |s| else n
    ensures |s| <= n ==> r == s
    ensures |s| > n ==> r == s[|s| - n..]
  {
    if |s| <= n then s else s[|s| - n..]
  }

  /** Java streams' `limit(n)`: the first `n` elements. */
  function Take<T>(s: seq<T>, n: nat): (r: seq<T>)
    ensures |r| == if |s| <= n then |s| else n
    ensures |s| <= n ==> r == s
    ensures |s| > n ==> r == s[..n]
  {
    if |s| <= n then s else s[..n]
  }

  /** A character outside the Basic Multilingual Plane, which UTF-16
      stores as a surrogate pair. */
  predicate IsSupplementary(c: char) {
    c > '\U{FFFF}'
  }

  /** Code units of one character: two for a supplementary one. */
  function CodeUnits(c: char): nat {
    if IsSupplementary(c) then 2 else 1
  }

  /** Code units of the first `k` characters of `s`. */
  function Utf16Prefix(s: string, k: nat): nat
    requires k <= |s|
  {
    if k == 0 then 0 else Utf16Prefix(s, k - 1) + CodeUnits(s[k - 1])
  }

  /** Java's `String.length()` and JavaScript's `.length`: the number of
      UTF-16 code units, two for a supplementary character and one for
      any other. */
  function Utf16Length(s: string): nat {
    Utf16Prefix(s, |s|)
  }

  lemma {:induction false} Utf16PrefixBounds(s: string, k: nat)
    requires k <= |s|
    ensures k <= Utf16Prefix(s, k) <= 2 * k
    ensures Utf16Prefix(s, k) == k <==> forall i :: 0 <= i < k ==> !IsSupplementary(s[i])
    ensures Utf16Prefix(s, k) == 2 * k <==> forall i :: 0 <= i < k ==> IsSupplementary(s[i])
  {
    if k > 0 {
      Utf16PrefixBounds(s, k - 1);
    }
  }

  /** Each character takes one or two code units; there are as many
      code units as characters exactly when no character is
      supplementary, and twice as many exactly when all are. */
  lemma Utf16LengthBounds(s: string)
    ensures |s| <= Utf16Length(s) <= 2 * |s|
    ensures Utf16Length(s) == |s| <==> forall i :: 0 <= i < |s| ==> !IsSupplementary(s[i])
    ensures Utf16Length(s) == 2 * |s| <==> forall i :: 0 <= i < |s| ==> IsSupplementary(s[i])
  {
    Utf16PrefixBounds(s, |s|);
  }

  lemma {:induction false} Utf16PrefixAppend(a: string, b: string, k: nat)
    requires k <= |a + b|
    ensures k <= |a| ==> Utf16Prefix(a + b, k) == Utf16Prefix(a, k)
    ensures |a| <= k ==> Utf16Prefix(a + b, k) == Utf16Length(a) + Utf16Prefix(b, k - |a|)
  {
    if k > 0 {
      Utf16PrefixAppend(a, b, k - 1);
    }
  }

  /** Code units add up over concatenation. */
  lemma Utf16LengthAppend(a: string, b: string)
    ensures Utf16Length(a + b) == Utf16Length(a) + Utf16Length(b)
  {
    Utf16PrefixAppend(a, b, |a + b|);
  }
}
