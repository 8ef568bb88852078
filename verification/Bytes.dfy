/** Byte strings: UTF-8 validity, little-endian numbers, and splitting at a separator. */
module Bytes {
  import opened Wrappers

  type byte = x: int | 0 <= x < 0x100

  /** A Rust `String` or `Vec<u8>`; where a `String` is meant, `ValidUtf8` holds. */
  type Text = seq<byte>

  const NUL: byte := 0x00
  const SLASH: byte := 0x2F
  const HASH: byte := 0x23
  const PLUS: byte := 0x2B

  const U32_LIMIT: nat := 0x1_0000_0000
  const U64_LIMIT: nat := 0x1_0000_0000_0000_0000

  predicate NulFree(s: Text) {
    NUL !in s
  }

  // ---------------------------------------------------------------- UTF-8

  predicate IsContinuation(b: byte) {
    0x80 <= b <= 0xBF
  }

  /** Length of the well-formed UTF-8 sequence at the front of `s` (table 3-7 of the
      Unicode Standard), or 0 when there is none. */
  function ScalarWidth(s: Text): (w: nat)
    ensures w <= |s| && w <= 4
  {
    if |s| >= 1 && s[0] <= 0x7F then 1
    else if |s| >= 2 && 0xC2 <= s[0] <= 0xDF && IsContinuation(s[1]) then 2
    else if |s| >= 3 && IsContinuation(s[1]) && IsContinuation(s[2]) &&
            (|| (s[0] == 0xE0 && 0xA0 <= s[1])
             || 0xE1 <= s[0] <= 0xEC
             || (s[0] == 0xED && s[1] <= 0x9F)
             || 0xEE <= s[0] <= 0xEF) then 3
    else if |s| >= 4 && IsContinuation(s[1]) && IsContinuation(s[2]) && IsContinuation(s[3]) &&
            (|| (s[0] == 0xF0 && 0x90 <= s[1])
             || 0xF1 <= s[0] <= 0xF3
             || (s[0] == 0xF4 && s[1] <= 0x8F)) then 4
    else 0
  }

  predicate ValidUtf8(s: Text) {
    s == [] || (var w := ScalarWidth(s); w > 0 && ValidUtf8(s[w..]))
  }

  /** A well-formed sequence stays the front one whatever follows it. */
  lemma ScalarWidthPrefix(s: Text, t: Text)
    requires ScalarWidth(s) > 0
    ensures ScalarWidth(s[..ScalarWidth(s)] + t) == ScalarWidth(s)
  {
  }

  // ---------------------------------------------------------------- little-endian numbers

  /** The number whose little-endian digits to base 256 are `b`. */
  function FromLe(b: Text): nat {
    if b == [] then 0 else
      var low: int := b[0];
      low + 0x100 * FromLe(b[1..])
  }

  lemma FromLeFour(b: Text)
    requires |b| == 4
    ensures var b0: int, b1: int, b2: int, b3: int := b[0], b[1], b[2], b[3];
            FromLe(b) == b0 + 0x100 * b1 + 0x1_0000 * b2 + 0x100_0000 * b3
  {
    assert b[1..][1..] == b[2..] && b[2..][1..] == b[3..] && b[3..][1..] == [];
    assert FromLe(b[3..]) == b[3];
    assert FromLe(b[2..]) == b[2] as int + 0x100 * FromLe(b[3..]);
    assert FromLe(b[1..]) == b[1] as int + 0x100 * FromLe(b[2..]);
  }

  /** `u32::from_le_bytes`. */
  function FromLe32(b: Text): (n: nat)
    requires |b| == 4
    ensures n < U32_LIMIT
  {
    FromLeFour(b);
    FromLe(b)
  }

  /** The `k` lowest digits of `n` to base 256. */
  function Digits(n: nat, k: nat): (b: Text)
    ensures |b| == k
  {
    if k == 0 then [] else [n % 0x100] + Digits(n / 0x100, k - 1)
  }

  lemma DigitsStep(n: nat, k: nat)
    ensures FromLe(Digits(n, k + 1)) == n % 0x100 + 0x100 * FromLe(Digits(n / 0x100, k))
  {
    assert Digits(n, k + 1)[1..] == Digits(n / 0x100, k);
  }

  lemma TwoDigits(n: nat)
    ensures n % 0x1_0000 == n % 0x100 + 0x100 * (n / 0x100 % 0x100)
  {
  }

  lemma ThreeDigits(n: nat)
    ensures n % 0x100_0000 == n % 0x100 + 0x100 * (n / 0x100 % 0x1_0000)
  {
  }

  lemma FourDigits(n: nat)
    ensures n % U32_LIMIT == n % 0x100 + 0x100 * (n / 0x100 % 0x100_0000)
  {
  }

  lemma DigitsRoundTrip(n: nat)
    ensures FromLe32(Digits(n, 4)) == n % U32_LIMIT
  {
    var q1 := n / 0x100;
    var q2 := q1 / 0x100;
    var q3 := q2 / 0x100;
    DigitsStep(q3, 0);
    DigitsStep(q2, 1);
    TwoDigits(q2);
    DigitsStep(q1, 2);
    ThreeDigits(q1);
    DigitsStep(n, 3);
    FourDigits(n);
  }

  lemma LowDigit(a: byte, m: nat, b: byte, n: nat)
    requires a + 0x100 * m == b + 0x100 * n
    ensures a == b && m == n
  {
  }

  lemma {:induction false} FromLeInjective(a: Text, b: Text)
    requires |a| == |b| && FromLe(a) == FromLe(b)
    ensures a == b
  {
    if a != [] {
      LowDigit(a[0], FromLe(a[1..]), b[0], FromLe(b[1..]));
      FromLeInjective(a[1..], b[1..]);
      assert a == [a[0]] + a[1..] && b == [b[0]] + b[1..];
    }
  }

  lemma FromLe32Injective(a: Text, b: Text)
    requires |a| == 4 && |b| == 4
    requires FromLe32(a) == FromLe32(b)
    ensures a == b
  {
    FromLeInjective(a, b);
  }

  /** `n as u32` followed by `to_le_bytes`: the four bytes that read back as `n` modulo 2^32. */
  function Le32(n: nat): (b: Text)
    ensures |b| == 4
    ensures FromLe32(b) == n % U32_LIMIT
  {
    DigitsRoundTrip(n);
    assert exists b: Text :: |b| == 4 && FromLe32(b) == n % U32_LIMIT;
    assert forall a: Text, b: Text :: |a| == 4 && |b| == 4 && FromLe32(a) == FromLe32(b) ==> a == b by {
      forall a: Text, b: Text | |a| == 4 && |b| == 4 && FromLe32(a) == FromLe32(b)
        ensures a == b
      {
        FromLe32Injective(a, b);
      }
    }
    var b: Text :| |b| == 4 && FromLe32(b) == n % U32_LIMIT;
    b
  }

  /** `u64::to_le_bytes`. */
  function Le64(n: nat): (b: Text)
    ensures |b| == 8
  {
    Le32(n % U32_LIMIT) + Le32(n / U32_LIMIT)
  }

  function FromLe64(b: Text): nat
    requires |b| == 8
  {
    FromLe32(b[..4]) + U32_LIMIT * FromLe32(b[4..])
  }

  lemma Le64RoundTrip(n: nat)
    requires n < U64_LIMIT
    ensures FromLe64(Le64(n)) == n
  {
    var low, high := n % U32_LIMIT, n / U32_LIMIT;
    assert FromLe32(Le32(high)) == high;
    assert Le64(n)[..4] == Le32(low) && Le64(n)[4..] == Le32(high);
  }

  // ---------------------------------------------------------------- splitting

  /** Position of the first `x`, or `|s|` when there is none. */
  function IndexOf(s: Text, x: byte): (i: nat)
    ensures i <= |s|
    ensures x !in s[..i]
    ensures i < |s| ==> s[i] == x
    ensures i == |s| <==> x !in s
  {
    if s == [] || s[0] == x then 0 else 1 + IndexOf(s[1..], x)
  }

  lemma {:induction false} IndexOfJoint(a: Text, x: byte, b: Text)
    requires x !in a
    ensures IndexOf(a + [x] + b, x) == |a|
  {
    if a != [] {
      assert a[0] in a;
      assert (a + [x] + b)[1..] == a[1..] + [x] + b;
      IndexOfJoint(a[1..], x, b);
    }
  }

  /** `s.split(sep)`: always at least one piece. */
  function Split(s: Text, sep: byte): (pieces: seq<Text>)
    ensures |pieces| >= 1
    decreases |s|
  {
    var i := IndexOf(s, sep);
    if i == |s| then [s] else [s[..i]] + Split(s[i + 1..], sep)
  }

  function Join(pieces: seq<Text>, sep: byte): Text {
    if |pieces| == 0 then []
    else if |pieces| == 1 then pieces[0]
    else pieces[0] + [sep] + Join(pieces[1..], sep)
  }

  predicate Without(pieces: seq<Text>, sep: byte) {
    forall i :: 0 <= i < |pieces| ==> sep !in pieces[i]
  }

  lemma JoinCons(piece: Text, pieces: seq<Text>, sep: byte)
    requires |pieces| >= 1
    ensures Join([piece] + pieces, sep) == piece + [sep] + Join(pieces, sep)
  {
    assert ([piece] + pieces)[1..] == pieces;
  }

  lemma {:induction false} SplitStep(s: Text, sep: byte)
    requires IndexOf(s, sep) < |s|
    ensures var i := IndexOf(s, sep);
            Split(s, sep) == [s[..i]] + Split(s[i + 1..], sep) && s == s[..i] + [sep] + s[i + 1..]
  {
    CutAround(s, IndexOf(s, sep));
  }

  lemma CutAround(s: Text, i: nat)
    requires i < |s|
    ensures s == s[..i] + [s[i]] + s[i + 1..]
  {
  }

  lemma {:induction false} JoinSplit(s: Text, sep: byte)
    ensures Join(Split(s, sep), sep) == s
    decreases |s|
  {
    var i := IndexOf(s, sep);
    if i < |s| {
      SplitStep(s, sep);
      JoinSplit(s[i + 1..], sep);
      JoinCons(s[..i], Split(s[i + 1..], sep), sep);
    } else {
      assert Split(s, sep) == [s];
    }
  }

  lemma {:induction false} SplitWithout(s: Text, sep: byte)
    ensures Without(Split(s, sep), sep)
    decreases |s|
  {
    var i := IndexOf(s, sep);
    if i < |s| {
      SplitWithout(s[i + 1..], sep);
    }
  }

  lemma {:induction false} SplitJoin(pieces: seq<Text>, sep: byte)
    requires |pieces| >= 1
    requires Without(pieces, sep)
    ensures Split(Join(pieces, sep), sep) == pieces
  {
    if |pieces| > 1 {
      var rest := Join(pieces[1..], sep);
      var s := pieces[0] + [sep] + rest;
      IndexOfJoint(pieces[0], sep, rest);
      SplitJoin(pieces[1..], sep);
      assert s[..|pieces[0]|] == pieces[0];
      assert s[|pieces[0]| + 1..] == rest;
    }
  }

  lemma SplitAtFirst(a: Text, sep: byte, b: Text)
    requires sep !in a
    ensures Split(a + [sep] + b, sep) == [a] + Split(b, sep)
  {
    var s := a + [sep] + b;
    IndexOfJoint(a, sep, b);
    assert s[..|a|] == a;
    assert s[|a| + 1..] == b;
  }

  /** `splitn(2, |n| *n == 0)`: what precedes the first NUL and, if there is a NUL, the rest. */
  function CutAtNul(s: Text): (cut: (Text, Option<Text>))
    ensures cut.1.None? ==> cut.0 == s && NulFree(s)
    ensures cut.1.Some? ==> NulFree(cut.0) && s == cut.0 + [NUL] + cut.1.value
  {
    var i := IndexOf(s, NUL);
    if i == |s| then (s, None)
    else
      assert s == s[..i] + [NUL] + s[i + 1..];
      (s[..i], Some(s[i + 1..]))
  }

  lemma CutAtNulJoint(a: Text, b: Text)
    requires NulFree(a)
    ensures CutAtNul(a + [NUL] + b) == (a, Some(b))
  {
    var s := a + [NUL] + b;
    IndexOfJoint(a, NUL, b);
    assert s[..|a|] == a;
    assert s[|a| + 1..] == b;
  }
}
