/** Small shared vocabulary: optional values and the machine-width integers the
    modelled code uses. */
module Prelude {
  datatype Option<+T> = None | Some(value: T)

  const TWO32: nat := 0x1_0000_0000
  const TWO63: nat := 0x8000_0000_0000_0000
  const TWO64: nat := 0x1_0000_0000_0000_0000

  type byte = b: int | 0 <= b < 256
  type Text = seq<byte>
  type u32 = v: int | 0 <= v < 0x1_0000_0000
  type u64 = v: int | 0 <= v < 0x1_0000_0000_0000_0000
  type i64 = v: int | -0x8000_0000_0000_0000 <= v < 0x8000_0000_0000_0000

  /** What is left of a number cut to 64 bits. */
  function Wrap64(v: nat): u64 {
    v % 0x1_0000_0000_0000_0000
  }

  /** What is left of a number cut to 32 bits. */
  function Wrap32(v: nat): u32 {
    v % 0x1_0000_0000
  }

  function Min(a: int, b: int): int {
    if a <= b then a else b
  }

  function Max(a: int, b: int): int {
    if a >= b then a else b
  }

  /** Bitwise or. */
  function Or(a: nat, b: nat): nat {
    if a == 0 && b == 0 then 0
    else 2 * Or(a / 2, b / 2) + if a % 2 == 1 || b % 2 == 1 then 1 else 0
  }

  /** x shifted left by k bits, in unbounded arithmetic. */
  function Doubled(x: nat, k: nat): nat {
    if k == 0 then x else 2 * Doubled(x, k - 1)
  }

  lemma {:induction false} OrZero(b: nat)
    ensures Or(0, b) == b
  {
    if b > 0 {
      OrZero(b / 2);
    }
  }

  lemma {:induction false} OrCommutes(a: nat, b: nat)
    ensures Or(a, b) == Or(b, a)
  {
    if a > 0 || b > 0 {
      OrCommutes(a / 2, b / 2);
    }
  }

  /** Below a shifted number there is room for k bits: no bit is set in both. */
  lemma {:induction false} OrIsPlus(a: nat, x: nat, k: nat)
    requires a < Doubled(1, k)
    ensures Or(a, Doubled(x, k)) == a + Doubled(x, k)
  {
    if k == 0 {
      OrZero(x);
    } else {
      var b := Doubled(x, k);
      assert b / 2 == Doubled(x, k - 1) && b % 2 == 0;
      OrIsPlus(a / 2, x, k - 1);
    }
  }

  /** The bytes of an ASCII text. */
  function Ascii(text: string): (bytes: seq<byte>)
    ensures |bytes| == |text|
    ensures forall i :: 0 <= i < |text| && text[i] < 128 as char ==> bytes[i] == text[i] as int
  {
    seq(|text|, i requires 0 <= i < |text| => text[i] as int % 256)
  }

  /** Subtraction that stops at zero, as `usize::saturating_sub` does. */
  function Monus(a: nat, b: nat): nat {
    if a >= b then a - b else 0
  }

  lemma {:induction false} ConcatAssoc<T>(a: seq<T>, b: seq<T>, c: seq<T>)
    ensures a + b + c == a + (b + c)
  {
  }

  lemma {:induction false} HeadAndTail<T>(s: seq<T>)
    requires s != []
    ensures [s[0]] + s[1..] == s
  {
  }

  /** The elements whose flag is set, in order. */
  function Select<T>(xs: seq<T>, flags: seq<bool>): seq<T>
    requires |xs| == |flags|
  {
    if xs == [] then []
    else (if flags[0] then [xs[0]] else []) + Select(xs[1..], flags[1..])
  }

  function Map<T, U>(f: T -> U, xs: seq<T>): (ys: seq<U>)
    ensures |ys| == |xs|
  {
    if xs == [] then [] else [f(xs[0])] + Map(f, xs[1..])
  }

  lemma {:induction false} MapConcat<T, U>(f: T -> U, a: seq<T>, b: seq<T>)
    ensures Map(f, a + b) == Map(f, a) + Map(f, b)
  {
    if a == [] {
      assert a + b == b;
    } else {
      assert (a + b)[1..] == a[1..] + b;
      MapConcat(f, a[1..], b);
    }
  }

  lemma {:induction false} SelectMap<T, U>(f: T -> U, xs: seq<T>, flags: seq<bool>)
    requires |xs| == |flags|
    ensures Select(Map(f, xs), flags) == Map(f, Select(xs, flags))
  {
    if xs != [] {
      SelectMap(f, xs[1..], flags[1..]);
      MapConcat(f, if flags[0] then [xs[0]] else [], Select(xs[1..], flags[1..]));
      assert Map(f, [xs[0]]) == [f(xs[0])];
    }
  }
}
