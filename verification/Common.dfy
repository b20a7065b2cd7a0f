/** Small shared vocabulary: optional values and bytes. */
module Common {
  datatype Option<+T> = None | Some(value: T)

  newtype Byte = b: int | 0 <= b < 256

  type Bytes = seq<Byte>

  lemma AppendOnce<T>(a: seq<T>, b: seq<T>, c: seq<T>)
    ensures a + b + c == a + (b + c)
  {
  }

  lemma AppendTwice<T>(a: seq<T>, b: seq<T>, c: seq<T>, d: seq<T>)
    ensures a + b + c + d == a + (b + c + d) && a + b + c + d == a + b + (c + d)
  {
  }

  lemma Multiple(m: int, d: int)
    requires m >= 1
    ensures d >= 1 ==> m * d >= m
    ensures d <= -1 ==> m * d <= -m
  {
  }

  /** Division and remainder are unique. */
  lemma Remainder(v: int, m: int, q: int, r: int)
    requires m > 0 && v == m * q + r && 0 <= r < m
    ensures v % m == r && v / m == q
  {
    var d := v / m - q;
    Multiple(m, d);
    assert v % m - r == -(m * d);
  }

  /** Less than a lap apart, equal remainders mean equal numbers. */
  lemma SameSlot(a: nat, b: nat, n: nat)
    requires n >= 1 && a % n == b % n && a <= b < a + n
    ensures a == b
  {
    var d := b / n - a / n;
    Multiple(n, d);
    assert b - a == n * d;
  }

  /** The slot of a position in a ring of `n`: its remainder. */
  function SlotIndex(p: nat, n: nat): (i: nat)
    requires n > 0
    ensures i < n
  {
    if p < n then p else SlotIndex(p - n, n)
  }

  lemma {:induction false} SlotIndexIsRemainder(p: nat, n: nat)
    requires n > 0
    ensures SlotIndex(p, n) == p % n
  {
    if p >= n {
      SlotIndexIsRemainder(p - n, n);
      Remainder(p, n, (p - n) / n + 1, (p - n) % n);
    } else {
      Remainder(p, n, 0, p);
    }
  }

  /** Less than a lap apart, positions in one slot are the same. */
  lemma SameIndex(a: nat, b: nat, n: nat)
    requires n > 0 && SlotIndex(a, n) == SlotIndex(b, n) && a <= b < a + n
    ensures a == b
  {
    SlotIndexIsRemainder(a, n);
    SlotIndexIsRemainder(b, n);
    SameSlot(a, b, n);
  }

  lemma NextLap(p: nat, n: nat)
    requires n > 0
    ensures SlotIndex(p + n, n) == SlotIndex(p, n)
  {
  }

  lemma {:induction false} NextIndex(p: nat, n: nat)
    requires n > 0
    ensures (SlotIndex(p, n) + 1) % n == SlotIndex(p + 1, n)
  {
    if p >= n {
      NextIndex(p - n, n);
    } else if p + 1 < n {
      Remainder(p + 1, n, 0, p + 1);
    } else {
      Remainder(n, n, 1, 0);
    }
  }
}
