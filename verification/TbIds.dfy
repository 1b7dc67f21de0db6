/** Ledger account ids as hexadecimal text: what left-padding to 32 digits does to comparisons. */
module TbIds {

  newtype Digit = d: int | 0 <= d < 16

  /** The digits of a lower-case hexadecimal id, most significant first. */
  type TbId = seq<Digit>

  const WIDTH: nat := 32

  function Zeros(n: nat): TbId {
    if n == 0 then [] else [0 as Digit] + Zeros(n - 1)
  }

  /** `padTbId`. */
  function Pad(id: TbId): (r: TbId)
    ensures |id| <= WIDTH ==> |r| == WIDTH
    ensures |id| >= WIDTH ==> r == id
  {
    if |id| < WIDTH then ZerosLength(WIDTH - |id|); Zeros(WIDTH - |id|) + id else id
  }

  lemma {:induction false} ZerosLength(n: nat)
    ensures |Zeros(n)| == n
  {
    if n > 0 {
      ZerosLength(n - 1);
    }
  }

  /** The number an id stands for. */
  function Value(id: TbId): nat {
    if id == [] then 0 else 16 * Value(id[..|id| - 1]) + id[|id| - 1] as nat
  }

  lemma {:induction false} ZerosInFront(n: nat, id: TbId)
    ensures Value(Zeros(n) + id) == Value(id)
  {
    if id == [] {
      assert Zeros(n) + id == Zeros(n);
      ZerosAreZero(n);
    } else {
      assert (Zeros(n) + id)[..|Zeros(n) + id| - 1] == Zeros(n) + id[..|id| - 1];
      ZerosInFront(n, id[..|id| - 1]);
    }
  }

  lemma {:induction false} ZerosAreZero(n: nat)
    ensures Value(Zeros(n)) == 0
  {
    if n > 0 {
      ZerosSnoc(n - 1);
      assert (Zeros(n - 1) + [0 as Digit])[..|Zeros(n - 1)|] == Zeros(n - 1);
      ZerosAreZero(n - 1);
    }
  }

  lemma {:induction false} ZerosSnoc(n: nat)
    ensures [0 as Digit] + Zeros(n) == Zeros(n) + [0 as Digit]
  {
    if n > 0 {
      ZerosSnoc(n - 1);
    }
  }

  /** Two ids of the same length with the same value are the same id. */
  lemma {:induction false} ValueIsInjective(a: TbId, b: TbId)
    requires |a| == |b| && Value(a) == Value(b)
    ensures a == b
  {
    if a != [] {
      var x, y := Value(a[..|a| - 1]), Value(b[..|b| - 1]);
      LastDigit(x, a[|a| - 1] as nat, y, b[|b| - 1] as nat);
      ValueIsInjective(a[..|a| - 1], b[..|b| - 1]);
      assert a == a[..|a| - 1] + [a[|a| - 1]] && b == b[..|b| - 1] + [b[|b| - 1]];
    }
  }

  lemma LastDigit(x: nat, d: nat, y: nat, e: nat)
    requires d < 16 && e < 16 && 16 * x + d == 16 * y + e
    ensures x == y && d == e
  {
  }

  /** Padding keeps the number and fills up to 32 digits, and padding twice is padding once. */
  lemma PadKeepsValue(id: TbId)
    ensures Value(Pad(id)) == Value(id) && Pad(Pad(id)) == Pad(id)
    ensures |Pad(id)| == if |id| < 32 then 32 else |id|
  {
    if |id| < WIDTH {
      ZerosInFront(WIDTH - |id|, id);
    }
  }

  /** Joining on padded ids joins exactly the ids that stand for the same account. */
  lemma PaddedEqualIffSameAccount(a: TbId, b: TbId)
    requires |a| <= WIDTH && |b| <= WIDTH
    ensures Pad(a) == Pad(b) <==> Value(a) == Value(b)
  {
    PadKeepsValue(a);
    PadKeepsValue(b);
    if Value(a) == Value(b) {
      ValueIsInjective(Pad(a), Pad(b));
    }
  }
}
