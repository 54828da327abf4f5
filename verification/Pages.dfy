/** Rounding an offset up to a page with a mask. */
module Pages {
  import opened Bytes

  const PAGE_SIZE := 8192

  /** Bitwise conjunction. */
  function And(a: nat, b: nat): nat {
    if a == 0 || b == 0 then 0 else (a % 2) * (b % 2) + 2 * And(a / 2, b / 2)
  }

  function Not64(a: u64): u64 {
    TWO64 - 1 - a
  }

  /** 64-bit arithmetic as in a release build: the addition wraps. */
  function AlignToPage(v: u64): nat {
    And((v + (PAGE_SIZE - 1)) % TWO64, Not64(PAGE_SIZE - 1))
  }

  function Halved(a: nat, k: nat): nat {
    if k == 0 then a else Halved(a / 2, k - 1)
  }

  function Doubled(a: nat, k: nat): nat {
    if k == 0 then a else 2 * Doubled(a, k - 1)
  }

  /** `k` one bits. */
  function Ones(k: nat): nat {
    if k == 0 then 0 else 1 + 2 * Ones(k - 1)
  }

  /** Masking with ones above bit `k` clears the low `k` bits. */
  lemma {:induction false} AndHigh(a: nat, k: nat, m: nat)
    ensures And(a, Doubled(m, k)) == Doubled(And(Halved(a, k), m), k)
  {
    if k > 0 {
      var d := Doubled(m, k - 1);
      AndHigh(a / 2, k - 1, m);
      assert (2 * d) % 2 == 0 && (2 * d) / 2 == d;
      assert And(a, 2 * d) == 2 * And(a / 2, d);
    }
  }

  lemma {:induction false} AndOnes(a: nat, k: nat)
    requires a <= Ones(k)
    ensures And(a, Ones(k)) == a
  {
    if a > 0 {
      AndOnes(a / 2, k - 1);
    }
  }

  lemma {:induction false} DoubledLinear(x: nat, k: nat)
    ensures Doubled(x, k) == x * Doubled(1, k)
  {
    if k > 0 {
      DoubledLinear(x, k - 1);
    }
  }

  lemma DoubledPage(x: nat)
    ensures Doubled(x, 13) == x * PAGE_SIZE
  {
    DoubledLinear(x, 13);
    assert Doubled(1, 13) == PAGE_SIZE;
  }

  lemma {:induction false} HalvedBounds(x: nat, k: nat)
    ensures Doubled(Halved(x, k), k) <= x < Doubled(Halved(x, k) + 1, k)
  {
    if k > 0 {
      HalvedBounds(x / 2, k - 1);
    }
  }

  lemma HalvedPage(x: nat)
    ensures Halved(x, 13) == x / PAGE_SIZE
  {
    HalvedBounds(x, 13);
    DoubledPage(Halved(x, 13));
    DoubledPage(Halved(x, 13) + 1);
  }

  lemma OnesLiteral()
    ensures Ones(51) == TWO64 / PAGE_SIZE - 1
  {
    assert Ones(10) == 0x3FF;
    assert Ones(20) == 0xF_FFFF;
    assert Ones(30) == 0x3FFF_FFFF;
    assert Ones(40) == 0xFF_FFFF_FFFF;
    assert Ones(51) == 0x7_FFFF_FFFF_FFFF;
  }

  lemma MaskIsFloor(x: u64)
    ensures And(x, Not64(PAGE_SIZE - 1)) == (x / PAGE_SIZE) * PAGE_SIZE
  {
    OnesLiteral();
    DoubledPage(Ones(51));
    HalvedPage(x);
    AndHigh(x, 13, Ones(51));
    AndOnes(x / PAGE_SIZE, 51);
    DoubledPage(x / PAGE_SIZE);
  }

  /** The mask trick gives the least page boundary at or above `v`, unless the addition wraps:
      then, and only then, it falls below `v`, to 0. */
  lemma {:induction false} AlignLeast(v: u64)
    ensures AlignToPage(v) % PAGE_SIZE == 0
    ensures v + (PAGE_SIZE - 1) < TWO64 ==>
              v <= AlignToPage(v) && forall m: nat | v <= m && m % PAGE_SIZE == 0 :: AlignToPage(v) <= m
    ensures v + (PAGE_SIZE - 1) >= TWO64 ==> AlignToPage(v) == 0 < v
  {
    var x := (v + (PAGE_SIZE - 1)) % TWO64;
    MaskIsFloor(x);
    if v + (PAGE_SIZE - 1) < TWO64 {
      forall m: nat | v <= m && m % PAGE_SIZE == 0 ensures AlignToPage(v) <= m {
        assert m / PAGE_SIZE >= x / PAGE_SIZE;
      }
    }
  }
}
