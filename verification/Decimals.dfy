/**
 The decimal adjustment of ERC20 amounts between two token precisions: multiplication
 by a power of ten upwards, floor division downwards.
 */
module Decimals {
  import opened Bytes

  function Pow10(k: nat): (p: nat)
    ensures p >= 1
  {
    if k == 0 then 1 else 10 * Pow10(k - 1)
  }

  function Scale(amount: nat, from: uint8, to: uint8): nat {
    if from > to then amount / Pow10(from - to)
    else amount * Pow10(to - from)
  }

  // ---------- arithmetic of the powers ----------

  lemma {:induction false} Pow10Add(j: nat, k: nat)
    ensures Pow10(j + k) == Pow10(j) * Pow10(k)
  {
    if j != 0 {
      Pow10Add(j - 1, k);
      assert Pow10(j) * Pow10(k) == 10 * (Pow10(j - 1) * Pow10(k)) by {
        MulAssoc(10, Pow10(j - 1), Pow10(k));
      }
    }
  }

  lemma MulAssoc(x: int, y: int, z: int)
    ensures (x * y) * z == x * (y * z)
  {
  }

  /** The quotient is the only q with q*b <= a < (q+1)*b. */
  lemma QuotientIs(a: nat, b: nat, q: nat)
    requires b > 0 && q * b <= a < q * b + b
    ensures a / b == q
  {
    var e := a / b;
    assert e * b <= a < e * b + b;
    if e < q {
      assert (e + 1) * b <= q * b by { MulMonotone(e + 1, q, b); }
    } else if q < e {
      assert (q + 1) * b <= e * b by { MulMonotone(q + 1, e, b); }
    }
  }

  lemma MulMonotone(x: nat, y: nat, b: nat)
    requires x <= y
    ensures x * b <= y * b
  {
  }

  lemma DivFloor(a: nat, b: nat)
    requires b > 0
    ensures (a / b) * b <= a
  {
  }

  lemma DivFacts(a: nat, b: nat)
    requires b > 0
    ensures (a / b) * b <= a < (a / b + 1) * b
  {
  }

  lemma DivDiv(a: nat, b: nat, c: nat)
    requires b > 0 && c > 0
    ensures c * b > 0 && a / b / c == a / (c * b)
  {
    var p := a / b;
    var q := p / c;
    DivFacts(a, b);
    DivFacts(p, c);
    MulMonotone(q * c, p, b);
    MulMonotone(p + 1, (q + 1) * c, b);
    MulAssoc(q, c, b);
    MulAssoc(q + 1, c, b);
    var cb := c * b;
    assert (q + 1) * cb == q * cb + cb;
    QuotientIs(a, cb, q);
  }

  lemma DivMul(a: nat, b: nat)
    requires b > 0
    ensures (a * b) / b == a
  {
    QuotientIs(a * b, b, a);
  }

  lemma DivMonotone(a: nat, a': nat, b: nat)
    requires a <= a' && b > 0
    ensures a / b <= a' / b
  {
    if a' / b < a / b {
      MulMonotone(a' / b + 1, a / b, b);
    }
  }

  // ---------- laws of the adjustment ----------

  /** One precision further is one decimal digit: with going through intermediate precisions this fixes
      every adjustment. */
  lemma OneDigit(amount: nat, from: uint8)
    requires from < 255
    ensures Scale(amount, from, from) == amount
    ensures Scale(amount, from, from + 1) == 10 * amount
    ensures Scale(amount, from + 1, from) == amount / 10
  {
    assert Pow10(0) == 1 && Pow10(1) == 10 * Pow10(0);
  }

  /** 10^18 of a token with 18 decimals are 10^6 of one with 6. */
  lemma EighteenToSix()
    ensures Scale(1_000_000_000_000_000_000, 18, 6) == 1_000_000
    ensures Scale(1_000_000, 6, 18) == 1_000_000_000_000_000_000
  {
    assert Pow10(3) == 1000;
    assert Pow10(6) == 1_000_000;
    assert Pow10(9) == 1_000_000_000;
    assert Pow10(12) == 1_000_000_000_000;
  }

  /** To a finer precision and back is the identity. */
  lemma UpThenDown(amount: nat, from: uint8, to: uint8)
    requires from <= to
    ensures Scale(Scale(amount, from, to), to, from) == amount
  {
    DivMul(amount, Pow10(to - from));
  }

  /** To a coarser precision and back never gains, loses less than one coarse unit, and loses
      nothing exactly when the amount is a whole number of coarse units. */
  lemma DownThenUp(amount: nat, from: uint8, to: uint8)
    requires from >= to
    ensures var back := Scale(Scale(amount, from, to), to, from);
            && back <= amount < back + Pow10(from - to)
            && (back == amount <==> amount % Pow10(from - to) == 0)
  {
    var unit := Pow10(from - to);
    assert amount == amount / unit * unit + amount % unit;
    assert amount / 1 == amount;
  }

  /** Scaling keeps an amount exactly between equal precisions, or when there is nothing to scale. */
  lemma ScaleKeeps(amount: nat, from: uint8, to: uint8)
    ensures Scale(amount, from, to) == amount <==> from == to || amount == 0
  {
    if from != to {
      var unit := Pow10(if from > to then from - to else to - from);
      assert unit >= 10;
      MulMonotone(10, unit, amount);
      if from > to {
        DivFloor(amount, unit);
        assert amount / unit == amount ==> amount * unit <= amount;
      }
      assert unit * amount == amount * unit;
    }
  }

  lemma ScaleUpAtLeast(amount: nat, from: uint8, to: uint8)
    requires from < to
    ensures 10 * amount <= Scale(amount, from, to)
  {
    var unit := Pow10(to - from);
    assert unit >= 10;
    MulMonotone(10, unit, amount);
    assert unit * amount == amount * unit;
  }

  lemma ScaleMonotone(amount: nat, more: nat, from: uint8, to: uint8)
    requires amount <= more
    ensures Scale(amount, from, to) <= Scale(more, from, to)
  {
    if from > to {
      DivMonotone(amount, more, Pow10(from - to));
    } else {
      MulMonotone(amount, more, Pow10(to - from));
    }
  }

  /** Two adjustments in a row never give more than the direct one, and give exactly as much
      unless the intermediate precision is coarser than both ends. */
  lemma ScaleThrough(amount: nat, from: uint8, via: uint8, to: uint8)
    ensures Scale(Scale(amount, from, via), via, to) <= Scale(amount, from, to)
    ensures via >= from || via >= to ==>
              Scale(Scale(amount, from, via), via, to) == Scale(amount, from, to)
  {
    if from <= via {
      if via <= to {
        UpUp(amount, from, via, to);
      } else if from <= to {
        UpDown(amount, from, via, to);
      } else {
        UpDownBelow(amount, from, via, to);
      }
    } else if to <= via {
      DownDown(amount, from, via, to);
    } else if from <= to {
      DownUpAbove(amount, from, via, to);
    } else {
      DownUpBelow(amount, from, via, to);
    }
  }

  lemma UpUp(amount: nat, from: uint8, via: uint8, to: uint8)
    requires from <= via <= to
    ensures Scale(Scale(amount, from, via), via, to) == Scale(amount, from, to)
  {
    Pow10Add(via - from, to - via);
    MulAssoc(amount, Pow10(via - from), Pow10(to - via));
  }

  lemma UpDown(amount: nat, from: uint8, via: uint8, to: uint8)
    requires from <= to < via
    ensures Scale(Scale(amount, from, via), via, to) == Scale(amount, from, to)
  {
    Pow10Add(to - from, via - to);
    CancelFactor(amount, Pow10(to - from), Pow10(via - to));
  }

  lemma UpDownBelow(amount: nat, from: uint8, via: uint8, to: uint8)
    requires to < from <= via
    ensures Scale(Scale(amount, from, via), via, to) == Scale(amount, from, to)
  {
    Pow10Add(via - from, from - to);
    CancelCommon(amount, Pow10(via - from), Pow10(from - to));
  }

  lemma DownDown(amount: nat, from: uint8, via: uint8, to: uint8)
    requires to <= via < from
    ensures Scale(Scale(amount, from, via), via, to) == Scale(amount, from, to)
  {
    if to < via {
      Pow10Add(via - to, from - via);
      DivDiv(amount, Pow10(from - via), Pow10(via - to));
    }
  }

  lemma DownUpAbove(amount: nat, from: uint8, via: uint8, to: uint8)
    requires via < from <= to
    ensures Scale(Scale(amount, from, via), via, to) <= Scale(amount, from, to)
  {
    var coarse := Scale(amount, from, via);
    DivFloor(amount, Pow10(from - via));
    RaiseBoth(coarse, Pow10(from - via), amount, Pow10(to - from));
    Pow10Add(from - via, to - from);
  }

  lemma DownUpBelow(amount: nat, from: uint8, via: uint8, to: uint8)
    requires via < to < from
    ensures Scale(Scale(amount, from, via), via, to) <= Scale(amount, from, to)
  {
    Pow10Add(to - via, from - to);
    FloorThenScale(amount, Pow10(to - via), Pow10(from - to));
  }

  lemma CancelFactor(a: nat, net: nat, down: nat)
    requires down > 0
    ensures (a * (net * down)) / down == a * net
  {
    MulAssoc(a, net, down);
    DivMul(a * net, down);
  }

  lemma CancelCommon(a: nat, up: nat, net: nat)
    requires up > 0 && net > 0
    ensures up * net > 0 && (a * up) / (up * net) == a / net
  {
    DivMul(a, up);
    DivDiv(a * up, up, net);
    assert net * up == up * net;
  }

  lemma RaiseBoth(q: nat, down: nat, a: nat, net: nat)
    requires q * down <= a
    ensures q * (down * net) <= a * net
  {
    MulAssoc(q, down, net);
    MulMonotone(q * down, a, net);
  }

  lemma FloorThenScale(a: nat, up: nat, net: nat)
    requires up > 0 && net > 0
    ensures up * net > 0 && (a / (up * net)) * up <= a / net
  {
    var coarse := a / (up * net);
    DivFacts(a, up * net);
    MulAssoc(coarse, up, net);
    DivMonotone(coarse * up * net, a, net);
    DivMul(coarse * up, net);
  }
}
