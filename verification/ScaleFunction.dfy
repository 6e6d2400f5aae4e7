/** The quadratic scale function of the t-digest (tdigest.rs, k_to_q): it says which share of all the
    weight the first k of d clusters may hold. */
module ScaleFunction {
  import opened RealFacts

  function KToQ(k: real, d: real): real
    requires d != 0.0
  {
    var x := k / d;
    if x >= 0.5 then
      var base := 1.0 - x;
      1.0 - 2.0 * base * base
    else
      2.0 * x * x
  }

  /** The scale runs from 0 to exactly 1. */
  lemma ScaleEnds(d: real)
    requires d > 0.0
    ensures KToQ(0.0, d) == 0.0 && KToQ(d, d) == 1.0
  {
    MulDiv(0.0, d);
    MulDiv(1.0, d);
  }

  /** The scale is quadratic up to the middle, and the same from the other end after it. */
  lemma ScaleIsQuadratic(k: real, d: real)
    requires d > 0.0 && 0.0 <= k <= d
    ensures k + k <= d ==> KToQ(k, d) * (d * d) == 2.0 * (k * k)
    ensures KToQ(k, d) + KToQ(d - k, d) == 1.0
  {
    var x := k / d;
    DivMul(k, d);
    MirrorDiv(k, d);
    if k + k <= d {
      DivBelow(k, 0.5, d);
      HalfIsSame(x);
      Requadrate(x, k, d);
    } else {
      DivAbove(k, 0.5, d);
      HalfIsSame(1.0 - x);
    }
  }

  lemma MirrorDiv(k: real, d: real)
    requires d > 0.0
    ensures (d - k) / d == 1.0 - k / d
  {
    AddDiv(d - k, k, d);
    MulDiv(1.0, d);
  }

  /** In the middle both parabolas agree. */
  lemma HalfIsSame(x: real)
    ensures x == 0.5 ==> 2.0 * x * x == 1.0 - 2.0 * (1.0 - x) * (1.0 - x)
  {
  }

  lemma Requadrate(x: real, k: real, d: real)
    requires x * d == k
    ensures (2.0 * x * x) * (d * d) == 2.0 * (k * k)
  {
    calc {
      (2.0 * x * x) * (d * d);
      2.0 * ((x * d) * (x * d));
      2.0 * (k * k);
    }
  }

  /** The last limit is all the weight. */
  lemma FullShare(d: real, total: real)
    requires d > 0.0
    ensures KToQ(d, d) * total == total
  {
    ScaleEnds(d);
    TimesOne(KToQ(d, d), total);
  }

  /** Before the first limit there is nothing. */
  lemma ZeroShare(d: real, total: real)
    requires d > 0.0
    ensures KToQ(0.0, d) * total == 0.0
  {
    ScaleEnds(d);
    TimesZero(KToQ(0.0, d), total);
  }

  lemma TimesZero(q: real, total: real)
    requires q == 0.0
    ensures q * total == 0.0
  {
  }

  /** The last limit but one. */
  lemma LastStep(d: real)
    requires d >= 2.0
    ensures KToQ(d - 1.0, d) == 1.0 - 2.0 * ((1.0 / d) * (1.0 / d))
  {
    AddDiv(d - 1.0, 1.0, d);
    MulDiv(1.0, d);
    DivBelow(1.0, 0.5, d);
  }

  lemma TimesOne(q: real, total: real)
    requires q == 1.0
    ensures q * total == total
  {
  }

  lemma SquareGrows(x: real, y: real)
    requires 0.0 <= x < y
    ensures x * x < y * y
  {
    calc {
      x * x;
    <= { MulMono(x, y, x); }
      y * x;
    == { Commute(x, y); }
      x * y;
    <  { MulMonoStrict(x, y, y); }
      y * y;
    }
  }

  /** The scale is strictly increasing, so every cluster gets some room. */
  lemma ScaleIncreases(a: real, b: real, d: real)
    requires d > 0.0 && 0.0 <= a < b <= d
    ensures KToQ(a, d) < KToQ(b, d)
  {
    var x, y := a / d, b / d;
    DivMonoStrict(a, b, d);
    DivAbove(a, 0.0, d);
    DivBelow(b, 1.0, d);
    if y < 0.5 {
      SquareGrows(x, y);
    } else if x >= 0.5 {
      SquareGrows(1.0 - y, 1.0 - x);
    } else {
      SquareGrows(x, 0.5);
      if y != 0.5 {
        SquareGrows(1.0 - y, 0.5);
      }
    }
  }

  /** The two parabolas: the scale is the lower one before the middle and the upper one after it. */
  function LowerArm(x: real): real { 2.0 * x * x }
  function UpperArm(x: real): real { 1.0 - 2.0 * (1.0 - x) * (1.0 - x) }

  lemma Square(x: real)
    ensures x * x >= 0.0
  {
  }

  lemma UpperBelowLower(x: real)
    ensures UpperArm(x) <= LowerArm(x)
  {
    Square(2.0 * x - 1.0);
    assert LowerArm(x) - UpperArm(x) == (2.0 * x - 1.0) * (2.0 * x - 1.0);
  }

  /** Upper bounds for the room of one cluster: the same for all, and for one k clusters away from a tail. */
  function EvenRoom(d: real): real
    requires d != 0.0
  {
    2.0 / d
  }

  function TailRoom(k: real, d: real): real
    requires d != 0.0
  {
    MulNonzero(d, d);
    (4.0 * k + 2.0) / (d * d)
  }

  lemma MulNonzero(a: real, b: real)
    requires a != 0.0 && b != 0.0
    ensures a * b != 0.0
  {
  }

  /** The room of one cluster: below 2/d everywhere, and proportional to the distance from the nearer tail. */
  lemma ScaleStep(k: real, d: real)
    requires d >= 1.0 && 0.0 <= k <= d - 1.0
    ensures KToQ(k + 1.0, d) - KToQ(k, d) <= TailRoom(k, d)
    ensures KToQ(k + 1.0, d) - KToQ(k, d) <= TailRoom(d - k - 1.0, d)
    ensures KToQ(k + 1.0, d) - KToQ(k, d) <= EvenRoom(d)
  {
    hide KToQ, Scale, TailRoom, EvenRoom;
    var x, h, z := k / d, 1.0 / d, (d - k - 1.0) / d;
    DivAbove(1.0, 0.0, d);
    DivAbove(k, 0.0, d);
    DivAbove(d - k - 1.0, 0.0, d);
    AddDiv(k, 1.0, d);
    AddDiv(k + 1.0, d - k - 1.0, d);
    MulDiv(1.0, d);
    RoomBound(x, h, z);
    TailForm(k, d, x);
    TailForm(d - k - 1.0, d, z);
    EvenForm(d);
    ScaleForms(k, d);
    ScaleForms(k + 1.0, d);
  }

  lemma ScaleForms(k: real, d: real)
    requires d > 0.0
    ensures KToQ(k, d) == Scale(k / d)
  {
  }

  function Scale(x: real): real {
    if x >= 0.5 then UpperArm(x) else LowerArm(x)
  }

  lemma RoomBound(x: real, h: real, z: real)
    requires x >= 0.0 && h >= 0.0 && z >= 0.0 && x + h + z == 1.0
    ensures Scale(x + h) - Scale(x) <= 4.0 * (x * h) + 2.0 * (h * h)
    ensures Scale(x + h) - Scale(x) <= 4.0 * (z * h) + 2.0 * (h * h)
    ensures Scale(x + h) - Scale(x) <= 2.0 * h
  {
    UpperBelowLower(x);
    UpperBelowLower(x + h);
    LowerStep(x, h);
    UpperStep(z, h);
    assert 1.0 - z == x + h && 1.0 - z - h == x;
    RoomCases(x, h, z, x * h, z * h, h * h, LowerArm(x), LowerArm(x + h), UpperArm(x), UpperArm(x + h));
  }

  lemma RoomCases(x: real, h: real, z: real, xh: real, zh: real, hh: real,
                  lx: real, ly: real, ux: real, uy: real)
    requires x >= 0.0 && h >= 0.0 && z >= 0.0
    requires xh == x * h && zh == z * h && hh == h * h
    requires (x <= z ==> 2.0 * x + h <= 1.0) && (z <= x ==> 2.0 * z + h <= 1.0)
    requires (x >= 0.5 ==> z <= x) && (x + h < 0.5 ==> x <= z)
    requires ux <= lx && uy <= ly
    requires ly - lx == 4.0 * xh + 2.0 * hh && uy - ux == 4.0 * zh + 2.0 * hh
    ensures var step := (if x + h >= 0.5 then uy else ly) - (if x >= 0.5 then ux else lx);
            step <= 4.0 * xh + 2.0 * hh && step <= 4.0 * zh + 2.0 * hh && step <= 2.0 * h
  {
    if x < z {
      NearTail(x, h, z, xh, zh, hh);
      RoomLinear(x, h, z, lx, ly, ux, uy, xh, zh, hh);
    } else if x > z {
      NearTail(z, h, x, zh, xh, hh);
      RoomLinear(x, h, z, lx, ly, ux, uy, xh, zh, hh);
    } else {
      NearTail(x, h, z, xh, zh, hh);
      NearTail(z, h, x, zh, xh, hh);
      RoomLinear(x, h, z, lx, ly, ux, uy, xh, zh, hh);
    }
  }

  lemma RoomLinear(x: real, h: real, z: real, lx: real, ly: real, ux: real, uy: real, xh: real, zh: real, hh: real)
    requires x <= z ==> xh <= zh && 2.0 * xh + hh <= h
    requires z <= x ==> zh <= xh && 2.0 * zh + hh <= h
    requires (x >= 0.5 ==> z <= x) && (x + h < 0.5 ==> x <= z) && h >= 0.0
    requires ux <= lx && uy <= ly
    requires ly - lx == 4.0 * xh + 2.0 * hh && uy - ux == 4.0 * zh + 2.0 * hh
    ensures var step := (if x + h >= 0.5 then uy else ly) - (if x >= 0.5 then ux else lx);
            step <= 4.0 * xh + 2.0 * hh && step <= 4.0 * zh + 2.0 * hh && step <= 2.0 * h
  {
  }

  lemma NearTail(x: real, h: real, z: real, xh: real, zh: real, hh: real)
    requires 0.0 <= x <= z && h >= 0.0 && 2.0 * x + h <= 1.0
    requires xh == x * h && zh == z * h && hh == h * h
    ensures xh <= zh
    ensures 2.0 * xh + hh <= h
  {
    MulMono(x, z, h);
    MulMono(2.0 * x + h, 1.0, h);
    assert (2.0 * x + h) * h == 2.0 * (x * h) + h * h;
  }

  lemma AddDiv(a: real, b: real, d: real)
    requires d > 0.0
    ensures (a + b) / d == a / d + b / d
  {
    DivMul(a, d);
    DivMul(b, d);
    MulDiv(a / d + b / d, d);
  }

  lemma LowerStep(x: real, h: real)
    ensures LowerArm(x + h) - LowerArm(x) == 4.0 * (x * h) + 2.0 * (h * h)
    ensures LowerArm(x + h) - LowerArm(x) == 2.0 * ((2.0 * x + h) * h)
  {
  }

  lemma UpperStep(z: real, h: real)
    ensures UpperArm(1.0 - z) - UpperArm(1.0 - z - h) == 4.0 * (z * h) + 2.0 * (h * h)
    ensures UpperArm(1.0 - z) - UpperArm(1.0 - z - h) == 2.0 * ((2.0 * z + h) * h)
  {
  }

  lemma EvenForm(d: real)
    requires d > 0.0
    ensures EvenRoom(d) == 2.0 * (1.0 / d)
  {
    AddDiv(1.0, 1.0, d);
  }

  lemma TailForm(k: real, d: real, x: real)
    requires d > 0.0 && x == k / d
    ensures TailRoom(k, d) == 4.0 * (x * (1.0 / d)) + 2.0 * ((1.0 / d) * (1.0 / d))
  {
    var h := 1.0 / d;
    DivMul(1.0, d);
    DivMul(k, d);
    MulPos(d, d);
    var r := 4.0 * (x * h) + 2.0 * (h * h);
    assert (h * h) * (d * d) == (h * d) * (h * d);
    assert (x * h) * (d * d) == (x * d) * (h * d);
    assert r * (d * d) == 4.0 * ((x * h) * (d * d)) + 2.0 * ((h * h) * (d * d));
    MulDiv(r, d * d);
  }
}
