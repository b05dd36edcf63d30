/**
 The cargo-loss formula of components/telemetry/telemetry_engine.c and the recurrence a telemetry
 batch applies it with. `float` is modelled by `real`.
 */
module CargoLoss {

  /** telemetry_calc_loss. */
  function CalcLoss(quantity: real, humidity: real, threshold: real, weight: real): real {
    if humidity <= threshold then 0.0
    else
      var loss := quantity * (humidity - threshold) / 100.0 * (weight / 20.0);
      if loss < 0.0 then 0.0 else loss
  }

  /** What a batch carries from one record to the next. */
  function Carry(quantity: real, loss: real): real {
    if quantity - loss > 0.0 then quantity - loss else 0.0
  }

  /** The quantity carried after the records with these humidities, oldest first. */
  function Remaining(quantity: real, humidities: seq<real>, threshold: real, weight: real): real {
    if humidities == [] then quantity
    else
      var before := Remaining(quantity, humidities[..|humidities| - 1], threshold, weight);
      Carry(before, CalcLoss(before, humidities[|humidities| - 1], threshold, weight))
  }

  /** The loss written into record `i`. */
  function LossAt(quantity: real, humidities: seq<real>, threshold: real, weight: real, i: nat): real
    requires i < |humidities|
  {
    CalcLoss(Remaining(quantity, humidities[..i], threshold, weight), humidities[i], threshold, weight)
  }

  function TotalLoss(quantity: real, humidities: seq<real>, threshold: real, weight: real): real {
    if humidities == [] then 0.0
    else
      TotalLoss(quantity, humidities[..|humidities| - 1], threshold, weight)
      + LossAt(quantity, humidities, threshold, weight, |humidities| - 1)
  }

  // ---------------------------------------------------------------- closed form

  /** The fraction of the carried quantity that one record costs. */
  function Fraction(humidity: real, threshold: real, weight: real): (f: real)
    ensures weight >= 0.0 ==> f >= 0.0
  {
    if humidity <= threshold then 0.0 else (humidity - threshold) / 100.0 * (weight / 20.0)
  }

  function Kept(humidity: real, threshold: real, weight: real): (k: real)
    ensures k >= 0.0
  {
    var f := Fraction(humidity, threshold, weight);
    if f < 1.0 then 1.0 - f else 0.0
  }

  function KeptProduct(humidities: seq<real>, threshold: real, weight: real): (p: real)
    ensures p >= 0.0
  {
    if humidities == [] then 1.0
    else
      var p := KeptProduct(humidities[..|humidities| - 1], threshold, weight);
      var k := Kept(humidities[|humidities| - 1], threshold, weight);
      MulNonNegative(p, k);
      p * k
  }

  lemma MulNonNegative(a: real, b: real)
    requires a >= 0.0 && b >= 0.0
    ensures a * b >= 0.0
  {
  }

  lemma MulAssociates(a: real, b: real, c: real)
    ensures a * b * c == a * (b * c)
  {
  }

  lemma MulSwaps(a: real, b: real, c: real)
    ensures a * b * c == a * c * b
  {
  }

  lemma LossIsFraction(quantity: real, humidity: real, threshold: real, weight: real)
    requires quantity >= 0.0 && weight >= 0.0
    ensures CalcLoss(quantity, humidity, threshold, weight) == quantity * Fraction(humidity, threshold, weight)
  {
    if humidity > threshold {
      var h, w := (humidity - threshold) / 100.0, weight / 20.0;
      assert quantity * (humidity - threshold) / 100.0 == quantity * h;
      assert quantity * h * w == quantity * (h * w);
      MulNonNegative(h, w);
      MulNonNegative(quantity, h * w);
    }
  }

  lemma CarryIsKept(quantity: real, humidity: real, threshold: real, weight: real)
    requires quantity >= 0.0 && weight >= 0.0
    ensures Carry(quantity, CalcLoss(quantity, humidity, threshold, weight))
            == quantity * Kept(humidity, threshold, weight)
  {
    LossIsFraction(quantity, humidity, threshold, weight);
    var f := Fraction(humidity, threshold, weight);
    assert quantity - quantity * f == quantity * (1.0 - f);
    if f < 1.0 {
      MulNonNegative(quantity, 1.0 - f);
    } else {
      MulNonNegative(quantity, f - 1.0);
      assert quantity * (1.0 - f) == -(quantity * (f - 1.0));
    }
  }

  /** The carried quantity is the initial one times the product of the kept fractions. */
  lemma {:induction false} RemainingIsProduct(quantity: real, hs: seq<real>, threshold: real, weight: real)
    requires quantity >= 0.0 && weight >= 0.0
    ensures Remaining(quantity, hs, threshold, weight) == quantity * KeptProduct(hs, threshold, weight)
  {
    hide CalcLoss, Fraction, Kept, Carry;
    if hs != [] {
      var n := |hs| - 1;
      RemainingIsProduct(quantity, hs[..n], threshold, weight);
      RemainingIsNonNegative(quantity, hs[..n], threshold, weight);
      CarryIsKept(Remaining(quantity, hs[..n], threshold, weight), hs[n], threshold, weight);
      MulAssociates(quantity, KeptProduct(hs[..n], threshold, weight), Kept(hs[n], threshold, weight));
    }
  }

  lemma RemainingIsNonNegative(quantity: real, hs: seq<real>, threshold: real, weight: real)
    requires quantity >= 0.0
    ensures Remaining(quantity, hs, threshold, weight) >= 0.0
  {
  }

  /** The carried quantity never grows along a batch. */
  lemma {:induction false} RemainingNeverGrows(quantity: real, hs: seq<real>,
                                               threshold: real, weight: real, i: nat, j: nat)
    requires quantity >= 0.0 && weight >= 0.0 && i <= j <= |hs|
    ensures 0.0 <= Remaining(quantity, hs[..j], threshold, weight) <= Remaining(quantity, hs[..i], threshold, weight)
    decreases j - i
  {
    RemainingIsNonNegative(quantity, hs[..j], threshold, weight);
    if i < j {
      RemainingNeverGrows(quantity, hs, threshold, weight, i, j - 1);
      assert hs[..j][..j - 1] == hs[..j - 1];
      var before := Remaining(quantity, hs[..j - 1], threshold, weight);
      LossIsFraction(before, hs[j - 1], threshold, weight);
      MulNonNegative(before, Fraction(hs[j - 1], threshold, weight));
    }
  }

  // ---------------------------------------------------------------- order does not matter

  lemma {:induction false} ProductAppend(a: seq<real>, b: seq<real>, threshold: real, weight: real)
    ensures KeptProduct(a + b, threshold, weight)
            == KeptProduct(a, threshold, weight) * KeptProduct(b, threshold, weight)
  {
    hide Kept, Fraction;
    if b == [] {
      assert a + b == a;
    } else {
      var n := |b| - 1;
      assert (a + b)[..|a + b| - 1] == a + b[..n];
      ProductAppend(a, b[..n], threshold, weight);
      var p, q, k :=
        KeptProduct(a, threshold, weight), KeptProduct(b[..n], threshold, weight), Kept(b[n], threshold, weight);
      MulAssociates(p, q, k);
    }
  }

  lemma ProductExtends(hs: seq<real>, x: real, threshold: real, weight: real)
    ensures KeptProduct(hs + [x], threshold, weight) == KeptProduct(hs, threshold, weight) * Kept(x, threshold, weight)
  {
    hide Kept, Fraction;
    assert (hs + [x])[..|hs|] == hs;
  }

  lemma ProductMovesToEnd(head: seq<real>, x: real, tail: seq<real>, threshold: real, weight: real)
    ensures KeptProduct(head + [x] + tail, threshold, weight)
            == KeptProduct(head + tail, threshold, weight) * Kept(x, threshold, weight)
  {
    hide *;
    var p, q, k :=
      KeptProduct(head, threshold, weight), KeptProduct(tail, threshold, weight), Kept(x, threshold, weight);
    assert KeptProduct(head + tail, threshold, weight) == p * q by {
      ProductAppend(head, tail, threshold, weight);
    }
    assert KeptProduct(head + [x] + tail, threshold, weight) == p * k * q by {
      ProductAppend(head + [x], tail, threshold, weight);
      ProductExtends(head, x, threshold, weight);
    }
    MulSwaps(p, k, q);
  }

  lemma MultisetWithout<T>(head: seq<T>, x: T, tail: seq<T>)
    ensures multiset(head + tail) == multiset(head + [x] + tail) - multiset{x}
  {
    assert multiset(head + [x] + tail) == multiset(head) + multiset{x} + multiset(tail);
    assert multiset(head + tail) == multiset(head) + multiset(tail);
  }

  lemma MultisetInit<T>(a: seq<T>)
    requires a != []
    ensures multiset(a[..|a| - 1]) == multiset(a) - multiset{a[|a| - 1]}
  {
    assert a == a[..|a| - 1] + [a[|a| - 1]];
  }

  lemma PermutationWithoutLast<T>(a: seq<T>, b: seq<T>) returns (head: seq<T>, tail: seq<T>)
    requires a != [] && multiset(a) == multiset(b)
    ensures b == head + [a[|a| - 1]] + tail
    ensures multiset(a[..|a| - 1]) == multiset(head + tail)
  {
    var last := a[|a| - 1];
    assert last in multiset(b);
    var i :| 0 <= i < |b| && b[i] == last;
    head, tail := b[..i], b[i + 1..];
    assert b == head + [last] + tail;
    MultisetWithout(head, last, tail);
    MultisetInit(a);
  }

  lemma {:induction false} ProductOfPermutation(a: seq<real>, b: seq<real>, threshold: real, weight: real)
    requires multiset(a) == multiset(b)
    ensures KeptProduct(a, threshold, weight) == KeptProduct(b, threshold, weight)
    decreases |a|
  {
    hide Kept, Fraction;
    if a == [] {
      assert |multiset(b)| == 0;
      assert b == [];
    } else {
      var head, tail := PermutationWithoutLast(a, b);
      ProductOfPermutation(a[..|a| - 1], head + tail, threshold, weight);
      ProductMovesToEnd(head, a[|a| - 1], tail, threshold, weight);
    }
  }

  /** Reordering the records of a batch does not change what remains after it. */
  lemma RemainingIgnoresOrder(quantity: real, a: seq<real>, b: seq<real>, threshold: real, weight: real)
    requires quantity >= 0.0 && weight >= 0.0 && multiset(a) == multiset(b)
    ensures Remaining(quantity, a, threshold, weight) == Remaining(quantity, b, threshold, weight)
  {
    hide KeptProduct, Remaining;
    ProductOfPermutation(a, b, threshold, weight);
    var p := KeptProduct(a, threshold, weight);
    assert Remaining(quantity, a, threshold, weight) == quantity * p by {
      RemainingIsProduct(quantity, a, threshold, weight);
    }
    assert Remaining(quantity, b, threshold, weight) == quantity * p by {
      RemainingIsProduct(quantity, b, threshold, weight);
    }
  }

  // ---------------------------------------------------------------- conservation

  /** Some record costs more than everything that is left when it is reached. */
  predicate Overdrawn(hs: seq<real>, threshold: real, weight: real) {
    exists i :: 0 <= i < |hs| && Fraction(hs[i], threshold, weight) > 1.0
                && forall j :: 0 <= j < i ==> Fraction(hs[j], threshold, weight) < 1.0
  }

  /** A record keeps the books exactly when it costs at most everything, or nothing is left. */
  lemma StepBalance(quantity: real, humidity: real, threshold: real, weight: real)
    requires quantity >= 0.0 && weight >= 0.0
    ensures var loss := CalcLoss(quantity, humidity, threshold, weight);
            && Carry(quantity, loss) + loss >= quantity
            && (Carry(quantity, loss) + loss == quantity <==>
                quantity == 0.0 || Fraction(humidity, threshold, weight) <= 1.0)
  {
    LossIsFraction(quantity, humidity, threshold, weight);
    var f := Fraction(humidity, threshold, weight);
    if f <= 1.0 {
      MulNonNegative(quantity, 1.0 - f);
      assert quantity * (1.0 - f) == quantity - quantity * f;
    } else if quantity > 0.0 {
      assert quantity * (f - 1.0) > 0.0;
      assert quantity * (f - 1.0) == quantity * f - quantity;
    }
  }

  lemma {:induction false} ProductIsPositive(hs: seq<real>, threshold: real, weight: real)
    ensures KeptProduct(hs, threshold, weight) > 0.0
            <==> forall j :: 0 <= j < |hs| ==> Fraction(hs[j], threshold, weight) < 1.0
  {
    if hs != [] {
      var n := |hs| - 1;
      ProductIsPositive(hs[..n], threshold, weight);
      var p, k := KeptProduct(hs[..n], threshold, weight), Kept(hs[n], threshold, weight);
      if p > 0.0 && k > 0.0 {
        assert p * k > 0.0;
      }
      assert hs[..n] + [hs[n]] == hs;
      assert forall j :: 0 <= j < n ==> hs[..n][j] == hs[j];
    }
  }

  /** Losses plus remainder never fall short of the cargo, and they add up to it exactly when there is none or
      no record is overdrawn. */
  lemma {:induction false} LossBalance(quantity: real, hs: seq<real>, threshold: real, weight: real)
    requires quantity >= 0.0 && weight >= 0.0
    ensures TotalLoss(quantity, hs, threshold, weight) + Remaining(quantity, hs, threshold, weight) >= quantity
    ensures TotalLoss(quantity, hs, threshold, weight) + Remaining(quantity, hs, threshold, weight) == quantity
            <==> quantity == 0.0 || !Overdrawn(hs, threshold, weight)
  {
    if hs != [] {
      var n := |hs| - 1;
      var init := hs[..n];
      LossBalance(quantity, init, threshold, weight);
      RemainingIsProduct(quantity, init, threshold, weight);
      RemainingIsNonNegative(quantity, init, threshold, weight);
      var before := Remaining(quantity, init, threshold, weight);
      StepBalance(before, hs[n], threshold, weight);
      ProductIsPositive(init, threshold, weight);
      var p := KeptProduct(init, threshold, weight);
      assert quantity > 0.0 ==> (before == 0.0 <==> p == 0.0);
      assert quantity == 0.0 ==> before == 0.0;
      OverdrawnStep(hs, threshold, weight);
    }
  }

  /** A cargo without weight loses nothing. */
  lemma WeightlessIsNotOverdrawn(hs: seq<real>, threshold: real)
    ensures !Overdrawn(hs, threshold, 0.0)
  {
    assert forall h: real :: Fraction(h, threshold, 0.0) == 0.0;
  }

  lemma OverdrawnStep(hs: seq<real>, threshold: real, weight: real)
    requires hs != []
    ensures var n := |hs| - 1;
            Overdrawn(hs, threshold, weight) <==>
              Overdrawn(hs[..n], threshold, weight)
              || (Fraction(hs[n], threshold, weight) > 1.0
                  && forall j :: 0 <= j < n ==> Fraction(hs[..n][j], threshold, weight) < 1.0)
  {
    var n := |hs| - 1;
    var init := hs[..n];
    assert forall j :: 0 <= j < n ==> init[j] == hs[j];
    if Overdrawn(init, threshold, weight) {
      var i :| 0 <= i < n && Fraction(init[i], threshold, weight) > 1.0
               && forall j :: 0 <= j < i ==> Fraction(init[j], threshold, weight) < 1.0;
      assert Fraction(hs[i], threshold, weight) > 1.0;
    }
    if Overdrawn(hs, threshold, weight) {
      var i :| 0 <= i < |hs| && Fraction(hs[i], threshold, weight) > 1.0
               && forall j :: 0 <= j < i ==> Fraction(hs[j], threshold, weight) < 1.0;
      if i < n {
        assert Fraction(init[i], threshold, weight) > 1.0;
      }
    }
  }
}
