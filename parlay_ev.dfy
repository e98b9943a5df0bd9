/** EV of a parlay: joint probability, combined odds and expected value of a unit stake
    (utils/calc_ev_from_prob.py, calculate_parlay_ev). */
module ParlayEv {
  import opened Loader
  import SingleEv

  /** Which number of an outcome a product ranges over. */
  datatype Field = ProbabilityField | OddsField

  function FieldOf(o: Outcome, f: Field): real
  {
    match f
    case ProbabilityField => o.probability
    case OddsField => o.odds
  }

  /** `reduce(lambda x, y: x * y, [o[f] for o in parlay])`: a left fold without an initial
      value, so it is only defined on a non-empty parlay. */
  function Reduce(parlay: seq<Outcome>, f: Field): real
    requires |parlay| > 0
  {
    if |parlay| == 1 then FieldOf(parlay[0], f)
    else Reduce(parlay[..|parlay| - 1], f) * FieldOf(parlay[|parlay| - 1], f)
  }

  /** The field of every member, in order. */
  function Values(parlay: seq<Outcome>, f: Field): (vs: seq<real>)
    ensures |vs| == |parlay|
  {
    seq(|parlay|, j requires 0 <= j < |parlay| => FieldOf(parlay[j], f))
  }

  /** The mathematical product of a sequence of numbers (1 for none). */
  function Prod(xs: seq<real>): real
  {
    if xs == [] then 1.0 else xs[0] * Prod(xs[1..])
  }

  /** The mathematical product of the field over the parlay. */
  function Product(parlay: seq<Outcome>, f: Field): real
  {
    Prod(Values(parlay, f))
  }

  lemma {:induction false} ProdConcat(xs: seq<real>, ys: seq<real>)
    ensures Prod(xs + ys) == Prod(xs) * Prod(ys)
  {
    if xs == [] {
      assert xs + ys == ys;
    } else {
      assert (xs + ys)[1..] == xs[1..] + ys;
      ProdConcat(xs[1..], ys);
    }
  }

  lemma ProductConcat(a: seq<Outcome>, b: seq<Outcome>, f: Field)
    ensures Product(a + b, f) == Product(a, f) * Product(b, f)
  {
    assert Values(a + b, f) == Values(a, f) + Values(b, f);
    ProdConcat(Values(a, f), Values(b, f));
  }

  lemma ProductSingleton(o: Outcome, f: Field)
    ensures Product([o], f) == FieldOf(o, f)
  {
    var vs := Values([o], f);
    assert vs == [FieldOf(o, f)];
    assert vs[1..] == [];
    assert Prod(vs) == vs[0] * Prod([]);
  }

  /** The left fold computes the product. */
  lemma {:induction false} ReduceIsProduct(parlay: seq<Outcome>, f: Field)
    requires |parlay| > 0
    ensures Reduce(parlay, f) == Product(parlay, f)
  {
    var n := |parlay|;
    var last := parlay[n - 1];
    ProductSingleton(last, f);
    if n == 1 {
      assert parlay == [last];
    } else {
      var init := parlay[..n - 1];
      ReduceIsProduct(init, f);
      assert parlay == init + [last];
      ProductConcat(init, [last], f);
      assert Product(parlay, f) == Product(init, f) * FieldOf(last, f);
      assert Reduce(parlay, f) == Reduce(init, f) * FieldOf(last, f);
    }
  }

  /** The (ev, total_probability, combined_odds) triple of `calculate_parlay_ev`. */
  datatype ParlayValue = ParlayValue(ev: real, probability: real, odds: real)

  /** `calculate_parlay_ev(parlay)`; an empty parlay makes `reduce` raise and is excluded. */
  function CalculateParlayEv(parlay: seq<Outcome>): (r: ParlayValue)
    requires |parlay| > 0
    ensures r.probability == Product(parlay, ProbabilityField)
    ensures r.odds == Product(parlay, OddsField)
    ensures r.ev == SingleEv.CalculateEv(r.probability, r.odds)
    ensures r.ev == r.probability * r.odds - 1.0
  {
    ReduceIsProduct(parlay, ProbabilityField);
    ReduceIsProduct(parlay, OddsField);
    var totalProbability := Reduce(parlay, ProbabilityField);
    var combinedOdds := Reduce(parlay, OddsField);
    var profit := combinedOdds - 1.0;
    var loss := 1.0;
    ParlayValue(totalProbability * profit - (1.0 - totalProbability) * loss, totalProbability, combinedOdds)
  }

  /** Reordering the members of a product does not change it. */
  lemma {:induction false} ProductPermutation(a: seq<Outcome>, b: seq<Outcome>, f: Field)
    requires multiset(a) == multiset(b)
    ensures Product(a, f) == Product(b, f)
    decreases |a|
  {
    if a == [] {
      assert |b| == |multiset(b)| == 0;
    } else {
      var x := a[0];
      assert x in multiset(b);
      var i :| 0 <= i < |b| && b[i] == x;
      var rest := b[..i] + b[i + 1..];
      MultisetRemoveAt(b, i);
      assert a == [x] + a[1..];
      assert multiset(a[1..]) == multiset(a) - multiset{x};
      ProductPermutation(a[1..], rest, f);
      PermutationStep(a, b, i, f);
    }
  }

  /** Moving the first member of `a` to position `i` keeps the product. */
  lemma PermutationStep(a: seq<Outcome>, b: seq<Outcome>, i: nat, f: Field)
    requires |a| > 0 && i < |b| && b[i] == a[0]
    requires Product(a[1..], f) == Product(b[..i] + b[i + 1..], f)
    ensures Product(a, f) == Product(b, f)
  {
    var va, vb := Values(a, f), Values(b, f);
    assert va[1..] == Values(a[1..], f);
    assert vb[..i] + vb[i + 1..] == Values(b[..i] + b[i + 1..], f);
    ProdRemoveAt(vb, i);
  }

  /** Taking out the number at `i` divides it out of the product. */
  lemma {:induction false} ProdRemoveAt(xs: seq<real>, i: nat)
    requires i < |xs|
    ensures Prod(xs) == xs[i] * Prod(xs[..i] + xs[i + 1..])
  {
    if i > 0 {
      var tail := xs[1..];
      var rest := tail[..i - 1] + tail[i..];
      var removed := xs[..i] + xs[i + 1..];
      assert tail[..i - 1] == xs[1..i] && tail[i..] == xs[i + 1..];
      assert xs[..i] == [xs[0]] + xs[1..i];
      ConcatAssocReal([xs[0]], xs[1..i], xs[i + 1..]);
      assert removed == [xs[0]] + rest;
      assert removed[1..] == rest;
      assert Prod(removed) == xs[0] * Prod(rest);
      assert Prod(xs) == xs[0] * Prod(tail);
      ProdRemoveAt(tail, i - 1);
      ExchangeFactor(Prod(xs), xs[0], Prod(tail), xs[i], Prod(rest), Prod(removed));
    } else {
      assert xs[..i] + xs[i + 1..] == xs[1..];
    }
  }

  lemma ConcatAssocReal(x: seq<real>, y: seq<real>, z: seq<real>)
    ensures (x + y) + z == x + (y + z)
  {
  }

  lemma ExchangeFactor(p: real, x: real, t: real, y: real, r: real, q: real)
    requires p == x * t && t == y * r && q == x * r
    ensures p == y * q
  {
  }

  lemma MultisetRemoveAt(b: seq<Outcome>, i: nat)
    requires i < |b|
    ensures multiset(b[..i] + b[i + 1..]) == multiset(b) - multiset{b[i]}
  {
    assert b == b[..i] + [b[i]] + b[i + 1..];
    assert multiset(b) == multiset(b[..i]) + multiset([b[i]]) + multiset(b[i + 1..]);
  }

  /** Permuting the members of a parlay leaves (ev, probability, odds) unchanged. */
  lemma ParlayPermutation(p1: seq<Outcome>, p2: seq<Outcome>)
    requires |p1| > 0 && multiset(p1) == multiset(p2)
    ensures |p2| > 0
    ensures CalculateParlayEv(p1) == CalculateParlayEv(p2)
  {
    assert |p2| == |multiset(p2)| == |multiset(p1)| == |p1|;
    ProductPermutation(p1, p2, ProbabilityField);
    ProductPermutation(p1, p2, OddsField);
  }

  /** A one-outcome parlay is that outcome's single-bet EV with its own probability and odds. */
  lemma SingleOutcomeParlay(o: Outcome)
    ensures CalculateParlayEv([o]) ==
      ParlayValue(SingleEv.CalculateEv(o.probability, o.odds), o.probability, o.odds)
  {
  }

  /** Members with probabilities in [0, 1] and non-negative odds give a joint probability
      in [0, 1], non-negative combined odds and an EV of at least -1. */
  lemma ProductBounds(parlay: seq<Outcome>)
    requires forall i :: 0 <= i < |parlay| ==> 0.0 <= parlay[i].probability <= 1.0 && parlay[i].odds >= 0.0
    ensures 0.0 <= Product(parlay, ProbabilityField) <= 1.0
    ensures Product(parlay, OddsField) >= 0.0
  {
    ProdUnitBounds(Values(parlay, ProbabilityField));
    ProdNonNegative(Values(parlay, OddsField));
  }

  /** Numbers in [0, 1] have a product in [0, 1]. */
  lemma {:induction false} ProdUnitBounds(xs: seq<real>)
    requires forall i :: 0 <= i < |xs| ==> 0.0 <= xs[i] <= 1.0
    ensures 0.0 <= Prod(xs) <= 1.0
  {
    if xs != [] {
      ProdUnitBounds(xs[1..]);
      MulNonNegative(xs[0], Prod(xs[1..]));
      MulNonNegative(1.0 - xs[0], Prod(xs[1..]));
    }
  }

  lemma {:induction false} ProdNonNegative(xs: seq<real>)
    requires forall i :: 0 <= i < |xs| ==> xs[i] >= 0.0
    ensures Prod(xs) >= 0.0
  {
    if xs != [] {
      ProdNonNegative(xs[1..]);
      MulNonNegative(xs[0], Prod(xs[1..]));
    }
  }

  lemma ParlayBounds(parlay: seq<Outcome>)
    requires |parlay| > 0
    requires forall i :: 0 <= i < |parlay| ==> 0.0 <= parlay[i].probability <= 1.0 && parlay[i].odds >= 0.0
    ensures 0.0 <= CalculateParlayEv(parlay).probability <= 1.0
    ensures CalculateParlayEv(parlay).ev >= -1.0
  {
    ProductBounds(parlay);
    var r := CalculateParlayEv(parlay);
    var p, o := r.probability, r.odds;
    MulNonNegative(p, o);
  }

  /** Raising one number of a product whose other numbers are positive raises the product. */
  lemma ProdIncreasing(xs: seq<real>, i: nat, q: real)
    requires i < |xs| && q > xs[i]
    requires forall j :: 0 <= j < |xs| && j != i ==> xs[j] > 0.0
    ensures Prod(xs[i := q]) > Prod(xs)
  {
    var ys := xs[i := q];
    assert ys[..i] + ys[i + 1..] == xs[..i] + xs[i + 1..];
    ProdRemoveAt(xs, i);
    ProdRemoveAt(ys, i);
    var rest := xs[..i] + xs[i + 1..];
    PositiveProd(rest);
    MultiplyStrict(1.0, xs[i], q, Prod(rest));
  }

  lemma {:induction false} PositiveProd(xs: seq<real>)
    requires forall j :: 0 <= j < |xs| ==> xs[j] > 0.0
    ensures Prod(xs) > 0.0
  {
    if xs != [] {
      PositiveProd(xs[1..]);
    }
  }

  /** Raising one member's probability, with every other probability and every odds
      positive, strictly raises the parlay's EV. */
  lemma ParlayEvIncreasing(parlay: seq<Outcome>, i: nat, q: real)
    requires i < |parlay| && q > parlay[i].probability
    requires forall j :: 0 <= j < |parlay| ==> parlay[j].odds > 0.0
    requires forall j :: 0 <= j < |parlay| && j != i ==> parlay[j].probability > 0.0
    ensures CalculateParlayEv(parlay[i := parlay[i].(probability := q)]).ev > CalculateParlayEv(parlay).ev
  {
    var raised := parlay[i := parlay[i].(probability := q)];
    RaisedProducts(parlay, i, q);
    ValueRaised(CalculateParlayEv(parlay), CalculateParlayEv(raised));
  }

  /** At equal positive odds, a higher probability gives a higher EV. */
  lemma ValueRaised(a: ParlayValue, b: ParlayValue)
    requires a.ev == a.probability * a.odds - 1.0 && b.ev == b.probability * b.odds - 1.0
    requires b.odds == a.odds > 0.0 && b.probability > a.probability
    ensures b.ev > a.ev
  {
    MultiplyRight(a.probability, b.probability, a.odds);
  }

  /** The products behind the lemma above: the joint probability rises and the combined
      odds stay the same, and positive. */
  lemma RaisedProducts(parlay: seq<Outcome>, i: nat, q: real)
    requires i < |parlay| && q > parlay[i].probability
    requires forall j :: 0 <= j < |parlay| ==> parlay[j].odds > 0.0
    requires forall j :: 0 <= j < |parlay| && j != i ==> parlay[j].probability > 0.0
    ensures var raised := parlay[i := parlay[i].(probability := q)];
      Product(raised, ProbabilityField) > Product(parlay, ProbabilityField) &&
      Product(raised, OddsField) == Product(parlay, OddsField) > 0.0
  {
    var ps := Values(parlay, ProbabilityField);
    var os := Values(parlay, OddsField);
    ValuesRaised(parlay, i, q);
    assert forall j :: 0 <= j < |ps| && j != i ==> ps[j] > 0.0 by {
      forall j | 0 <= j < |ps| && j != i ensures ps[j] > 0.0 {
        assert ps[j] == parlay[j].probability;
      }
    }
    ProdIncreasing(ps, i, q);
    assert forall j :: 0 <= j < |os| ==> os[j] > 0.0 by {
      forall j | 0 <= j < |os| ensures os[j] > 0.0 {
        assert os[j] == parlay[j].odds;
      }
    }
    PositiveProd(os);
  }

  /** Raising one probability changes one probability and no odds. */
  lemma ValuesRaised(parlay: seq<Outcome>, i: nat, q: real)
    requires i < |parlay|
    ensures var raised := parlay[i := parlay[i].(probability := q)];
      Values(raised, ProbabilityField) == Values(parlay, ProbabilityField)[i := q] &&
      Values(raised, OddsField) == Values(parlay, OddsField)
  {
  }

  lemma MultiplyRight(p: real, q: real, o: real)
    requires o > 0.0 && p < q
    ensures p * o < q * o
  {
    assert (q - p) * o > 0.0;
  }

  lemma MulNonNegative(a: real, b: real)
    requires a >= 0.0 && b >= 0.0
    ensures a * b >= 0.0
  {
  }

  lemma MultiplyStrict(c: real, p: real, q: real, o: real)
    requires c > 0.0 && o > 0.0 && p < q
    ensures c * p * o < c * q * o
  {
    assert c * (q - p) > 0.0;
    assert c * (q - p) * o > 0.0;
  }

  /** Two Win outcomes at probability 0.9 and odds 1.5 form a double with joint
      probability 0.81, combined odds 2.25 and EV 0.8225. */
  lemma DoubleExample()
    ensures CalculateParlayEv([Outcome("X", Win, 0.9, 1.5), Outcome("Y", Win, 0.9, 1.5)])
      == ParlayValue(0.8225, 0.81, 2.25)
  {
  }
}
