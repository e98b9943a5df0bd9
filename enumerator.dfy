/** The parlay enumerator `test_all_parlays` of src/ev_calc.py, and the unreachable variant
    of the same name in utils/calc_ev_from_prob.py. */
module Enumerator {
  import opened Wrappers
  import opened Loader
  import ParlayEv

  /** The flattened outcome pool: the three outcomes of every match, in input order. */
  function Pool(matches: seq<Match>): (pool: seq<Outcome>)
    ensures |pool| == 3 * |matches|
  {
    if matches == [] then [] else GenerateOutcomes(matches[0]) + Pool(matches[1..])
  }

  /** Position `i` of the pool is outcome `i % 3` of match `i / 3`. */
  lemma {:induction false} PoolAt(matches: seq<Match>, i: nat)
    requires i < 3 * |matches|
    ensures Pool(matches)[i] == GenerateOutcomes(matches[i / 3])[i % 3]
  {
    if i >= 3 {
      PoolAt(matches[1..], i - 3);
      assert (i - 3) / 3 == i / 3 - 1 && (i - 3) % 3 == i % 3;
    }
  }

  /** A strictly increasing sequence of positions. */
  predicate Increasing(c: seq<nat>)
  {
    forall j, l :: 0 <= j < l < |c| ==> c[j] < c[l]
  }

  /** Lexicographic order on position sequences, the order `itertools.combinations` emits. */
  predicate LexLess(a: seq<nat>, b: seq<nat>)
  {
    a != [] && b != [] && (a[0] < b[0] || (a[0] == b[0] && LexLess(a[1..], b[1..])))
  }

  /** Each member comes lexicographically before every later one. */
  predicate LexOrdered(cs: seq<seq<nat>>)
  {
    forall i, j :: 0 <= i < j < |cs| ==> LexLess(cs[i], cs[j])
  }

  function PrependAll(x: nat, cs: seq<seq<nat>>): (r: seq<seq<nat>>)
    ensures |r| == |cs|
    ensures forall j :: 0 <= j < |r| ==> r[j] == [x] + cs[j]
  {
    if cs == [] then [] else [[x] + cs[0]] + PrependAll(x, cs[1..])
  }

  /** `k` increasing positions from `lo .. n - 1`. */
  predicate Choice(c: seq<nat>, lo: nat, n: nat, k: nat)
  {
    |c| == k && Increasing(c) && forall l :: 0 <= l < k ==> lo <= c[l] < n
  }

  /** `itertools.combinations(range(lo, n), k)`: every choice of `k` positions from
      `lo .. n - 1`, each as an increasing sequence, in lexicographic order. */
  function Combinations(lo: nat, n: nat, k: nat): (cs: seq<seq<nat>>)
    ensures forall j :: 0 <= j < |cs| ==> Choice(cs[j], lo, n, k)
    decreases n - lo, k
  {
    if k == 0 then [[]]
    else if lo >= n then []
    else PrependAll(lo, Combinations(lo + 1, n, k - 1)) + Combinations(lo + 1, n, k)
  }

  /** Every increasing choice of `k` positions in range is generated. */
  lemma {:induction false} CombinationsComplete(lo: nat, n: nat, k: nat, c: seq<nat>)
    requires Choice(c, lo, n, k)
    ensures c in Combinations(lo, n, k)
    decreases n - lo, k, 1
  {
    if k == 0 {
      assert c == [];
    } else if c[0] == lo {
      CombinationsCompleteHead(lo, n, k, c);
    } else {
      assert forall l :: 0 <= l < k ==> c[0] <= c[l];
      assert lo < c[0] < n;
      CombinationsComplete(lo + 1, n, k, c);
      CombinationsRight(lo, n, k, c);
    }
  }

  /** A choice that starts at `lo` is `lo` before a choice from `lo + 1`. */
  lemma {:induction false} CombinationsCompleteHead(lo: nat, n: nat, k: nat, c: seq<nat>)
    requires k > 0 && Choice(c, lo, n, k) && c[0] == lo
    ensures c in Combinations(lo, n, k)
    decreases n - lo, k, 0
  {
    var tail := c[1..];
    assert lo < n;
    assert c == [lo] + tail;
    TailChoice(lo, n, k, c);
    CombinationsComplete(lo + 1, n, k - 1, tail);
    PrependAllMember(lo, Combinations(lo + 1, n, k - 1), tail);
    CombinationsLeft(lo, n, k, c);
  }

  /** Dropping the first position of a choice that starts at `lo` leaves a choice from
      `lo + 1`. */
  lemma TailChoice(lo: nat, n: nat, k: nat, c: seq<nat>)
    requires k > 0 && Choice(c, lo, n, k) && c[0] == lo
    ensures Choice(c[1..], lo + 1, n, k - 1)
  {
    var tail := c[1..];
    assert forall l :: 0 <= l < k - 1 ==> tail[l] == c[l + 1];
  }

  lemma CombinationsLeft(lo: nat, n: nat, k: nat, c: seq<nat>)
    requires k > 0 && lo < n && c in PrependAll(lo, Combinations(lo + 1, n, k - 1))
    ensures c in Combinations(lo, n, k)
  {
  }

  lemma CombinationsRight(lo: nat, n: nat, k: nat, c: seq<nat>)
    requires k > 0 && lo < n && c in Combinations(lo + 1, n, k)
    ensures c in Combinations(lo, n, k)
  {
  }

  lemma PrependAllMember(x: nat, cs: seq<seq<nat>>, c: seq<nat>)
    requires c in cs
    ensures [x] + c in PrependAll(x, cs)
  {
    var j :| 0 <= j < |cs| && cs[j] == c;
    assert PrependAll(x, cs)[j] == [x] + c;
  }

  /** The combinations come in strictly increasing lexicographic order, so none repeats. */
  lemma {:induction false} CombinationsOrdered(lo: nat, n: nat, k: nat)
    ensures LexOrdered(Combinations(lo, n, k))
    decreases n - lo, k
  {
    if k > 0 && lo < n {
      CombinationsOrdered(lo + 1, n, k - 1);
      CombinationsOrdered(lo + 1, n, k);
      OrderedStep(lo, n, k);
    } else if k == 0 {
      assert Combinations(lo, n, k) == [[]];
    } else {
      assert Combinations(lo, n, k) == [];
    }
  }

  /** The two ordered runs a step of `Combinations` concatenates make an ordered run. */
  lemma OrderedStep(lo: nat, n: nat, k: nat)
    requires k > 0 && lo < n
    requires LexOrdered(Combinations(lo + 1, n, k - 1)) && LexOrdered(Combinations(lo + 1, n, k))
    ensures LexOrdered(Combinations(lo, n, k))
  {
    var inner := Combinations(lo + 1, n, k - 1);
    var left := PrependAll(lo, inner);
    var right := Combinations(lo + 1, n, k);
    PrependOrdered(lo, inner);
    CombinationsCross(lo, n, k);
    ConcatOrdered(left, right);
    assert Combinations(lo, n, k) == left + right;
  }

  /** The choices that start at `lo` come before those that do not. */
  lemma CombinationsCross(lo: nat, n: nat, k: nat)
    requires k > 0 && lo < n
    ensures Before(PrependAll(lo, Combinations(lo + 1, n, k - 1)), Combinations(lo + 1, n, k))
  {
    var inner := Combinations(lo + 1, n, k - 1);
    var left, right := PrependAll(lo, inner), Combinations(lo + 1, n, k);
    forall i, j | 0 <= i < |left| && 0 <= j < |right|
      ensures LexLess(left[i], right[j])
    {
      assert left[i] == [lo] + inner[i];
      assert Choice(right[j], lo + 1, n, k);
      LexLessHead(left[i], right[j]);
    }
  }

  /** Every member of `a` comes lexicographically before every member of `b`. */
  predicate Before(a: seq<seq<nat>>, b: seq<seq<nat>>)
  {
    forall i, j :: 0 <= i < |a| && 0 <= j < |b| ==> LexLess(a[i], b[j])
  }

  lemma LexLessHead(a: seq<nat>, b: seq<nat>)
    requires a != [] && b != [] && a[0] < b[0]
    ensures LexLess(a, b)
  {
  }

  /** Putting the same first position before lexicographically ordered choices keeps
      them ordered. */
  lemma PrependOrdered(x: nat, cs: seq<seq<nat>>)
    requires LexOrdered(cs)
    ensures LexOrdered(PrependAll(x, cs))
  {
    var r := PrependAll(x, cs);
    forall i, j | 0 <= i < j < |r|
      ensures LexLess(r[i], r[j])
    {
      assert r[i][1..] == cs[i] && r[j][1..] == cs[j];
    }
  }

  /** Two ordered runs, each member of the first before each of the second, make an
      ordered run. */
  lemma ConcatOrdered(a: seq<seq<nat>>, b: seq<seq<nat>>)
    requires LexOrdered(a) && LexOrdered(b) && Before(a, b)
    ensures LexOrdered(a + b)
  {
    var r := a + b;
    forall i, j | 0 <= i < j < |r|
      ensures LexLess(r[i], r[j])
    {
      if j < |a| {
        assert r[i] == a[i] && r[j] == a[j];
      } else if i < |a| {
        assert r[i] == a[i] && r[j] == b[j - |a|];
      } else {
        assert r[i] == b[i - |a|] && r[j] == b[j - |a|];
      }
    }
  }

  lemma LexLessIrreflexive(a: seq<nat>)
    ensures !LexLess(a, a)
  {
  }

  /** The outcomes at the chosen positions of the pool, in position order. */
  function Select(pool: seq<Outcome>, c: seq<nat>): (parlay: seq<Outcome>)
    requires forall l :: 0 <= l < |c| ==> c[l] < |pool|
    ensures |parlay| == |c|
  {
    seq(|c|, l requires 0 <= l < |c| => pool[c[l]])
  }

  /** `combinations(pool, k)` for `k >= 0`: the parlays of `k` pool members, in the order
      `itertools` yields them. */
  function Parlays(pool: seq<Outcome>, k: nat): (ps: seq<seq<Outcome>>)
    ensures |ps| == |Combinations(0, |pool|, k)|
  {
    var cs := Combinations(0, |pool|, k);
    seq(|cs|, j requires 0 <= j < |cs| => Select(pool, cs[j]))
  }

  /** `set([outcome['fixture'] for outcome in parlay])`. */
  function FixtureSet(parlay: seq<Outcome>): set<string>
  {
    if parlay == [] then {} else {parlay[0].fixture} + FixtureSet(parlay[1..])
  }

  /** No two members of the parlay belong to the same fixture. */
  predicate DistinctFixtures(parlay: seq<Outcome>)
  {
    forall j, l :: 0 <= j < l < |parlay| ==> parlay[j].fixture != parlay[l].fixture
  }

  lemma {:induction false} FixtureSetMembers(parlay: seq<Outcome>, x: string)
    ensures x in FixtureSet(parlay) <==> exists j :: 0 <= j < |parlay| && parlay[j].fixture == x
  {
    if parlay != [] {
      FixtureSetMembers(parlay[1..], x);
      if x in FixtureSet(parlay[1..]) {
        var j :| 0 <= j < |parlay[1..]| && parlay[1..][j].fixture == x;
        assert parlay[j + 1].fixture == x;
      }
      if exists j :: 0 <= j < |parlay| && parlay[j].fixture == x {
        var j :| 0 <= j < |parlay| && parlay[j].fixture == x;
        if j > 0 {
          assert parlay[1..][j - 1].fixture == x;
        }
      }
    }
  }

  /** The size test of the source: the fixture set has as many members as the parlay
      exactly when no fixture repeats, and it never has more. */
  lemma {:induction false} FixtureSetSize(parlay: seq<Outcome>)
    ensures |FixtureSet(parlay)| <= |parlay|
    ensures |FixtureSet(parlay)| == |parlay| <==> DistinctFixtures(parlay)
  {
    if parlay != [] {
      var tail := parlay[1..];
      FixtureSetSize(tail);
      FixtureSetMembers(tail, parlay[0].fixture);
      if parlay[0].fixture in FixtureSet(tail) {
        var j :| 0 <= j < |tail| && tail[j].fixture == parlay[0].fixture;
        assert parlay[j + 1].fixture == parlay[0].fixture;
      } else {
        assert FixtureSet(parlay) == {parlay[0].fixture} + FixtureSet(tail);
        if DistinctFixtures(tail) {
          forall j, l | 0 <= j < l < |parlay|
            ensures parlay[j].fixture != parlay[l].fixture
          {
            if j > 0 {
              assert parlay[j] == tail[j - 1] && parlay[l] == tail[l - 1];
            } else {
              assert parlay[l] == tail[l - 1];
            }
          }
        }
        if DistinctFixtures(parlay) {
          forall j, l | 0 <= j < l < |tail|
            ensures tail[j].fixture != tail[l].fixture
          {
            assert tail[j] == parlay[j + 1] && tail[l] == parlay[l + 1];
          }
        }
      }
    }
  }

  /** One record of `all_parlays`. */
  datatype ParlayEntry = ParlayEntry(
    parlay: seq<Outcome>, ev: real, finalProbability: real, odds: real, metric: real)

  /** The record built for a parlay that passed the fixture test (src/ev_calc.py:24-26). */
  function MakeEntry(parlay: seq<Outcome>): (e: ParlayEntry)
    requires |parlay| > 0
    ensures e.parlay == parlay
    ensures var v := ParlayEv.CalculateParlayEv(parlay);
      e.ev == v.ev && e.finalProbability == v.probability && e.odds == v.odds
    ensures e.metric == 0.25 * e.ev + 0.75 * e.finalProbability
  {
    var v := ParlayEv.CalculateParlayEv(parlay);
    ParlayEntry(parlay, v.ev, v.probability, v.odds, 0.25 * v.ev + 0.75 * v.probability)
  }

  /** A generated combination is kept when its fixture set has `k` members. */
  predicate Admissible(parlay: seq<Outcome>, k: nat)
  {
    |FixtureSet(parlay)| == k
  }

  /** `all_parlays` after the loop has seen the parlays `ps`. The empty combination that
      `k == 0` would admit is excluded, since the source raises on it. */
  function Candidates(ps: seq<seq<Outcome>>, k: nat): (es: seq<ParlayEntry>)
    requires k > 0
    ensures |es| <= |ps|
  {
    if ps == [] then []
    else
      var last := ps[|ps| - 1];
      Candidates(ps[..|ps| - 1], k) +
        if Admissible(last, k) then
          assert last != [];
          [MakeEntry(last)]
        else []
  }

  /** An entry is a candidate exactly when it is built from an admissible parlay of `ps`. */
  lemma {:induction false} CandidatesMembers(ps: seq<seq<Outcome>>, k: nat, e: ParlayEntry)
    requires k > 0
    ensures e in Candidates(ps, k) <==>
      exists p :: p in ps && Admissible(p, k) && |p| > 0 && e == MakeEntry(p)
  {
    if ps != [] {
      var init := ps[..|ps| - 1];
      CandidatesMembers(init, k, e);
      assert ps == init + [ps[|ps| - 1]];
    }
  }

  /** The key `sorted` compares: EV in src/ev_calc.py, the metric in the unreachable
      variant. */
  datatype SortKey = ByEv | ByMetric

  function KeyOf(e: ParlayEntry, key: SortKey): real
  {
    match key
    case ByEv => e.ev
    case ByMetric => e.metric
  }

  predicate SortedDesc(es: seq<ParlayEntry>, key: SortKey)
  {
    forall i, j :: 0 <= i < j < |es| ==> KeyOf(es[i], key) >= KeyOf(es[j], key)
  }

  /** Places `e` after every entry whose key is at least its own. */
  function Insert(e: ParlayEntry, es: seq<ParlayEntry>, key: SortKey): seq<ParlayEntry>
  {
    if es == [] then [e]
    else if KeyOf(es[0], key) < KeyOf(e, key) then [e] + es
    else [es[0]] + Insert(e, es[1..], key)
  }

  /** `sorted(es, key=..., reverse=True)`: a stable sort by descending key. */
  function SortDesc(es: seq<ParlayEntry>, key: SortKey): seq<ParlayEntry>
  {
    if es == [] then []
    else Insert(es[|es| - 1], SortDesc(es[..|es| - 1], key), key)
  }

  /** The entries whose key equals `v`, in order. */
  function WithKey(es: seq<ParlayEntry>, key: SortKey, v: real): seq<ParlayEntry>
  {
    if es == [] then []
    else (if KeyOf(es[0], key) == v then [es[0]] else []) + WithKey(es[1..], key, v)
  }

  lemma {:induction false} WithKeyConcat(a: seq<ParlayEntry>, b: seq<ParlayEntry>, key: SortKey, v: real)
    ensures WithKey(a + b, key, v) == WithKey(a, key, v) + WithKey(b, key, v)
  {
    if a == [] {
      assert a + b == b;
    } else {
      var h := if KeyOf(a[0], key) == v then [a[0]] else [];
      assert (a + b)[0] == a[0];
      assert (a + b)[1..] == a[1..] + b;
      assert WithKey(a + b, key, v) == h + WithKey(a[1..] + b, key, v);
      WithKeyConcat(a[1..], b, key, v);
      ConcatAssoc(h, WithKey(a[1..], key, v), WithKey(b, key, v));
    }
  }

  lemma ConcatAssoc(x: seq<ParlayEntry>, y: seq<ParlayEntry>, z: seq<ParlayEntry>)
    ensures x + (y + z) == (x + y) + z
  {
  }

  /** Inserting adds exactly `e`. */
  lemma {:induction false} InsertMultiset(e: ParlayEntry, es: seq<ParlayEntry>, key: SortKey)
    ensures multiset(Insert(e, es, key)) == multiset(es) + multiset{e}
  {
    if es != [] && KeyOf(es[0], key) >= KeyOf(e, key) {
      InsertMultiset(e, es[1..], key);
      assert es == [es[0]] + es[1..];
    }
  }

  /** Inserting into a sorted sequence keeps it sorted. */
  lemma {:induction false} InsertSorted(e: ParlayEntry, es: seq<ParlayEntry>, key: SortKey)
    requires SortedDesc(es, key)
    ensures SortedDesc(Insert(e, es, key), key)
  {
    if es != [] && KeyOf(es[0], key) >= KeyOf(e, key) {
      var tail := es[1..];
      assert SortedDesc(tail, key);
      InsertSorted(e, tail, key);
      assert forall i :: 0 <= i < |tail| ==> KeyOf(tail[i], key) <= KeyOf(es[0], key) by {
        forall i | 0 <= i < |tail| ensures KeyOf(tail[i], key) <= KeyOf(es[0], key) {
          assert tail[i] == es[i + 1];
        }
      }
      InsertBound(e, tail, key, KeyOf(es[0], key));
      SortedCons(es[0], Insert(e, tail, key), key);
    } else {
      assert forall i :: 0 <= i < |es| ==> KeyOf(es[i], key) <= KeyOf(e, key) by {
        forall i | 0 <= i < |es| ensures KeyOf(es[i], key) <= KeyOf(e, key) {
          assert KeyOf(es[i], key) <= KeyOf(es[0], key);
        }
      }
      SortedCons(e, es, key);
    }
  }

  /** Inserting an entry no higher than a bound into entries no higher than it keeps
      every key below the bound. */
  lemma {:induction false} InsertBound(e: ParlayEntry, es: seq<ParlayEntry>, key: SortKey, b: real)
    requires KeyOf(e, key) <= b
    requires forall i :: 0 <= i < |es| ==> KeyOf(es[i], key) <= b
    ensures |Insert(e, es, key)| == |es| + 1
    ensures forall i :: 0 <= i < |Insert(e, es, key)| ==> KeyOf(Insert(e, es, key)[i], key) <= b
  {
    if es != [] && KeyOf(es[0], key) >= KeyOf(e, key) {
      var tail := es[1..];
      InsertBound(e, tail, key, b);
      var rt := Insert(e, tail, key);
      assert Insert(e, es, key) == [es[0]] + rt;
    }
  }

  /** A head at least as high as every key of a sorted tail gives a sorted sequence. */
  lemma SortedCons(x: ParlayEntry, s: seq<ParlayEntry>, key: SortKey)
    requires SortedDesc(s, key)
    requires forall i :: 0 <= i < |s| ==> KeyOf(s[i], key) <= KeyOf(x, key)
    ensures SortedDesc([x] + s, key)
  {
    var r := [x] + s;
    forall i, j | 0 <= i < j < |r|
      ensures KeyOf(r[i], key) >= KeyOf(r[j], key)
    {
      assert r[j] == s[j - 1];
      if i > 0 {
        assert r[i] == s[i - 1];
      }
    }
  }

  /** Among the entries with `e`'s key, inserting places `e` last; the entries with any
      other key are untouched. */
  lemma {:induction false} InsertWithKey(e: ParlayEntry, es: seq<ParlayEntry>, key: SortKey, v: real)
    requires SortedDesc(es, key)
    ensures WithKey(Insert(e, es, key), key, v)
      == WithKey(es, key, v) + (if KeyOf(e, key) == v then [e] else [])
  {
    var he: seq<ParlayEntry> := if KeyOf(e, key) == v then [e] else [];
    if es == [] {
      WithKeyCons(e, [], key, v);
    } else if KeyOf(es[0], key) < KeyOf(e, key) {
      WithKeyCons(e, es, key, v);
      if KeyOf(e, key) == v {
        BelowHasNoKey(es, key, v);
      }
    } else {
      var tail := es[1..];
      assert SortedDesc(tail, key);
      InsertWithKey(e, tail, key, v);
      var rt := Insert(e, tail, key);
      assert Insert(e, es, key) == [es[0]] + rt;
      WithKeyCons(es[0], rt, key, v);
      WithKeyCons(es[0], tail, key, v);
      assert es == [es[0]] + tail;
      var h0: seq<ParlayEntry> := if KeyOf(es[0], key) == v then [es[0]] else [];
      ConcatAssoc(h0, WithKey(tail, key, v), he);
    }
  }

  /** `WithKey` of a sequence with a given first entry. */
  lemma WithKeyCons(x: ParlayEntry, es: seq<ParlayEntry>, key: SortKey, v: real)
    ensures WithKey([x] + es, key, v) == (if KeyOf(x, key) == v then [x] else []) + WithKey(es, key, v)
  {
    assert ([x] + es)[0] == x;
    assert ([x] + es)[1..] == es;
  }

  /** In a sorted sequence whose first key is below `v`, no entry has key `v`. */
  lemma {:induction false} BelowHasNoKey(es: seq<ParlayEntry>, key: SortKey, v: real)
    requires SortedDesc(es, key)
    requires es != [] ==> KeyOf(es[0], key) < v
    ensures WithKey(es, key, v) == []
  {
    if es != [] {
      assert SortedDesc(es[1..], key);
      BelowHasNoKey(es[1..], key, v);
    }
  }

  /** The sort orders by descending key, keeps every entry, and keeps entries with equal
      keys in their original order. */
  lemma {:induction false} SortDescProperties(es: seq<ParlayEntry>, key: SortKey)
    ensures SortedDesc(SortDesc(es, key), key)
    ensures multiset(SortDesc(es, key)) == multiset(es)
    ensures forall v :: WithKey(SortDesc(es, key), key, v) == WithKey(es, key, v)
  {
    SortDescSorted(es, key);
    SortDescMultiset(es, key);
    forall v ensures WithKey(SortDesc(es, key), key, v) == WithKey(es, key, v) {
      SortDescWithKey(es, key, v);
    }
  }

  lemma {:induction false} SortDescSorted(es: seq<ParlayEntry>, key: SortKey)
    ensures SortedDesc(SortDesc(es, key), key)
  {
    if es != [] {
      SortDescSorted(es[..|es| - 1], key);
      InsertSorted(es[|es| - 1], SortDesc(es[..|es| - 1], key), key);
    }
  }

  lemma {:induction false} SortDescMultiset(es: seq<ParlayEntry>, key: SortKey)
    ensures multiset(SortDesc(es, key)) == multiset(es)
  {
    if es != [] {
      var init, last := es[..|es| - 1], es[|es| - 1];
      SortDescMultiset(init, key);
      InsertMultiset(last, SortDesc(init, key), key);
      assert es == init + [last];
    }
  }

  lemma {:induction false} SortDescWithKey(es: seq<ParlayEntry>, key: SortKey, v: real)
    ensures WithKey(SortDesc(es, key), key, v) == WithKey(es, key, v)
  {
    if es != [] {
      var init, last := es[..|es| - 1], es[|es| - 1];
      SortDescWithKey(init, key, v);
      SortDescSorted(init, key);
      InsertWithKey(last, SortDesc(init, key), key, v);
      assert es == init + [last];
      WithKeyConcat(init, [last], key, v);
      assert WithKey([last], key, v) == (if KeyOf(last, key) == v then [last] else []);
    }
  }


  /** `[p for p in es if p['ev'] > threshold]`. */
  function KeepAbove(es: seq<ParlayEntry>, threshold: real): seq<ParlayEntry>
  {
    if es == [] then []
    else (if es[0].ev > threshold then [es[0]] else []) + KeepAbove(es[1..], threshold)
  }

  /** The filter keeps exactly the entries above the threshold, and keeps their order. */
  lemma {:induction false} KeepAboveProperties(es: seq<ParlayEntry>, threshold: real, key: SortKey)
    ensures forall e :: e in KeepAbove(es, threshold) <==> e in es && e.ev > threshold
    ensures SortedDesc(es, key) ==> SortedDesc(KeepAbove(es, threshold), key)
  {
    forall e
      ensures e in KeepAbove(es, threshold) <==> e in es && e.ev > threshold
    {
      KeepAboveMembers(es, threshold, e);
    }
    if SortedDesc(es, key) {
      KeepAboveSorted(es, threshold, key);
    }
  }

  lemma {:induction false} KeepAboveMembers(es: seq<ParlayEntry>, threshold: real, e: ParlayEntry)
    ensures e in KeepAbove(es, threshold) <==> e in es && e.ev > threshold
  {
    if es != [] {
      KeepAboveMembers(es[1..], threshold, e);
      assert es == [es[0]] + es[1..];
    }
  }

  lemma {:induction false} KeepAboveSorted(es: seq<ParlayEntry>, threshold: real, key: SortKey)
    requires SortedDesc(es, key)
    ensures SortedDesc(KeepAbove(es, threshold), key)
  {
    if es != [] {
      var tail := es[1..];
      assert SortedDesc(tail, key);
      KeepAboveSorted(tail, threshold, key);
      var rt := KeepAbove(tail, threshold);
      if es[0].ev > threshold {
        forall i | 0 <= i < |rt|
          ensures KeyOf(rt[i], key) <= KeyOf(es[0], key)
        {
          KeepAboveMembers(tail, threshold, rt[i]);
          var j :| 0 <= j < |tail| && tail[j] == rt[i];
          assert es[j + 1] == rt[i];
        }
        SortedCons(es[0], rt, key);
      }
    }
  }

  /** The parlay size: `max_matches` when given, else the number of matches. */
  function ParlaySize(matches: seq<Match>, maxMatches: Option<int>): int
  {
    if maxMatches.None? then |matches| else maxMatches.value
  }

  /** The enumeration pipeline, parameterised by sort key and EV threshold:
      combinations of the pool, the fixture test, `calculate_parlay_ev`, the stable sort
      and the filter. A negative size makes `combinations` raise ValueError; size 0 admits
      the empty combination, on which `calculate_parlay_ev` raises TypeError. */
  function RankParlays(matches: seq<Match>, maxMatches: Option<int>, key: SortKey, threshold: real)
    : (r: Result<seq<ParlayEntry>>)
    ensures r.Failure? <==> ParlaySize(matches, maxMatches) <= 0
  {
    var k := ParlaySize(matches, maxMatches);
    if k < 0 then Failure(ValueError("r must be non-negative"))
    else if k == 0 then Failure(TypeError("reduce() of empty iterable with no initial value"))
    else Success(KeepAbove(SortDesc(Candidates(Parlays(Pool(matches), k), k), key), threshold))
  }

  /** The fixtures of the matches. */
  function MatchFixtures(matches: seq<Match>): set<string>
  {
    set i | 0 <= i < |matches| :: matches[i].fixture
  }

  /** The pool holds exactly the fixtures of the matches. */
  lemma PoolFixtures(matches: seq<Match>)
    ensures FixtureSet(Pool(matches)) == MatchFixtures(matches)
  {
    var pool := Pool(matches);
    forall x
      ensures x in FixtureSet(pool) <==> x in MatchFixtures(matches)
    {
      FixtureSetMembers(pool, x);
      if x in FixtureSet(pool) {
        var j :| 0 <= j < |pool| && pool[j].fixture == x;
        PoolAt(matches, j);
        assert matches[j / 3].fixture == x;
      }
      if x in MatchFixtures(matches) {
        var i :| 0 <= i < |matches| && matches[i].fixture == x;
        PoolAt(matches, 3 * i);
        assert (3 * i) / 3 == i && (3 * i) % 3 == 0;
        assert pool[3 * i].fixture == x;
      }
    }
  }

  /** A parlay drawn from the pool uses only fixtures of the pool. */
  lemma SelectFixtures(pool: seq<Outcome>, c: seq<nat>)
    requires forall l :: 0 <= l < |c| ==> c[l] < |pool|
    ensures FixtureSet(Select(pool, c)) <= FixtureSet(pool)
  {
    var parlay := Select(pool, c);
    forall x | x in FixtureSet(parlay)
      ensures x in FixtureSet(pool)
    {
      FixtureSetMembers(parlay, x);
      FixtureSetMembers(pool, x);
      var j :| 0 <= j < |parlay| && parlay[j].fixture == x;
      assert pool[c[j]].fixture == x;
    }
  }

  /** A parlay is generated exactly when it is the selection of some combination. */
  lemma ParlaysMembers(pool: seq<Outcome>, k: nat, p: seq<Outcome>)
    ensures p in Parlays(pool, k) <==>
      exists c :: c in Combinations(0, |pool|, k) && p == Select(pool, c)
  {
    var cs := Combinations(0, |pool|, k);
    var ps := Parlays(pool, k);
    if p in ps {
      var j :| 0 <= j < |ps| && ps[j] == p;
      assert cs[j] in cs && p == Select(pool, cs[j]);
    }
    if exists c :: c in cs && p == Select(pool, c) {
      var c :| c in cs && p == Select(pool, c);
      var j :| 0 <= j < |cs| && cs[j] == c;
      assert ps[j] == p;
    }
  }

  /** Sorting and filtering the candidates keeps exactly the records of admissible
      parlays whose EV is above the threshold. */
  lemma PipelineMembers(ps: seq<seq<Outcome>>, k: nat, key: SortKey, threshold: real, e: ParlayEntry)
    requires k > 0
    ensures e in KeepAbove(SortDesc(Candidates(ps, k), key), threshold) <==>
      e.ev > threshold && exists p :: p in ps && Admissible(p, k) && |p| > 0 && e == MakeEntry(p)
  {
    var candidates := Candidates(ps, k);
    SortDescProperties(candidates, key);
    KeepAboveProperties(SortDesc(candidates, key), threshold, key);
    CandidatesMembers(ps, k, e);
    assert e in SortDesc(candidates, key) <==> e in multiset(SortDesc(candidates, key));
  }

  /** Every parlay generated for size `k` has `k` members. */
  lemma ParlaysSize(pool: seq<Outcome>, k: nat, p: seq<Outcome>)
    requires p in Parlays(pool, k)
    ensures |p| == k
  {
    ParlaysMembers(pool, k, p);
  }

  /** Every ranked entry is the record of a generated `k`-member parlay with pairwise
      distinct fixtures and an EV above the threshold, and the entries are sorted by the
      key, descending. */
  lemma RankSound(matches: seq<Match>, maxMatches: Option<int>, key: SortKey, threshold: real)
    requires RankParlays(matches, maxMatches, key, threshold).Success?
    ensures ParlaySize(matches, maxMatches) > 0
    ensures var es := RankParlays(matches, maxMatches, key, threshold).value;
      SortedDesc(es, key) &&
      forall e :: e in es ==>
        e.ev > threshold && |e.parlay| == ParlaySize(matches, maxMatches) &&
        DistinctFixtures(e.parlay) && e == MakeEntry(e.parlay) &&
        e.parlay in Parlays(Pool(matches), |e.parlay|)
  {
    var k := ParlaySize(matches, maxMatches);
    var pool := Pool(matches);
    var candidates := Candidates(Parlays(pool, k), k);
    var es := RankParlays(matches, maxMatches, key, threshold).value;
    SortDescProperties(candidates, key);
    KeepAboveProperties(SortDesc(candidates, key), threshold, key);
    forall e | e in es
      ensures e.ev > threshold && |e.parlay| == k && DistinctFixtures(e.parlay)
      ensures e == MakeEntry(e.parlay) && e.parlay in Parlays(pool, k)
    {
      PipelineMembers(Parlays(pool, k), k, key, threshold, e);
      var p :| p in Parlays(pool, k) && Admissible(p, k) && |p| > 0 && e == MakeEntry(p);
      ParlaysSize(pool, k, p);
      FixtureSetSize(p);
    }
  }

  /** Every `k`-combination of pool positions whose parlay has pairwise distinct fixtures
      and an EV above the threshold is ranked. */
  lemma RankComplete(matches: seq<Match>, maxMatches: Option<int>, key: SortKey, threshold: real,
                     c: seq<nat>)
    requires RankParlays(matches, maxMatches, key, threshold).Success?
    requires |c| == ParlaySize(matches, maxMatches) && Increasing(c)
    requires forall l :: 0 <= l < |c| ==> c[l] < |Pool(matches)|
    requires DistinctFixtures(Select(Pool(matches), c))
    requires |c| > 0 && MakeEntry(Select(Pool(matches), c)).ev > threshold
    ensures MakeEntry(Select(Pool(matches), c)) in RankParlays(matches, maxMatches, key, threshold).value
  {
    var k := |c|;
    var pool := Pool(matches);
    var p := Select(pool, c);
    assert Choice(c, 0, |pool|, k);
    CombinationsComplete(0, |pool|, k, c);
    ParlaysMembers(pool, k, p);
    assert p in Parlays(pool, k);
    FixtureSetSize(p);
    assert Admissible(p, k);
    PipelineMembers(Parlays(pool, k), k, key, threshold, MakeEntry(p));
    assert RankParlays(matches, maxMatches, key, threshold).value
      == KeepAbove(SortDesc(Candidates(Parlays(pool, k), k), key), threshold);
  }

  /** The filter keeps every copy of an entry above the threshold and no copy of any
      other. */
  lemma {:induction false} KeepAboveCount(es: seq<ParlayEntry>, threshold: real, e: ParlayEntry)
    ensures multiset(KeepAbove(es, threshold))[e] == if e.ev > threshold then multiset(es)[e] else 0
  {
    if es != [] {
      assert es == [es[0]] + es[1..];
      KeepAboveCount(es[1..], threshold, e);
    }
  }

  /** The ranking is a rearrangement of the admissible candidates above the threshold:
      each record is kept as often as the generated parlays produce it, neither dropped
      nor duplicated by the sort. */
  lemma RankPermutation(matches: seq<Match>, maxMatches: Option<int>, key: SortKey, threshold: real)
    requires ParlaySize(matches, maxMatches) > 0
    ensures var k := ParlaySize(matches, maxMatches);
      multiset(RankParlays(matches, maxMatches, key, threshold).value)
        == multiset(KeepAbove(Candidates(Parlays(Pool(matches), k), k), threshold))
  {
    var k := ParlaySize(matches, maxMatches);
    var candidates := Candidates(Parlays(Pool(matches), k), k);
    var sorted := SortDesc(candidates, key);
    SortDescProperties(candidates, key);
    assert RankParlays(matches, maxMatches, key, threshold).value == KeepAbove(sorted, threshold);
    forall e
      ensures multiset(KeepAbove(sorted, threshold))[e] == multiset(KeepAbove(candidates, threshold))[e]
    {
      KeepAboveCount(sorted, threshold, e);
      KeepAboveCount(candidates, threshold, e);
    }
  }

  /** No candidate is recorded when no generated parlay is admissible. */
  lemma {:induction false} CandidatesNone(ps: seq<seq<Outcome>>, k: nat)
    requires k > 0
    requires forall j :: 0 <= j < |ps| ==> !Admissible(ps[j], k)
    ensures Candidates(ps, k) == []
  {
    if ps != [] {
      CandidatesNone(ps[..|ps| - 1], k);
    }
  }

  /** More legs than distinct fixtures leaves nothing to rank. */
  lemma RankEmptyWhenTooFewFixtures(matches: seq<Match>, maxMatches: Option<int>, key: SortKey,
                                    threshold: real)
    requires ParlaySize(matches, maxMatches) > |MatchFixtures(matches)|
    ensures RankParlays(matches, maxMatches, key, threshold) == Success([])
  {
    var k := ParlaySize(matches, maxMatches);
    var pool := Pool(matches);
    var ps := Parlays(pool, k);
    PoolFixtures(matches);
    forall j | 0 <= j < |ps|
      ensures !Admissible(ps[j], k)
    {
      var cs := Combinations(0, |pool|, k);
      SelectFixtures(pool, cs[j]);
      SubsetCardinality(FixtureSet(ps[j]), FixtureSet(pool));
    }
    CandidatesNone(ps, k);
  }

  lemma SubsetCardinality(a: set<string>, b: set<string>)
    requires a <= b
    ensures |a| <= |b|
  {
    assert b == a + (b - a);
  }

  /** `test_all_parlays(matches, max_matches)` of src/ev_calc.py: it fills `all_parlays`
      while walking the combinations, then sorts by EV and keeps the positive ones. */
  method TestAllParlays(matches: seq<Match>, maxMatches: Option<int>)
    returns (r: Result<seq<ParlayEntry>>)
    ensures r == RankParlays(matches, maxMatches, ByEv, 0.0)
    ensures ParlaySize(matches, maxMatches) < 0 <==> r.Failure? && r.error.ValueError?
    ensures ParlaySize(matches, maxMatches) == 0 <==> r.Failure? && r.error.TypeError?
    ensures r.Success? ==> SortedDesc(r.value, ByEv)
    ensures r.Success? ==> forall e :: e in r.value ==>
      e.ev > 0.0 && |e.parlay| == ParlaySize(matches, maxMatches) && DistinctFixtures(e.parlay)
  {
    var pool := Pool(matches);
    var k := if maxMatches.None? then |matches| else maxMatches.value;
    if k < 0 {
      return Failure(ValueError("r must be non-negative"));
    }
    if k == 0 {
      // the single empty combination passes the size test and `reduce` raises on it
      return Failure(TypeError("reduce() of empty iterable with no initial value"));
    }
    var allParlays := CollectCandidates(pool, k);
    var sortedParlays := SortDesc(allParlays, ByEv);
    var filteredParlays := KeepAbove(sortedParlays, 0.0);
    r := Success(filteredParlays);
    RankedByEv(matches, maxMatches);
  }

  /** The loop of `test_all_parlays`: record every combination of `k` pool outcomes
      whose fixtures are pairwise distinct, in the order `combinations` yields them. */
  method CollectCandidates(pool: seq<Outcome>, k: nat) returns (allParlays: seq<ParlayEntry>)
    requires k > 0
    ensures allParlays == Candidates(Parlays(pool, k), k)
  {
    var combos := Combinations(0, |pool|, k);
    ghost var ps := Parlays(pool, k);
    allParlays := [];
    for i := 0 to |combos|
      invariant allParlays == Candidates(ps[..i], k)
    {
      var parlay := Select(pool, combos[i]);
      assert parlay == ps[i];
      CandidatesSnoc(ps, i, k);
      if |FixtureSet(parlay)| == k {
        allParlays := allParlays + [MakeEntry(parlay)];
      }
    }
    assert ps[..|combos|] == ps;
  }

  /** One more loop step appends the record of the next parlay when it is admissible. */
  lemma CandidatesSnoc(ps: seq<seq<Outcome>>, i: nat, k: nat)
    requires k > 0 && i < |ps|
    ensures Candidates(ps[..i + 1], k)
      == Candidates(ps[..i], k) + (if Admissible(ps[i], k) then [MakeEntry(ps[i])] else [])
  {
    assert ps[..i + 1][..i] == ps[..i];
  }

  /** What a successful EV ranking promises, in the terms of the method above. */
  lemma RankedByEv(matches: seq<Match>, maxMatches: Option<int>)
    requires ParlaySize(matches, maxMatches) > 0
    ensures var r := RankParlays(matches, maxMatches, ByEv, 0.0);
      r.Success? && SortedDesc(r.value, ByEv) &&
      forall e :: e in r.value ==>
        e.ev > 0.0 && |e.parlay| == ParlaySize(matches, maxMatches) && DistinctFixtures(e.parlay)
  {
    RankSound(matches, maxMatches, ByEv, 0.0);
  }

  /** The variant in utils/calc_ev_from_prob.py as written: `generate_outcomes` and
      `combinations` are never imported there, so the first of them it evaluates is an
      unbound name. The comprehension evaluates `generate_outcomes` only when there is a
      match. */
  function LegacyTestAllParlays(matches: seq<Match>, maxMatches: Option<int>): (r: Result<seq<ParlayEntry>>)
    ensures r.Failure? && r.error.NameError?
  {
    if |matches| > 0 then Failure(NameError("generate_outcomes")) else Failure(NameError("combinations"))
  }

  /** The calc_ev_from_prob.py variant raises on every call, including every positive
      size at which src/ev_calc.py's ranking succeeds. */
  lemma LegacyAlwaysRaises(matches: seq<Match>, maxMatches: Option<int>)
    ensures LegacyTestAllParlays(matches, maxMatches).Failure?
    ensures ParlaySize(matches, maxMatches) > 0 ==> RankParlays(matches, maxMatches, ByEv, 0.0).Success?
  {
  }

  /** The ranking that variant evidently intends: sorted by metric, descending, keeping
      EV above 0.3. */
  function LegacyRanking(matches: seq<Match>, maxMatches: Option<int>): Result<seq<ParlayEntry>>
  {
    RankParlays(matches, maxMatches, ByMetric, 0.3)
  }

  /** The intended variant returns parlays sorted by metric, each with EV above 0.3 and
      pairwise distinct fixtures. */
  lemma LegacyRankingSound(matches: seq<Match>, maxMatches: Option<int>)
    requires ParlaySize(matches, maxMatches) > 0
    ensures LegacyRanking(matches, maxMatches).Success?
    ensures var es := LegacyRanking(matches, maxMatches).value;
      SortedDesc(es, ByMetric) &&
      forall e :: e in es ==>
        e.ev > 0.3 && e.metric == 0.25 * e.ev + 0.75 * e.finalProbability && DistinctFixtures(e.parlay)
  {
    RankSound(matches, maxMatches, ByMetric, 0.3);
  }
}
