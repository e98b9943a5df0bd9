/** The table-side helpers of src/executor.py: scaling the Kelly risks to a total stake
    and projecting pending bets into the list the bet placer walks through. */
module Executor {
  import opened Wrappers
  import opened Update

  /** Every row carries a de-normalized (Kelly) risk. */
  predicate AllRisked(rows: seq<PendingBet>)
  {
    forall i :: 0 <= i < |rows| ==> rows[i].deNormalizedRisk.Some?
  }

  /** The `de_normalized_risk` column. */
  function Risks(rows: seq<PendingBet>): (xs: seq<real>)
    requires AllRisked(rows)
    ensures |xs| == |rows|
  {
    seq(|rows|, i requires 0 <= i < |rows| => rows[i].deNormalizedRisk.value)
  }

  /** Python's `sum` over a list of numbers, left to right; `np.mean` in utils/get_strata.py
      divides it by the length. */
  function Sum(xs: seq<real>): real
  {
    if xs == [] then 0.0 else Sum(xs[..|xs| - 1]) + xs[|xs| - 1]
  }

  /** A row with its normalized risk set to its de-normalized risk times `multiplier`. */
  function ScaledRow(row: PendingBet, multiplier: real): (r: PendingBet)
    requires row.deNormalizedRisk.Some?
    ensures r.normalizedRisk == Some(row.deNormalizedRisk.value * multiplier)
    ensures r.(normalizedRisk := row.normalizedRisk) == row
  {
    row.(normalizedRisk := Some(row.deNormalizedRisk.value * multiplier))
  }

  /** The `normalized_risk` column of a table whose rows all have one. */
  function NormalizedRisks(rows: seq<PendingBet>): (xs: seq<real>)
    requires forall i :: 0 <= i < |rows| ==> rows[i].normalizedRisk.Some?
    ensures |xs| == |rows|
  {
    seq(|rows|, i requires 0 <= i < |rows| => rows[i].normalizedRisk.value)
  }

  /** `normalize_risk(max_risk, pending_bets)`, in place: with multiplier
      `max_risk / sum(de_normalized_risk)`, every row's normalized risk becomes its
      de-normalized risk times the multiplier; no other cell changes. */
  method NormalizeRisk(maxRisk: real, rows: array<PendingBet>)
    requires AllRisked(rows[..])
    requires Sum(Risks(rows[..])) != 0.0
    modifies rows
    ensures forall i :: 0 <= i < rows.Length ==>
      rows[i] == ScaledRow(old(rows[i]), maxRisk / Sum(Risks(old(rows[..]))))
  {
    var multiplier := maxRisk / Sum(Risks(rows[..]));
    assert multiplier == maxRisk / Sum(Risks(old(rows[..])));
    for idx := 0 to rows.Length
      invariant forall i :: 0 <= i < idx ==> rows[i] == ScaledRow(old(rows[i]), multiplier)
      invariant forall i :: idx <= i < rows.Length ==> rows[i] == old(rows[i])
    {
      rows[idx] := ScaledRow(rows[idx], multiplier);
    }
  }

  /** Scaling every element scales the sum. */
  lemma {:induction false} SumScaled(xs: seq<real>, ys: seq<real>, m: real)
    requires |ys| == |xs| && forall i :: 0 <= i < |xs| ==> ys[i] == xs[i] * m
    ensures Sum(ys) == Sum(xs) * m
  {
    if xs != [] {
      var n := |xs| - 1;
      SumScaled(xs[..n], ys[..n], m);
      assert Sum(ys) == Sum(xs[..n]) * m + xs[n] * m;
    }
  }

  /** A sum of non-negative numbers is at least each of them. */
  lemma {:induction false} SumBounds(xs: seq<real>, k: nat)
    requires k < |xs| && forall i :: 0 <= i < |xs| ==> xs[i] >= 0.0
    ensures 0.0 <= xs[k] <= Sum(xs)
  {
    var n := |xs| - 1;
    SumNonNegative(xs[..n]);
    if k < n {
      SumBounds(xs[..n], k);
    }
  }

  lemma {:induction false} SumNonNegative(xs: seq<real>)
    requires forall i :: 0 <= i < |xs| ==> xs[i] >= 0.0
    ensures Sum(xs) >= 0.0
  {
    if xs != [] {
      SumNonNegative(xs[..|xs| - 1]);
    }
  }

  /** After `normalize_risk` the normalized risks add up to `max_risk`. */
  lemma NormalizedSum(rows: seq<PendingBet>, maxRisk: real)
    requires AllRisked(rows) && Sum(Risks(rows)) != 0.0
    ensures var m := maxRisk / Sum(Risks(rows));
      var scaled := seq(|rows|, i requires 0 <= i < |rows| => ScaledRow(rows[i], m));
      Sum(NormalizedRisks(scaled)) == maxRisk
  {
    var total := Sum(Risks(rows));
    var m := maxRisk / total;
    var scaled := seq(|rows|, i requires 0 <= i < |rows| => ScaledRow(rows[i], m));
    SumScaled(Risks(rows), NormalizedRisks(scaled), m);
    assert total * (maxRisk / total) == maxRisk;
  }

  /** Scaling keeps the proportions between rows and keeps a zero risk at zero. */
  lemma NormalizedProportions(rows: seq<PendingBet>, maxRisk: real, i: nat, j: nat)
    requires AllRisked(rows) && Sum(Risks(rows)) != 0.0
    requires i < |rows| && j < |rows|
    ensures var m := maxRisk / Sum(Risks(rows));
      var ri, rj := ScaledRow(rows[i], m).normalizedRisk.value, ScaledRow(rows[j], m).normalizedRisk.value;
      ri * rows[j].deNormalizedRisk.value == rj * rows[i].deNormalizedRisk.value &&
      (rows[i].deNormalizedRisk.value == 0.0 ==> ri == 0.0)
  {
    var m := maxRisk / Sum(Risks(rows));
    var a, b := rows[i].deNormalizedRisk.value, rows[j].deNormalizedRisk.value;
    assert a * m * b == b * m * a;
  }

  /** With non-negative risks and a non-negative `max_risk`, every normalized risk lies
      between 0 and `max_risk`. */
  lemma NormalizedBounds(rows: seq<PendingBet>, maxRisk: real, i: nat)
    requires AllRisked(rows) && Sum(Risks(rows)) != 0.0 && i < |rows|
    requires maxRisk >= 0.0 && forall k :: 0 <= k < |rows| ==> rows[k].deNormalizedRisk.value >= 0.0
    ensures var r := ScaledRow(rows[i], maxRisk / Sum(Risks(rows))).normalizedRisk.value;
      0.0 <= r <= maxRisk
  {
    var xs := Risks(rows);
    var total := Sum(xs);
    SumBounds(xs, i);
    var m := maxRisk / total;
    assert m >= 0.0;
    var a := xs[i];
    assert a * m <= total * m;
    assert total * m == maxRisk;
  }

  /** One entry of the bet list; absent cells stay `None`. */
  datatype BetSlip = BetSlip(
    homeTeam: string, awayTeam: string, finalProbability: Option<real>, odds: Option<real>,
    initialRisk: Option<real>, bet: Bet)

  /** `row[name]` for the numeric columns of a pending-bets row; any other name raises
      KeyError. The probability columns are `home_win_%`, `draw_%` and `away_win_%`
      (src/update.py:142-144). */
  function Column(row: PendingBet, name: string): (r: Result<Option<real>>)
    ensures r.Failure? ==> r.error == KeyError(name)
  {
    if name == "home_win_%" then Success(Some(row.homeWinProbability))
    else if name == "draw_%" then Success(Some(row.drawProbability))
    else if name == "away_win_%" then Success(Some(row.awayWinProbability))
    else if name == "odds_home" then Success(row.oddsHome)
    else if name == "odds_draw" then Success(row.oddsDraw)
    else if name == "odds_away" then Success(row.oddsAway)
    else Failure(KeyError(name))
  }

  /** The probability column `get_bet_list` reads, as written: `f"{bet}_win_%"`. */
  function ProbabilityKey(bet: Bet): string
  {
    BetName(bet) + "_win_%"
  }

  /** The probability column evidently intended: the one `add_future_matches` writes. */
  function IntendedProbabilityKey(bet: Bet): string
  {
    match bet
    case Home => "home_win_%"
    case Draw => "draw_%"
    case Away => "away_win_%"
  }

  /** The entry for one row, reading the probability from column `key(bet)`. A missing
      bet is formatted as `nan`, whose columns do not exist. */
  function Slip(row: PendingBet, key: Bet -> string): (r: Result<BetSlip>)
    ensures row.bet.None? ==> r.Failure?
    ensures r.Success? ==>
      row.bet.Some? && r.value.bet == row.bet.value &&
      r.value.homeTeam == row.homeTeam && r.value.awayTeam == row.awayTeam &&
      r.value.initialRisk == row.deNormalizedRisk &&
      Column(row, key(r.value.bet)) == Success(r.value.finalProbability)
  {
    match row.bet
    case None => Failure(KeyError("nan_win_%"))
    case Some(b) =>
      match Column(row, key(b))
      case Failure(e) => Failure(e)
      case Success(p) =>
        match Column(row, "odds_" + BetName(b))
        case Failure(e) => Failure(e)
        case Success(o) => Success(BetSlip(row.homeTeam, row.awayTeam, p, o, row.deNormalizedRisk, b))
  }

  /** The entries of a table in row order, or the error of the first row that fails. */
  function Slips(rows: seq<PendingBet>, key: Bet -> string): Result<seq<BetSlip>>
  {
    if rows == [] then Success([])
    else
      match Slips(rows[..|rows| - 1], key)
      case Failure(e) => Failure(e)
      case Success(slips) =>
        match Slip(rows[|rows| - 1], key)
        case Failure(e) => Failure(e)
        case Success(s) => Success(slips + [s])
  }

  /** `get_bet_list(pending_bets)` with the probability column chosen by `key`. */
  method GetBetList(rows: seq<PendingBet>, key: Bet -> string) returns (r: Result<seq<BetSlip>>)
    ensures r == Slips(rows, key)
  {
    var slips := [];
    for i := 0 to |rows|
      invariant Slips(rows[..i], key) == Success(slips)
    {
      assert rows[..i + 1][..i] == rows[..i];
      var slip := Slip(rows[i], key);
      if slip.Failure? {
        SlipsPrefixFailure(rows, i + 1, key);
        return Failure(slip.error);
      }
      slips := slips + [slip.value];
    }
    assert rows[..|rows|] == rows;
    r := Success(slips);
  }

  /** A failing prefix makes the whole table fail with the same error. */
  lemma {:induction false} SlipsPrefixFailure(rows: seq<PendingBet>, n: nat, key: Bet -> string)
    requires n <= |rows| && Slips(rows[..n], key).Failure?
    ensures Slips(rows, key) == Slips(rows[..n], key)
    decreases |rows| - n
  {
    if n < |rows| {
      assert rows[..n + 1][..n] == rows[..n];
      SlipsPrefixFailure(rows, n + 1, key);
    } else {
      assert rows[..n] == rows;
    }
  }

  /** As written, a row backing the draw fails: `draw_win_%` is not a column. */
  lemma DrawSlipFails(row: PendingBet)
    requires row.bet == Some(Draw)
    ensures Slip(row, ProbabilityKey) == Failure(KeyError("draw_win_%"))
  {
    assert ProbabilityKey(Draw) == "draw_win_%";
  }

  /** As written, the whole list fails as soon as one row backs the draw (and the rows
      before it have their bet). */
  lemma {:induction false} DrawBetListFails(rows: seq<PendingBet>, k: nat)
    requires k < |rows| && rows[k].bet == Some(Draw)
    requires forall i :: 0 <= i < k ==> rows[i].bet.Some?
    ensures Slips(rows, ProbabilityKey).Failure?
  {
    if Slips(rows[..k], ProbabilityKey).Failure? {
      SlipsPrefixFailure(rows, k, ProbabilityKey);
    } else {
      assert rows[..k + 1][..k] == rows[..k];
      DrawSlipFails(rows[k]);
      SlipsPrefixFailure(rows, k + 1, ProbabilityKey);
    }
  }

  /** With the intended columns every row that has a bet yields its entry: the teams, the
      probability of the backed side, its odds and the de-normalized risk. */
  lemma IntendedSlip(row: PendingBet)
    requires row.bet.Some?
    ensures var s := Slip(row, IntendedProbabilityKey);
      s.Success? &&
      s.value == BetSlip(row.homeTeam, row.awayTeam, Some(Probabilities(row).At(row.bet.value)),
                         BetOdds(row, row.bet.value), row.deNormalizedRisk, row.bet.value)
  {
    match row.bet.value
    case Home =>
      assert "odds_" + BetName(Home) == "odds_home";
    case Draw =>
      assert "odds_" + BetName(Draw) == "odds_draw";
    case Away =>
      assert "odds_" + BetName(Away) == "odds_away";
  }

  /** The odds cell of the backed side. */
  function BetOdds(row: PendingBet, bet: Bet): Option<real>
  {
    match bet
    case Home => row.oddsHome
    case Draw => row.oddsDraw
    case Away => row.oddsAway
  }

  /** A table whose rows all yield an entry yields one entry per row, in row order. */
  lemma {:induction false} SlipsAllSucceed(rows: seq<PendingBet>, key: Bet -> string)
    requires forall i :: 0 <= i < |rows| ==> Slip(rows[i], key).Success?
    ensures Slips(rows, key).Success? && |Slips(rows, key).value| == |rows|
    ensures forall i :: 0 <= i < |rows| ==> Slips(rows, key).value[i] == Slip(rows[i], key).value
  {
    if rows != [] {
      var init := rows[..|rows| - 1];
      assert forall i :: 0 <= i < |init| ==> init[i] == rows[i];
      SlipsAllSucceed(init, key);
      var slips := Slips(init, key).value;
      var last := Slip(rows[|rows| - 1], key).value;
      assert Slips(rows, key) == Success(slips + [last]);
      forall i | 0 <= i < |rows|
        ensures (slips + [last])[i] == Slip(rows[i], key).value
      {
        if i < |init| {
          assert (slips + [last])[i] == slips[i];
        }
      }
    }
  }

  /** With the intended columns a table whose rows all have a bet yields one entry per
      row, in row order, each holding the probability and odds of its backed side. */
  lemma IntendedBetList(rows: seq<PendingBet>)
    requires forall i :: 0 <= i < |rows| ==> rows[i].bet.Some?
    ensures var r := Slips(rows, IntendedProbabilityKey);
      r.Success? && |r.value| == |rows| &&
      forall i :: 0 <= i < |rows| ==>
        r.value[i].finalProbability == Some(Probabilities(rows[i]).At(rows[i].bet.value)) &&
        r.value[i].odds == BetOdds(rows[i], rows[i].bet.value) &&
        r.value[i].bet == rows[i].bet.value
  {
    forall i | 0 <= i < |rows|
      ensures Slip(rows[i], IntendedProbabilityKey).Success?
    {
      IntendedSlip(rows[i]);
    }
    SlipsAllSucceed(rows, IntendedProbabilityKey);
    forall i | 0 <= i < |rows|
      ensures var s := Slips(rows, IntendedProbabilityKey).value[i];
        s.finalProbability == Some(Probabilities(rows[i]).At(rows[i].bet.value)) &&
        s.odds == BetOdds(rows[i], rows[i].bet.value) && s.bet == rows[i].bet.value
    {
      IntendedSlip(rows[i]);
    }
  }
}
