/** The pending-bets bookkeeping of src/update.py: EV and Kelly risk per fixture, the
    settlement rule, the team-name aliases and percent parsing of new fixtures, and the
    odds update. */
module Update {
  import opened Wrappers
  import opened Strings
  import SingleEv

  /** The side a pending bet backs. */
  datatype Bet = Home | Draw | Away

  /** The value stored in the `bet` column. */
  function BetName(b: Bet): string
  {
    match b
    case Home => "home"
    case Draw => "draw"
    case Away => "away"
  }

  /** A home/draw/away triple of numbers (probabilities, odds or EVs). */
  datatype Triple = Triple(home: real, draw: real, away: real)
  {
    function At(b: Bet): real
    {
      match b
      case Home => home
      case Draw => draw
      case Away => away
    }
  }

  /** One row of the pending-bets table; absent cells are `None`. */
  datatype PendingBet = PendingBet(
    date: string, league: string, homeTeam: string, awayTeam: string,
    homeWinProbability: real, drawProbability: real, awayWinProbability: real,
    oddsHome: Option<real>, oddsDraw: Option<real>, oddsAway: Option<real>,
    ev: Option<real>, bet: Option<Bet>,
    deNormalizedRisk: Option<real>, normalizedRisk: Option<real>)

  /** `calculate_ev` of src/update.py: the same expected value as utils/calc_ev_outcome.py. */
  function CalculateEv(prob: real, odds: real): (ev: real)
    ensures ev == SingleEv.CalculateEv(prob, odds)
  {
    prob * (odds - 1.0) - (1.0 - prob)
  }

  /** Python's `max(a, b, c)`. */
  function Max3(a: real, b: real, c: real): (m: real)
    ensures m >= a && m >= b && m >= c
    ensures m == a || m == b || m == c
  {
    var ab := if b > a then b else a;
    if c > ab then c else ab
  }

  /** What `calc_ev_risk` writes for one row: the best EV, the side and the risk. */
  datatype Decision = Decision(ev: real, bet: Bet, risk: real)

  /** The EVs of the three sides. */
  function Evs(p: Triple, o: Triple): Triple
  {
    Triple(CalculateEv(p.home, o.home), CalculateEv(p.draw, o.draw), CalculateEv(p.away, o.away))
  }

  /** The body of the `calc_ev_risk` loop for probabilities `p`, odds `o` and a balance. */
  function Decide(p: Triple, o: Triple, balance: real): (d: Decision)
    ensures d.risk != 0.0 ==> d.ev > 0.0
  {
    var evs := Evs(p, o);
    var best := Max3(evs.home, evs.draw, evs.away);
    var risk :=
      if best == evs.home && evs.home > 0.0 then balance * SingleEv.Kelly(p.home, Some(o.home), 1.0)
      else if best == evs.draw && evs.draw > 0.0 then balance * SingleEv.Kelly(p.draw, Some(o.draw), 1.0)
      else if best == evs.away && evs.away > 0.0 then balance * SingleEv.Kelly(p.away, Some(o.away), 1.0)
      else 0.0;
    var bet := if best == evs.home then Home else if best == evs.draw then Draw else Away;
    Decision(best, bet, risk)
  }

  /** The stored EV is the largest of the three, and the side is the first of home, draw,
      away whose EV reaches it. */
  lemma DecideBet(p: Triple, o: Triple, balance: real)
    ensures var d, evs := Decide(p, o, balance), Evs(p, o);
      d.ev >= evs.home && d.ev >= evs.draw && d.ev >= evs.away &&
      d.ev == evs.At(d.bet) &&
      (d.bet == Home <==> evs.home == d.ev) &&
      (d.bet == Draw <==> evs.home != d.ev && evs.draw == d.ev) &&
      (d.bet == Away <==> evs.home != d.ev && evs.draw != d.ev)
  {
  }

  /** The risk is the balance times the full Kelly fraction of the chosen side when its EV
      is positive, and 0 otherwise. */
  lemma DecideRisk(p: Triple, o: Triple, balance: real)
    ensures var d := Decide(p, o, balance);
      o.At(d.bet) != 0.0 || d.ev <= 0.0
    ensures var d := Decide(p, o, balance);
      d.risk == if d.ev > 0.0 then balance * SingleEv.Kelly(p.At(d.bet), Some(o.At(d.bet)), 1.0) else 0.0
  {
    var evs := Evs(p, o);
    var best := Max3(evs.home, evs.draw, evs.away);
    var bet := if best == evs.home then Home else if best == evs.draw then Draw else Away;
    assert bet == Decide(p, o, balance).bet && best == Decide(p, o, balance).ev;
    assert evs.At(bet) == best;
  }

  /** With probabilities that are not negative and a positive balance, a positive EV gets
      a strictly positive risk, and only a positive EV gets any risk. */
  lemma DecideRiskPositive(p: Triple, o: Triple, balance: real)
    requires p.home >= 0.0 && p.draw >= 0.0 && p.away >= 0.0 && balance > 0.0
    ensures Decide(p, o, balance).risk > 0.0 <==> Decide(p, o, balance).ev > 0.0
  {
    var d := Decide(p, o, balance);
    DecideRisk(p, o, balance);
    if d.ev > 0.0 {
      var b := d.bet;
      DecideBet(p, o, balance);
      SingleEv.KellyPositiveWhenEvPositive(p.At(b), o.At(b), 1.0);
      var k := SingleEv.Kelly(p.At(b), Some(o.At(b)), 1.0);
      assert balance * k > 0.0;
    }
  }

  /** A row whose odds were all filled with 0 gets EV -1, the home side and no risk. */
  lemma DecideAllZeroOdds(p: Triple, balance: real)
    ensures Decide(p, Triple(0.0, 0.0, 0.0), balance) == Decision(-1.0, Home, 0.0)
  {
    SingleEv.EvAtZeroOdds(p.home);
    SingleEv.EvAtZeroOdds(p.draw);
    SingleEv.EvAtZeroOdds(p.away);
  }

  /** A row whose three odds are present. */
  predicate HasOdds(row: PendingBet)
  {
    row.oddsHome.Some? && row.oddsDraw.Some? && row.oddsAway.Some?
  }

  function Probabilities(row: PendingBet): Triple
  {
    Triple(row.homeWinProbability, row.drawProbability, row.awayWinProbability)
  }

  function Odds(row: PendingBet): Triple
    requires HasOdds(row)
  {
    Triple(row.oddsHome.value, row.oddsDraw.value, row.oddsAway.value)
  }

  /** The row after `calc_ev_risk`: `ev`, `bet` and `de_normalized_risk` written,
      everything else as before. */
  function EvRiskRow(row: PendingBet, balance: real): (r: PendingBet)
    requires HasOdds(row)
    ensures HasOdds(r) && Odds(r) == Odds(row) && Probabilities(r) == Probabilities(row)
  {
    var d := Decide(Probabilities(row), Odds(row), balance);
    row.(ev := Some(d.ev), bet := Some(d.bet), deNormalizedRisk := Some(d.risk))
  }

  /** `calc_ev_risk(pending_bets, current_balance)`, row by row in place. */
  method CalcEvRisk(rows: array<PendingBet>, balance: real)
    requires forall i :: 0 <= i < rows.Length ==> HasOdds(rows[i])
    modifies rows
    ensures forall i :: 0 <= i < rows.Length ==> rows[i] == EvRiskRow(old(rows[i]), balance)
  {
    for idx := 0 to rows.Length
      invariant forall i :: 0 <= i < idx ==> rows[i] == EvRiskRow(old(rows[i]), balance)
      invariant forall i :: idx <= i < rows.Length ==> rows[i] == old(rows[i])
    {
      var row := rows[idx];
      var pHome, pDraw, pAway := row.homeWinProbability, row.drawProbability, row.awayWinProbability;
      var oddsHome, oddsDraw, oddsAway := row.oddsHome.value, row.oddsDraw.value, row.oddsAway.value;
      var evHome := CalculateEv(pHome, oddsHome);
      var evDraw := CalculateEv(pDraw, oddsDraw);
      var evAway := CalculateEv(pAway, oddsAway);
      var bestBet := Max3(evHome, evDraw, evAway);
      var risk;
      if bestBet == evHome && evHome > 0.0 {
        risk := balance * SingleEv.Kelly(pHome, Some(oddsHome), 1.0);
      } else if bestBet == evDraw && evDraw > 0.0 {
        risk := balance * SingleEv.Kelly(pDraw, Some(oddsDraw), 1.0);
      } else if bestBet == evAway && evAway > 0.0 {
        risk := balance * SingleEv.Kelly(pAway, Some(oddsAway), 1.0);
      } else {
        risk := 0.0;
      }
      var bet;
      if bestBet == evHome {
        bet := Home;
      } else if bestBet == evDraw {
        bet := Draw;
      } else {
        bet := Away;
      }
      assert Decision(bestBet, bet, risk) == Decide(Probabilities(row), Odds(row), balance);
      rows[idx] := row.(deNormalizedRisk := Some(risk), ev := Some(bestBet), bet := Some(bet));
    }
  }

  /** After `calc_ev_risk` every row has an EV, a side and a risk, the risk is positive
      exactly when the EV is (for non-negative probabilities and a positive balance). */
  lemma EvRiskRowRisk(row: PendingBet, balance: real)
    requires HasOdds(row) && balance > 0.0
    requires row.homeWinProbability >= 0.0 && row.drawProbability >= 0.0 && row.awayWinProbability >= 0.0
    ensures var r := EvRiskRow(row, balance);
      r.ev.Some? && r.bet.Some? && r.deNormalizedRisk.Some? &&
      (r.deNormalizedRisk.value > 0.0 <==> r.ev.value > 0.0)
  {
    DecideRiskPositive(Probabilities(row), Odds(row), balance);
  }

  /** The settlement lambda of `calc_past_results` as written: a won bet records its
      normalized risk times its odds, a lost bet minus its normalized risk. */
  function SettlementProfit(normalizedRisk: real, bet: Bet, outcome: string, odds: Triple): (profit: real)
    ensures BetName(bet) != outcome ==> profit == -normalizedRisk
    ensures BetName(bet) == outcome && normalizedRisk >= 0.0 && odds.At(bet) >= 1.0 ==> profit >= normalizedRisk
  {
    if BetName(bet) == outcome then normalizedRisk * odds.At(bet) else -normalizedRisk
  }

  /** The net profit the EV arithmetic of the project uses: a won bet gains its stake
      times `odds - 1`, a lost one loses its stake. */
  function NetProfit(normalizedRisk: real, bet: Bet, outcome: string, odds: Triple): real
  {
    if BetName(bet) == outcome then normalizedRisk * (odds.At(bet) - 1.0) else -normalizedRisk
  }

  /** A win is recorded with the whole payout, one stake more than the net gain; losses
      agree. */
  lemma SettlementCountsStake(normalizedRisk: real, bet: Bet, outcome: string, odds: Triple)
    ensures BetName(bet) == outcome ==>
      SettlementProfit(normalizedRisk, bet, outcome, odds) == NetProfit(normalizedRisk, bet, outcome, odds) + normalizedRisk
    ensures BetName(bet) != outcome ==>
      SettlementProfit(normalizedRisk, bet, outcome, odds) == NetProfit(normalizedRisk, bet, outcome, odds)
  {
  }

  /** A home bet of 10 at odds 2.0 that wins is recorded as a profit of 20, while it
      gains 10. */
  lemma SettlementExample()
    ensures SettlementProfit(10.0, Home, "home", Triple(2.0, 3.4, 3.9)) == 20.0
    ensures NetProfit(10.0, Home, "home", Triple(2.0, 3.4, 3.9)) == 10.0
  {
  }

  /** Averaged over a win with probability `p` and a loss, the net profit is the stake
      times the EV, whereas the recorded profit exceeds that by the stake times `p`. */
  lemma ExpectedProfit(normalizedRisk: real, bet: Bet, p: real, odds: Triple, lost: string)
    requires lost != BetName(bet)
    ensures p * NetProfit(normalizedRisk, bet, BetName(bet), odds) + (1.0 - p) * NetProfit(normalizedRisk, bet, lost, odds)
      == normalizedRisk * CalculateEv(p, odds.At(bet))
    ensures p * SettlementProfit(normalizedRisk, bet, BetName(bet), odds) + (1.0 - p) * SettlementProfit(normalizedRisk, bet, lost, odds)
      == normalizedRisk * (CalculateEv(p, odds.At(bet)) + p)
  {
    var o := odds.At(bet);
    assert p * (normalizedRisk * (o - 1.0)) + (1.0 - p) * -normalizedRisk
      == normalizedRisk * (p * (o - 1.0) - (1.0 - p));
    assert p * (normalizedRisk * o) + (1.0 - p) * -normalizedRisk
      == normalizedRisk * (p * (o - 1.0) - (1.0 - p) + p);
  }

  /** One alias block of `add_future_matches`: a scraped name and the names it becomes on
      the home and on the away side. */
  datatype Alias = Alias(key: string, homeValue: string, awayValue: string)

  /** The eleven alias blocks in source order, as written: the away side of 'Athletic
      Club' is spelled 'Atheltic Bilbao'. */
  const AliasBlocks: seq<Alias> := [
    Alias("QPR", "Queens Park Rangers", "Queens Park Rangers"),
    Alias("Man Utd", "Manchester United", "Manchester United"),
    Alias("Grimsby", "Grimsby Town", "Grimsby Town"),
    Alias("Notts", "Notts County", "Notts County"),
    Alias("Birmingham", "Birmingham City", "Birmingham City"),
    Alias("Sheff Utd", "Sheffield United", "Sheffield United"),
    Alias("Cambridge Utd", "Cambridge United", "Cambridge United"),
    Alias("Bodø/Glimt", "Bodo", "Bodo"),
    Alias("Olympiakos", "Olympiacos Piraeus", "Olympiacos Piraeus"),
    Alias("Athletic Club", "Athletic Bilbao", "Atheltic Bilbao"),
    Alias("Roma", "AS Roma", "AS Roma")
  ]

  /** The same blocks as evidently intended: both sides of 'Athletic Club' become
      'Athletic Bilbao'. */
  const IntendedAliasBlocks: seq<Alias> := AliasBlocks[9 := Alias("Athletic Club", "Athletic Bilbao", "Athletic Bilbao")]

  /** No two blocks test the same name. */
  predicate KeysDistinct(blocks: seq<Alias>)
  {
    forall i, j :: 0 <= i < j < |blocks| ==> blocks[i].key != blocks[j].key
  }

  /** No replacement name is itself the key of a block, so a renamed team is never renamed
      again. */
  predicate ValuesNotKeys(blocks: seq<Alias>)
  {
    forall i, j :: 0 <= i < |blocks| && 0 <= j < |blocks| ==>
      blocks[i].homeValue != blocks[j].key && blocks[i].awayValue != blocks[j].key
  }

  /** The first block testing `name`, if any. */
  function Lookup(blocks: seq<Alias>, name: string): (r: Option<Alias>)
    ensures r.Some? ==> r.value in blocks && r.value.key == name
    ensures r.None? <==> forall a :: a in blocks ==> a.key != name
  {
    if blocks == [] then None
    else if blocks[0].key == name then Some(blocks[0])
    else Lookup(blocks[1..], name)
  }

  /** The name the blocks give a home team. */
  function HomeAlias(blocks: seq<Alias>, name: string): string
  {
    match Lookup(blocks, name)
    case None => name
    case Some(a) => a.homeValue
  }

  /** The name the blocks give an away team. */
  function AwayAlias(blocks: seq<Alias>, name: string): string
  {
    match Lookup(blocks, name)
    case None => name
    case Some(a) => a.awayValue
  }

  /** The blocks as written are well formed. */
  lemma AliasKeysDistinct()
    ensures KeysDistinct(AliasBlocks)
  {
  }

  lemma AliasHomeValuesNotKeys()
    ensures forall i, j :: 0 <= i < |AliasBlocks| && 0 <= j < |AliasBlocks| ==>
      AliasBlocks[i].homeValue != AliasBlocks[j].key
  {
  }

  lemma AliasAwayValuesNotKeys()
    ensures forall i, j :: 0 <= i < |AliasBlocks| && 0 <= j < |AliasBlocks| ==>
      AliasBlocks[i].awayValue != AliasBlocks[j].key
  {
  }

  lemma AliasBlocksWellFormed()
    ensures KeysDistinct(AliasBlocks) && ValuesNotKeys(AliasBlocks)
    ensures KeysDistinct(IntendedAliasBlocks) && ValuesNotKeys(IntendedAliasBlocks)
  {
    AliasKeysDistinct();
    AliasHomeValuesNotKeys();
    AliasAwayValuesNotKeys();
    assert IntendedAliasBlocks[9].awayValue == "Athletic Bilbao";
  }

  /** As written, the home and the away side of 'Athletic Club' get different names. */
  lemma AliasSidesDiffer()
    ensures HomeAlias(AliasBlocks, "Athletic Club") == "Athletic Bilbao"
    ensures AwayAlias(AliasBlocks, "Athletic Club") == "Atheltic Bilbao"
  {
    var l := Lookup(AliasBlocks, "Athletic Club");
    assert AliasBlocks[9].key == "Athletic Club";
    AliasKeysDistinct();
    assert l.value == AliasBlocks[9];
  }

  /** Blocks whose two sides agree wherever they test `name` give `name` the same alias
      on both sides. */
  lemma SidesAgreeOn(blocks: seq<Alias>, name: string)
    requires forall a :: a in blocks && a.key == name ==> a.awayValue == a.homeValue
    ensures AwayAlias(blocks, name) == HomeAlias(blocks, name)
  {
  }

  /** As written, every name other than 'Athletic Club' gets the same alias on both
      sides. */
  lemma AliasSidesAgreeElsewhere(name: string)
    requires name != "Athletic Club"
    ensures AwayAlias(AliasBlocks, name) == HomeAlias(AliasBlocks, name)
  {
    assert forall i :: 0 <= i < |AliasBlocks| && AliasBlocks[i].key != "Athletic Club" ==>
      AliasBlocks[i].awayValue == AliasBlocks[i].homeValue;
    SidesAgreeOn(AliasBlocks, name);
  }

  /** With the intended blocks both sides get the same name. */
  lemma IntendedAliasSidesAgree(name: string)
    ensures AwayAlias(IntendedAliasBlocks, name) == HomeAlias(IntendedAliasBlocks, name)
  {
    assert forall i :: 0 <= i < |IntendedAliasBlocks| ==>
      IntendedAliasBlocks[i].awayValue == IntendedAliasBlocks[i].homeValue;
    SidesAgreeOn(IntendedAliasBlocks, name);
  }

  /** A home and an away team name. */
  datatype Teams = Teams(home: string, away: string)

  /** One alias block: the home name is replaced when it is the block's name; otherwise
      the away name is, when it is. */
  function AliasStep(t: Teams, a: Alias): Teams
  {
    Teams(if t.home == a.key then a.homeValue else t.home,
          if t.home != a.key && t.away == a.key then a.awayValue else t.away)
  }

  /** The blocks applied one after another. */
  function RunBlocks(t: Teams, blocks: seq<Alias>): Teams
  {
    if blocks == [] then t
    else AliasStep(RunBlocks(t, blocks[..|blocks| - 1]), blocks[|blocks| - 1])
  }

  lemma {:induction false} LookupExtend(blocks: seq<Alias>, b: Alias, name: string)
    ensures Lookup(blocks + [b], name) ==
      if Lookup(blocks, name).Some? then Lookup(blocks, name)
      else if b.key == name then Some(b) else None
  {
    if blocks != [] {
      assert (blocks + [b])[1..] == blocks[1..] + [b];
      LookupExtend(blocks[1..], b, name);
    }
  }

  /** Running well-formed blocks gives the home team its home alias. */
  lemma {:induction false} RunBlocksHome(t: Teams, blocks: seq<Alias>)
    requires ValuesNotKeys(blocks)
    ensures RunBlocks(t, blocks).home == HomeAlias(blocks, t.home)
  {
    if blocks != [] {
      var init, b := blocks[..|blocks| - 1], blocks[|blocks| - 1];
      assert blocks == init + [b];
      assert ValuesNotKeys(init);
      RunBlocksHome(t, init);
      LookupExtend(init, b, t.home);
      var l := Lookup(init, t.home);
      if l.Some? {
        assert l.value in blocks;
      }
    }
  }

  /** Running well-formed blocks gives the away team its away alias, except that an away
      name equal to the home name is left alone: each block tests the home side first. */
  lemma {:induction false} RunBlocksAway(t: Teams, blocks: seq<Alias>)
    requires KeysDistinct(blocks) && ValuesNotKeys(blocks)
    ensures RunBlocks(t, blocks).away ==
      if t.away == t.home then t.away else AwayAlias(blocks, t.away)
  {
    if blocks != [] {
      var init, b := blocks[..|blocks| - 1], blocks[|blocks| - 1];
      assert blocks == init + [b];
      assert ValuesNotKeys(init);
      assert KeysDistinct(init);
      RunBlocksAway(t, init);
      RunBlocksHome(t, init);
      LookupExtend(init, b, t.away);
      LookupExtend(init, b, t.home);
      var la, lh := Lookup(init, t.away), Lookup(init, t.home);
      if la.Some? {
        assert la.value in blocks;
      }
      if lh.Some? {
        assert lh.value in blocks;
      }
    }
  }

  /** The alias blocks of `add_future_matches`, in order. */
  method NormaliseTeams(home: string, away: string, blocks: seq<Alias>)
    returns (homeTeam: string, awayTeam: string)
    requires KeysDistinct(blocks) && ValuesNotKeys(blocks)
    ensures homeTeam == HomeAlias(blocks, home)
    ensures awayTeam == if away == home then away else AwayAlias(blocks, away)
  {
    homeTeam, awayTeam := home, away;
    for i := 0 to |blocks|
      invariant Teams(homeTeam, awayTeam) == RunBlocks(Teams(home, away), blocks[..i])
    {
      assert blocks[..i + 1][..i] == blocks[..i];
      var a := blocks[i];
      if homeTeam == a.key {
        homeTeam := a.homeValue;
      } else if awayTeam == a.key {
        awayTeam := a.awayValue;
      }
    }
    assert blocks[..|blocks|] == blocks;
    RunBlocksHome(Teams(home, away), blocks);
    RunBlocksAway(Teams(home, away), blocks);
  }

  /** `float(str(x.replace("%", ""))) / 100`: a percentage string as a fraction. Python's
      `float` is the parameter `parseFloat`; text it rejects raises ValueError. */
  function ParsePercent(text: string, parseFloat: string -> Option<real>): (r: Result<real>)
    ensures r.Failure? <==> parseFloat(RemoveAll(text, '%')).None?
    ensures r.Failure? ==> r.error.ValueError?
    ensures r.Success? ==> r.value * 100.0 == parseFloat(RemoveAll(text, '%')).value
  {
    var digits := RemoveAll(text, '%');
    match parseFloat(digits)
    case None => Failure(ValueError("could not convert string to float: " + digits))
    case Some(x) => Success(x / 100.0)
  }

  /** Only the characters other than '%' matter, wherever the signs stand. */
  lemma ParsePercentIgnoresSigns(text: string, other: string, parseFloat: string -> Option<real>)
    requires RemoveAll(text, '%') == RemoveAll(other, '%')
    ensures ParsePercent(text, parseFloat) == ParsePercent(other, parseFloat)
  {
  }

  /** A trailing '%' is ignored; so is a second one. */
  lemma ParsePercentTrailingSign(text: string, parseFloat: string -> Option<real>)
    ensures ParsePercent(text + "%", parseFloat) == ParsePercent(text, parseFloat)
    ensures ParsePercent(RemoveAll(text, '%') + "%", parseFloat) == ParsePercent(text, parseFloat)
  {
    var digits := RemoveAll(text, '%');
    assert RemoveAll("%", '%') == [] by {
      assert "%"[1..] == [];
    }
    RemoveAllConcat(text, "%", '%');
    assert digits + [] == digits;
    ParsePercentIgnoresSigns(text + "%", text, parseFloat);
    RemoveAllConcat(digits, "%", '%');
    RemoveAllIdempotent(text, '%');
    ParsePercentIgnoresSigns(digits + "%", text, parseFloat);
  }

  /** One fixture as the scraper delivers it: names as scraped and the three
      probabilities as percentage strings. */
  datatype FutureMatch = FutureMatch(
    date: string, league: string, homeTeam: string, awayTeam: string,
    homeWinProbability: string, drawProbability: string, awayWinProbability: string)

  /** A row that has not been priced yet: odds, EV, side and risks absent. */
  predicate Unpriced(row: PendingBet)
  {
    row.oddsHome.None? && row.oddsDraw.None? && row.oddsAway.None? &&
    row.ev.None? && row.bet.None? && row.deNormalizedRisk.None? && row.normalizedRisk.None?
  }

  /** The `new_row` that `add_future_matches` builds for one fixture, or the ValueError of
      the first probability (home, draw, away) that does not parse. */
  function FutureRow(m: FutureMatch, parseFloat: string -> Option<real>): (r: Result<PendingBet>)
    ensures r.Success? ==> Unpriced(r.value) && r.value.date == m.date && r.value.league == m.league
  {
    var homeTeam := HomeAlias(AliasBlocks, m.homeTeam);
    var awayTeam := if m.awayTeam == m.homeTeam then m.awayTeam else AwayAlias(AliasBlocks, m.awayTeam);
    match ParsePercent(m.homeWinProbability, parseFloat)
    case Failure(e) => Failure(e)
    case Success(pHome) =>
      match ParsePercent(m.drawProbability, parseFloat)
      case Failure(e) => Failure(e)
      case Success(pDraw) =>
        match ParsePercent(m.awayWinProbability, parseFloat)
        case Failure(e) => Failure(e)
        case Success(pAway) =>
          Success(PendingBet(m.date, m.league, homeTeam, awayTeam, pHome, pDraw, pAway,
                             None, None, None, None, None, None, None))
  }

  /** The rows of a list of fixtures, or the error of the first fixture that fails. */
  function FutureRows(ms: seq<FutureMatch>, parseFloat: string -> Option<real>): Result<seq<PendingBet>>
  {
    if ms == [] then Success([])
    else
      match FutureRows(ms[..|ms| - 1], parseFloat)
      case Failure(e) => Failure(e)
      case Success(rows) =>
        match FutureRow(ms[|ms| - 1], parseFloat)
        case Failure(e) => Failure(e)
        case Success(row) => Success(rows + [row])
  }

  /** The rows of a list of fixtures, when every fixture parses. */
  lemma {:induction false} FutureRowsAllSucceed(ms: seq<FutureMatch>, parseFloat: string -> Option<real>)
    requires forall i :: 0 <= i < |ms| ==> FutureRow(ms[i], parseFloat).Success?
    ensures FutureRows(ms, parseFloat).Success?
    ensures |FutureRows(ms, parseFloat).value| == |ms|
    ensures forall i :: 0 <= i < |ms| ==> FutureRows(ms, parseFloat).value[i] == FutureRow(ms[i], parseFloat).value
  {
    if ms != [] {
      var init := ms[..|ms| - 1];
      assert forall i :: 0 <= i < |init| ==> init[i] == ms[i];
      FutureRowsAllSucceed(init, parseFloat);
      var rows := FutureRows(init, parseFloat).value;
      var row := FutureRow(ms[|ms| - 1], parseFloat).value;
      assert FutureRows(ms, parseFloat) == Success(rows + [row]);
      forall i | 0 <= i < |ms|
        ensures (rows + [row])[i] == FutureRow(ms[i], parseFloat).value
      {
        if i < |init| {
          assert (rows + [row])[i] == rows[i];
        }
      }
    }
  }

  /** A list of fixtures parses only when every fixture does. */
  lemma {:induction false} FutureRowsSucceedOnlyIfAll(ms: seq<FutureMatch>, parseFloat: string -> Option<real>, k: nat)
    requires k < |ms| && FutureRows(ms, parseFloat).Success?
    ensures FutureRow(ms[k], parseFloat).Success?
  {
    var init := ms[..|ms| - 1];
    if k < |ms| - 1 {
      assert init[k] == ms[k];
      FutureRowsSucceedOnlyIfAll(init, parseFloat, k);
    }
  }

  /** On success there is one row per fixture, in fixture order. */
  lemma FutureRowsSuccess(ms: seq<FutureMatch>, parseFloat: string -> Option<real>)
    ensures FutureRows(ms, parseFloat).Success? <==>
      forall i :: 0 <= i < |ms| ==> FutureRow(ms[i], parseFloat).Success?
    ensures FutureRows(ms, parseFloat).Success? ==>
      var rows := FutureRows(ms, parseFloat).value;
      |rows| == |ms| && forall i :: 0 <= i < |ms| ==> rows[i] == FutureRow(ms[i], parseFloat).value
  {
    if FutureRows(ms, parseFloat).Success? {
      forall i | 0 <= i < |ms|
        ensures FutureRow(ms[i], parseFloat).Success?
      {
        FutureRowsSucceedOnlyIfAll(ms, parseFloat, i);
      }
      FutureRowsAllSucceed(ms, parseFloat);
    } else if forall i :: 0 <= i < |ms| ==> FutureRow(ms[i], parseFloat).Success? {
      FutureRowsAllSucceed(ms, parseFloat);
    }
  }

  /** On failure the error is that of the first fixture that fails. */
  lemma {:induction false} FutureRowsFailure(ms: seq<FutureMatch>, parseFloat: string -> Option<real>, k: nat)
    requires k < |ms| && FutureRow(ms[k], parseFloat).Failure?
    requires forall i :: 0 <= i < k ==> FutureRow(ms[i], parseFloat).Success?
    ensures FutureRows(ms, parseFloat) == Failure(FutureRow(ms[k], parseFloat).error)
  {
    if k < |ms| - 1 {
      FutureRowsFailure(ms[..|ms| - 1], parseFloat, k);
    } else {
      FutureRowsSuccess(ms[..|ms| - 1], parseFloat);
    }
  }

  /** The row of one fixture: the teams renamed by the alias blocks, the probabilities
      as fractions, nothing priced yet. */
  method NewRow(m: FutureMatch, parseFloat: string -> Option<real>) returns (r: Result<PendingBet>)
    ensures r == FutureRow(m, parseFloat)
  {
    AliasBlocksWellFormed();
    var homeTeam, awayTeam := NormaliseTeams(m.homeTeam, m.awayTeam, AliasBlocks);
    var pHome := ParsePercent(m.homeWinProbability, parseFloat);
    if pHome.Failure? {
      return Failure(pHome.error);
    }
    var pDraw := ParsePercent(m.drawProbability, parseFloat);
    if pDraw.Failure? {
      return Failure(pDraw.error);
    }
    var pAway := ParsePercent(m.awayWinProbability, parseFloat);
    if pAway.Failure? {
      return Failure(pAway.error);
    }
    r := Success(PendingBet(m.date, m.league, homeTeam, awayTeam,
                            pHome.value, pDraw.value, pAway.value,
                            None, None, None, None, None, None, None));
  }

  /** `add_future_matches(future_matches, pending_bets)`: the existing rows followed by
      one new row per fixture, or the first error. */
  method AddFutureMatches(matches: seq<FutureMatch>, pending: seq<PendingBet>,
                          parseFloat: string -> Option<real>)
    returns (r: Result<seq<PendingBet>>)
    ensures r.Success? <==> FutureRows(matches, parseFloat).Success?
    ensures r.Success? ==> r.value == pending + FutureRows(matches, parseFloat).value
    ensures r.Failure? ==> r.error == FutureRows(matches, parseFloat).error
  {
    var rows := pending;
    for i := 0 to |matches|
      invariant FutureRows(matches[..i], parseFloat).Success?
      invariant rows == pending + FutureRows(matches[..i], parseFloat).value
    {
      assert matches[..i + 1][..i] == matches[..i];
      var row := NewRow(matches[i], parseFloat);
      if row.Failure? {
        assert FutureRows(matches[..i + 1], parseFloat) == Failure(row.error);
        FutureRowsPrefixFailure(matches, i + 1, parseFloat);
        return Failure(row.error);
      }
      rows := rows + [row.value];
    }
    assert matches[..|matches|] == matches;
    r := Success(rows);
  }

  /** A prefix that fails makes the whole list fail with the same error. */
  lemma {:induction false} FutureRowsPrefixFailure(ms: seq<FutureMatch>, n: nat, parseFloat: string -> Option<real>)
    requires n <= |ms| && FutureRows(ms[..n], parseFloat).Failure?
    ensures FutureRows(ms, parseFloat) == FutureRows(ms[..n], parseFloat)
    decreases |ms| - n
  {
    if n < |ms| {
      assert ms[..n + 1][..n] == ms[..n];
      FutureRowsPrefixFailure(ms, n + 1, parseFloat);
    } else {
      assert ms[..n] == ms;
    }
  }

  /** One record of scraped odds: team names as the bookmaker spells them and the three
      decimal odds as strings that may use a decimal comma. */
  datatype OddsRecord = OddsRecord(
    league: string, homeTeam: string, awayTeam: string,
    winOdds: string, drawOdds: string, lossOdds: string)

  /** `float(x.replace(",", "."))`, with Python's `float` the parameter `parseFloat`. */
  function ParseOdds(text: string, parseFloat: string -> Option<real>): (r: Result<real>)
    ensures r.Failure? <==> parseFloat(ReplaceChar(text, ',', '.')).None?
    ensures r.Failure? ==> r.error.ValueError?
  {
    var decimal := ReplaceChar(text, ',', '.');
    match parseFloat(decimal)
    case None => Failure(ValueError("could not convert string to float: " + decimal))
    case Some(x) => Success(x)
  }

  /** The text handed to `float` has no comma left, so a string whose commas were already
      replaced parses to the same result. */
  lemma ParseOddsDecimalPoint(text: string, parseFloat: string -> Option<real>)
    ensures ',' !in ReplaceChar(text, ',', '.')
    ensures ParseOdds(ReplaceChar(text, ',', '.'), parseFloat) == ParseOdds(text, parseFloat)
  {
    ReplaceCharProperties(text, ',', '.');
    ReplaceCharProperties(ReplaceChar(text, ',', '.'), ',', '.');
  }

  /** The least score `get_best_match` accepts. */
  const MatchThreshold: int := 70

  /** `get_best_match(name, choices)`. The fuzzy matcher `process.extractOne` is the
      parameter `extractOne`; when it finds nothing (no choices), unpacking its `None`
      raises TypeError. */
  function GetBestMatch(name: string, choices: set<string>,
                        extractOne: (string, set<string>) -> Option<(string, int)>): (r: Result<Option<string>>)
    ensures r.Failure? <==> extractOne(name, choices).None?
    ensures r.Success? && r.value.Some? <==>
      extractOne(name, choices).Some? && extractOne(name, choices).value.1 >= MatchThreshold
    ensures r.Success? && r.value.Some? ==> r.value.value == extractOne(name, choices).value.0
  {
    match extractOne(name, choices)
    case None => Failure(TypeError("cannot unpack non-iterable NoneType object"))
    case Some((best, score)) => Success(if score >= MatchThreshold then Some(best) else None)
  }

  /** Python truthiness of a match: present and not the empty string. */
  predicate Truthy(m: Option<string>)
  {
    m.Some? && m.value != ""
  }

  /** `fillna(0)` on the three odds cells of a row. */
  function FillOdds(row: PendingBet): (r: PendingBet)
    ensures HasOdds(r)
    ensures SameExceptOdds(r, row)
    ensures row.oddsHome.Some? ==> r.oddsHome == row.oddsHome
    ensures row.oddsDraw.Some? ==> r.oddsDraw == row.oddsDraw
    ensures row.oddsAway.Some? ==> r.oddsAway == row.oddsAway
  {
    row.(oddsHome := Some(row.oddsHome.GetOr(0.0)),
         oddsDraw := Some(row.oddsDraw.GetOr(0.0)),
         oddsAway := Some(row.oddsAway.GetOr(0.0)))
  }

  /** Two rows that agree on every column other than the three odds. */
  predicate SameExceptOdds(a: PendingBet, b: PendingBet)
  {
    a.(oddsHome := None, oddsDraw := None, oddsAway := None) ==
    b.(oddsHome := None, oddsDraw := None, oddsAway := None)
  }

  /** The masked assignment: the rows of the fixture `home` v `away` get the three odds. */
  function SetOdds(row: PendingBet, home: string, away: string, odds: Triple): (r: PendingBet)
    ensures SameExceptOdds(r, row)
    ensures row.homeTeam == home && row.awayTeam == away ==>
      HasOdds(r) && Odds(r) == odds
    ensures !(row.homeTeam == home && row.awayTeam == away) ==> r == row
  {
    if row.homeTeam == home && row.awayTeam == away then
      row.(oddsHome := Some(odds.home), oddsDraw := Some(odds.draw), oddsAway := Some(odds.away))
    else row
  }

  /** Every odds cell filled. */
  function FillAll(rows: seq<PendingBet>): (r: seq<PendingBet>)
    ensures |r| == |rows|
  {
    seq(|rows|, i requires 0 <= i < |rows| => FillOdds(rows[i]))
  }

  /** The mask update over all rows. */
  function SetAll(rows: seq<PendingBet>, home: string, away: string, odds: Triple): (r: seq<PendingBet>)
    ensures |r| == |rows|
  {
    seq(|rows|, i requires 0 <= i < |rows| => SetOdds(rows[i], home, away, odds))
  }

  /** `set(home_team.unique()) | set(away_team.unique())`. */
  function TeamSet(rows: seq<PendingBet>): (teams: set<string>)
  {
    if rows == [] then {}
    else TeamSet(rows[..|rows| - 1]) + {rows[|rows| - 1].homeTeam, rows[|rows| - 1].awayTeam}
  }

  /** A name is in the team set exactly when some row has it on either side. */
  lemma {:induction false} TeamSetMembers(rows: seq<PendingBet>, name: string)
    ensures name in TeamSet(rows) <==>
      exists i :: 0 <= i < |rows| && (rows[i].homeTeam == name || rows[i].awayTeam == name)
  {
    if rows != [] {
      var init := rows[..|rows| - 1];
      TeamSetMembers(init, name);
      if name in TeamSet(init) {
        var i :| 0 <= i < |init| && (init[i].homeTeam == name || init[i].awayTeam == name);
        assert rows[i] == init[i];
      }
      if exists i :: 0 <= i < |rows| && (rows[i].homeTeam == name || rows[i].awayTeam == name) {
        var i :| 0 <= i < |rows| && (rows[i].homeTeam == name || rows[i].awayTeam == name);
        if i < |init| {
          assert init[i] == rows[i];
        }
      }
    }
  }

  /** The state after one record and the error it raised, if any. */
  datatype OddsState = OddsState(rows: seq<PendingBet>, error: Option<Error>)

  /** One iteration of `add_odds`: parse the three odds (a failure changes nothing), fill
      the odds columns, match both names against the table's teams (a failure keeps the
      filled columns), then write the odds into the rows of the matched fixture when both
      names matched. */
  function OddsStep(rows: seq<PendingBet>, rec: OddsRecord, parseFloat: string -> Option<real>,
                    extractOne: (string, set<string>) -> Option<(string, int)>): (r: OddsState)
    ensures |r.rows| == |rows|
  {
    var win, draw, loss :=
      ParseOdds(rec.winOdds, parseFloat), ParseOdds(rec.drawOdds, parseFloat), ParseOdds(rec.lossOdds, parseFloat);
    if win.Failure? then OddsState(rows, Some(win.error))
    else if draw.Failure? then OddsState(rows, Some(draw.error))
    else if loss.Failure? then OddsState(rows, Some(loss.error))
    else
      var filled := FillAll(rows);
      var teams := TeamSet(filled);
      var home := GetBestMatch(rec.homeTeam, teams, extractOne);
      if home.Failure? then OddsState(filled, Some(home.error))
      else
        var away := GetBestMatch(rec.awayTeam, teams, extractOne);
        if away.Failure? then OddsState(filled, Some(away.error))
        else if Truthy(home.value) && Truthy(away.value) then
          OddsState(SetAll(filled, home.value.value, away.value.value,
                           Triple(win.value, draw.value, loss.value)), None)
        else OddsState(filled, None)
  }

  /** `add_odds(odds_data, pending_bets)` as a fold over the records: the table after the
      records processed so far, stopping at the first error. */
  function AddOddsSpec(rows: seq<PendingBet>, records: seq<OddsRecord>, parseFloat: string -> Option<real>,
                       extractOne: (string, set<string>) -> Option<(string, int)>): (r: OddsState)
    ensures |r.rows| == |rows|
  {
    if records == [] then OddsState(rows, None)
    else
      var before := AddOddsSpec(rows, records[..|records| - 1], parseFloat, extractOne);
      if before.error.Some? then before
      else OddsStep(before.rows, records[|records| - 1], parseFloat, extractOne)
  }

  /** One iteration of the loop of `add_odds`, in place. */
  method ApplyOddsRecord(rows: array<PendingBet>, rec: OddsRecord, parseFloat: string -> Option<real>,
                         extractOne: (string, set<string>) -> Option<(string, int)>)
    returns (error: Option<Error>)
    modifies rows
    ensures OddsState(rows[..], error) == OddsStep(old(rows[..]), rec, parseFloat, extractOne)
  {
    var win := ParseOdds(rec.winOdds, parseFloat);
    if win.Failure? {
      return Some(win.error);
    }
    var draw := ParseOdds(rec.drawOdds, parseFloat);
    if draw.Failure? {
      return Some(draw.error);
    }
    var loss := ParseOdds(rec.lossOdds, parseFloat);
    if loss.Failure? {
      return Some(loss.error);
    }
    FillOddsColumns(rows);
    var teams := CollectTeams(rows);
    var home := GetBestMatch(rec.homeTeam, teams, extractOne);
    if home.Failure? {
      return Some(home.error);
    }
    var away := GetBestMatch(rec.awayTeam, teams, extractOne);
    if away.Failure? {
      return Some(away.error);
    }
    error := None;
    if Truthy(home.value) && Truthy(away.value) {
      SetMatchedOdds(rows, home.value.value, away.value.value, Triple(win.value, draw.value, loss.value));
    }
  }

  /** `pending_bets[col] = pending_bets[col].fillna(0)` for the three odds columns. */
  method FillOddsColumns(rows: array<PendingBet>)
    modifies rows
    ensures rows[..] == FillAll(old(rows[..]))
  {
    for j := 0 to rows.Length
      invariant forall k :: 0 <= k < j ==> rows[k] == FillOdds(old(rows[k]))
      invariant forall k :: j <= k < rows.Length ==> rows[k] == old(rows[k])
    {
      rows[j] := FillOdds(rows[j]);
    }
  }

  /** The names on either side of the table. */
  method CollectTeams(rows: array<PendingBet>) returns (teams: set<string>)
    ensures teams == TeamSet(rows[..])
  {
    teams := {};
    for j := 0 to rows.Length
      invariant teams == TeamSet(rows[..j])
    {
      assert rows[..j + 1][..j] == rows[..j];
      teams := teams + {rows[j].homeTeam, rows[j].awayTeam};
    }
    assert rows[..rows.Length] == rows[..];
  }

  /** `pending_bets.loc[mask, col] = value` for the three odds columns. */
  method SetMatchedOdds(rows: array<PendingBet>, home: string, away: string, odds: Triple)
    modifies rows
    ensures rows[..] == SetAll(old(rows[..]), home, away, odds)
  {
    for j := 0 to rows.Length
      invariant forall k :: 0 <= k < j ==> rows[k] == SetOdds(old(rows[k]), home, away, odds)
      invariant forall k :: j <= k < rows.Length ==> rows[k] == old(rows[k])
    {
      rows[j] := SetOdds(rows[j], home, away, odds);
    }
  }

  /** Once a prefix of the records raised an error, later records are never processed. */
  lemma {:induction false} AddOddsStopsAtError(rows: seq<PendingBet>, records: seq<OddsRecord>, n: nat,
                                               parseFloat: string -> Option<real>,
                                               extractOne: (string, set<string>) -> Option<(string, int)>)
    requires n <= |records| && AddOddsSpec(rows, records[..n], parseFloat, extractOne).error.Some?
    ensures AddOddsSpec(rows, records, parseFloat, extractOne) == AddOddsSpec(rows, records[..n], parseFloat, extractOne)
    decreases |records| - n
  {
    if n < |records| {
      assert records[..n + 1][..n] == records[..n];
      AddOddsStopsAtError(rows, records, n + 1, parseFloat, extractOne);
    } else {
      assert records[..n] == records;
    }
  }

  /** `add_odds(odds_data, pending_bets)`: the table is updated in place record by record;
      the result is the error that stopped it, if any. */
  method AddOdds(rows: array<PendingBet>, records: seq<OddsRecord>, parseFloat: string -> Option<real>,
                 extractOne: (string, set<string>) -> Option<(string, int)>)
    returns (error: Option<Error>)
    modifies rows
    ensures OddsState(rows[..], error) == AddOddsSpec(old(rows[..]), records, parseFloat, extractOne)
  {
    for n := 0 to |records|
      invariant OddsState(rows[..], None) == AddOddsSpec(old(rows[..]), records[..n], parseFloat, extractOne)
    {
      assert records[..n + 1][..n] == records[..n];
      error := ApplyOddsRecord(rows, records[n], parseFloat, extractOne);
      if error.Some? {
        AddOddsStopsAtError(old(rows[..]), records, n + 1, parseFloat, extractOne);
        return;
      }
    }
    assert records[..|records|] == records;
    error := None;
  }

  /** The three odds of a record parse. */
  predicate OddsParse(rec: OddsRecord, parseFloat: string -> Option<real>)
  {
    ParseOdds(rec.winOdds, parseFloat).Success? && ParseOdds(rec.drawOdds, parseFloat).Success? &&
    ParseOdds(rec.lossOdds, parseFloat).Success?
  }

  /** The parsed odds of a record, as home/draw/away. */
  function RecordOdds(rec: OddsRecord, parseFloat: string -> Option<real>): Triple
    requires OddsParse(rec, parseFloat)
  {
    Triple(ParseOdds(rec.winOdds, parseFloat).value, ParseOdds(rec.drawOdds, parseFloat).value,
           ParseOdds(rec.lossOdds, parseFloat).value)
  }

  /** What one record does to one row: a record that does not parse changes nothing;
      otherwise the row's odds are filled, and when both names matched and the row is
      that fixture, its odds become the record's. */
  lemma OddsStepRow(rows: seq<PendingBet>, rec: OddsRecord, parseFloat: string -> Option<real>,
                    extractOne: (string, set<string>) -> Option<(string, int)>, i: nat)
    requires i < |rows|
    ensures var r := OddsStep(rows, rec, parseFloat, extractOne);
      SameExceptOdds(r.rows[i], rows[i]) &&
      (!OddsParse(rec, parseFloat) ==> r.error.Some? && r.rows == rows) &&
      (OddsParse(rec, parseFloat) ==> HasOdds(r.rows[i])) &&
      (OddsParse(rec, parseFloat) && r.error.Some? ==> r.rows[i] == FillOdds(rows[i]))
  {
  }

  /** The row of the matched fixture gets the record's odds; every other row only has its
      missing odds filled with 0. */
  lemma OddsStepMatched(rows: seq<PendingBet>, rec: OddsRecord, parseFloat: string -> Option<real>,
                        extractOne: (string, set<string>) -> Option<(string, int)>, i: nat)
    requires i < |rows|
    requires OddsStep(rows, rec, parseFloat, extractOne).error.None?
    ensures OddsParse(rec, parseFloat)
    ensures var teams := TeamSet(FillAll(rows));
      var home := GetBestMatch(rec.homeTeam, teams, extractOne);
      var away := GetBestMatch(rec.awayTeam, teams, extractOne);
      var r := OddsStep(rows, rec, parseFloat, extractOne).rows[i];
      home.Success? && away.Success? &&
      if Truthy(home.value) && Truthy(away.value) &&
         rows[i].homeTeam == home.value.value && rows[i].awayTeam == away.value.value
      then HasOdds(r) && Odds(r) == RecordOdds(rec, parseFloat)
      else r == FillOdds(rows[i])
  {
  }

  /** `add_odds` only ever touches the three odds columns, and keeps the row count. */
  lemma {:induction false} AddOddsKeepsOtherColumns(rows: seq<PendingBet>, records: seq<OddsRecord>,
                                                    parseFloat: string -> Option<real>,
                                                    extractOne: (string, set<string>) -> Option<(string, int)>)
    ensures var r := AddOddsSpec(rows, records, parseFloat, extractOne);
      |r.rows| == |rows| && forall i :: 0 <= i < |rows| ==> SameExceptOdds(r.rows[i], rows[i])
  {
    if records != [] {
      var init := records[..|records| - 1];
      AddOddsKeepsOtherColumns(rows, init, parseFloat, extractOne);
      var before := AddOddsSpec(rows, init, parseFloat, extractOne);
      if before.error.None? {
        forall i | 0 <= i < |rows|
          ensures SameExceptOdds(AddOddsSpec(rows, records, parseFloat, extractOne).rows[i], rows[i])
        {
          OddsStepRow(before.rows, records[|records| - 1], parseFloat, extractOne, i);
        }
      }
    }
  }

  /** After processing at least one record without an error, every row has all three odds:
      the fill value 0 where no record matched. So `calc_ev_risk` can price every row. */
  lemma {:induction false} AddOddsPricesEveryRow(rows: seq<PendingBet>, records: seq<OddsRecord>,
                                                 parseFloat: string -> Option<real>,
                                                 extractOne: (string, set<string>) -> Option<(string, int)>)
    requires records != []
    requires AddOddsSpec(rows, records, parseFloat, extractOne).error.None?
    ensures forall i :: 0 <= i < |rows| ==> HasOdds(AddOddsSpec(rows, records, parseFloat, extractOne).rows[i])
  {
    var init := records[..|records| - 1];
    var before := AddOddsSpec(rows, init, parseFloat, extractOne);
    forall i | 0 <= i < |rows|
      ensures HasOdds(AddOddsSpec(rows, records, parseFloat, extractOne).rows[i])
    {
      OddsStepRow(before.rows, records[|records| - 1], parseFloat, extractOne, i);
    }
  }

  /** With no records the table is returned unchanged. */
  lemma AddOddsNoRecords(rows: seq<PendingBet>, parseFloat: string -> Option<real>,
                         extractOne: (string, set<string>) -> Option<(string, int)>)
    ensures AddOddsSpec(rows, [], parseFloat, extractOne) == OddsState(rows, None)
  {
  }
}
