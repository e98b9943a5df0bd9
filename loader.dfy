/** Match records, their expansion into outcomes, and the splitting of a match file into
    entries (utils/loader.py). */
module Loader {
  import opened Wrappers
  import opened Strings

  /** The three results of a match, from the home side's point of view. */
  datatype Label = Win | Draw | Loss

  /** One match record of a match file: a fixture with three probability/odds pairs. */
  datatype Match = Match(
    fixture: string,
    winProbability: real, winOdds: real,
    drawProbability: real, drawOdds: real,
    lossProbability: real, lossOdds: real)

  /** One outcome of a match, tagged with the fixture it belongs to. */
  datatype Outcome = Outcome(fixture: string, outcome: Label, probability: real, odds: real)

  /** `generate_outcomes(match)`: the Win, Draw and Loss outcomes of a match, in that order. */
  function GenerateOutcomes(m: Match): (os: seq<Outcome>)
    ensures |os| == 3
    ensures forall i :: 0 <= i < 3 ==> os[i].fixture == m.fixture
    ensures os[0].outcome == Win && os[1].outcome == Draw && os[2].outcome == Loss
  {
    [ Outcome(m.fixture, Win, m.winProbability, m.winOdds),
      Outcome(m.fixture, Draw, m.drawProbability, m.drawOdds),
      Outcome(m.fixture, Loss, m.lossProbability, m.lossOdds) ]
  }

  /** Reads a match back from its three outcomes. */
  function MatchOf(os: seq<Outcome>): Match
    requires |os| == 3
  {
    Match(os[0].fixture, os[0].probability, os[0].odds, os[1].probability, os[1].odds,
          os[2].probability, os[2].odds)
  }

  /** The expansion loses nothing: every field of the match is copied unchanged into
      the outcome of the matching label. */
  lemma GenerateOutcomesRoundTrip(m: Match)
    ensures MatchOf(GenerateOutcomes(m)) == m
  {
  }

  /** The outcome probabilities add up to the match's own three probabilities, so a
      match whose probabilities sum to 1 yields outcomes whose probabilities sum to 1. */
  lemma OutcomeProbabilitiesSum(m: Match)
    ensures var os := GenerateOutcomes(m);
      os[0].probability + os[1].probability + os[2].probability
        == m.winProbability + m.drawProbability + m.lossProbability
  {
  }

  /** An entry is completed with a closing brace when its stripped form lacks one. */
  function CompleteEntry(entry: string): string
  {
    if !EndsWith(Strip(entry), '}') then entry + "}" else entry
  }

  /** The text handed to `ast.literal_eval` for an entry. */
  function EvalText(entry: string): (text: string)
    ensures EndsWith(text, '}')
  {
    var text := Strip(CompleteEntry(entry));
    if EndsWith(Strip(entry), '}') then text
    else StripAppend(entry, '}'); text
  }

  /** Every text handed to the parser ends with a closing brace; a brace is added exactly
      when the stripped entry lacks one, and then the text is the left-stripped entry
      followed by that brace. */
  lemma EvalTextEndsWithBrace(entry: string)
    ensures EndsWith(EvalText(entry), '}')
    ensures EndsWith(Strip(entry), '}') ==> EvalText(entry) == Strip(entry)
    ensures !EndsWith(Strip(entry), '}') ==> EvalText(entry) == StripLeft(entry) + "}"
  {
    if !EndsWith(Strip(entry), '}') {
      StripAppend(entry, '}');
    }
  }

  /** The texts handed to the parser, one per entry. */
  function EvalTexts(entries: seq<string>): (texts: seq<string>)
    ensures |texts| == |entries| && forall i :: 0 <= i < |entries| ==> texts[i] == EvalText(entries[i])
  {
    seq(|entries|, i requires 0 <= i < |entries| => EvalText(entries[i]))
  }

  /** The texts parsed in order; the first text that fails to parse ends the computation
      with its error. */
  function ParseTexts(texts: seq<string>, literalEval: string -> Result<Match>): (r: Result<seq<Match>>)
    ensures r.Success? ==> |r.value| == |texts|
  {
    if texts == [] then Success([])
    else
      match ParseTexts(texts[..|texts| - 1], literalEval)
      case Failure(e) => Failure(e)
      case Success(ms) =>
        match literalEval(texts[|texts| - 1])
        case Failure(e) => Failure(e)
        case Success(m) => Success(ms + [m])
  }

  /** Parsing succeeds exactly when every text parses, and then yields the parsed texts
      in order. */
  lemma {:induction false} ParseTextsSuccess(texts: seq<string>, literalEval: string -> Result<Match>)
    ensures ParseTexts(texts, literalEval).Success? <==>
      forall i :: 0 <= i < |texts| ==> literalEval(texts[i]).Success?
    ensures ParseTexts(texts, literalEval).Success? ==>
      var ms := ParseTexts(texts, literalEval).value;
      |ms| == |texts| && forall i :: 0 <= i < |texts| ==> literalEval(texts[i]) == Success(ms[i])
  {
    if texts != [] {
      var init := texts[..|texts| - 1];
      ParseTextsSuccess(init, literalEval);
      assert forall i :: 0 <= i < |init| ==> init[i] == texts[i];
    }
  }

  /** A failure is the error of the first text that does not parse. */
  lemma {:induction false} ParseTextsFailure(texts: seq<string>, literalEval: string -> Result<Match>)
    requires ParseTexts(texts, literalEval).Failure?
    ensures exists i :: (0 <= i < |texts| &&
      literalEval(texts[i]) == Failure(ParseTexts(texts, literalEval).error) &&
      forall j :: 0 <= j < i ==> literalEval(texts[j]).Success?)
  {
    var init := texts[..|texts| - 1];
    assert forall i :: 0 <= i < |init| ==> init[i] == texts[i];
    if ParseTexts(init, literalEval).Failure? {
      ParseTextsFailure(init, literalEval);
      var i :| 0 <= i < |init| &&
        literalEval(init[i]) == Failure(ParseTexts(init, literalEval).error) &&
        forall j :: 0 <= j < i ==> literalEval(init[j]).Success?;
      assert literalEval(texts[i]) == Failure(ParseTexts(texts, literalEval).error);
    } else {
      ParseTextsSuccess(init, literalEval);
      assert literalEval(texts[|init|]) == Failure(ParseTexts(texts, literalEval).error);
    }
  }

  /** Once a prefix fails, the whole list fails the same way. */
  lemma {:induction false} ParseTextsPrefixFailure(texts: seq<string>, k: nat, literalEval: string -> Result<Match>)
    requires k <= |texts| && ParseTexts(texts[..k], literalEval).Failure?
    ensures ParseTexts(texts, literalEval) == ParseTexts(texts[..k], literalEval)
  {
    if k < |texts| {
      assert texts[..|texts| - 1][..k] == texts[..k];
      ParseTextsPrefixFailure(texts[..|texts| - 1], k, literalEval);
    } else {
      assert texts[..k] == texts;
    }
  }

  /** `load_matches_from_file` once the file has been read into `content`: each entry is
      completed, stripped and parsed by `literalEval` (Python's `ast.literal_eval`, given
      here as a parameter), and the parsed matches are collected in file order. The first
      entry that fails to parse raises, and nothing is returned. */
  method LoadMatchesFromText(content: string, literalEval: string -> Result<Match>)
    returns (r: Result<seq<Match>>)
    ensures r == ParseTexts(EvalTexts(SplitEntries(content)), literalEval)
  {
    var entries := SplitEntries(content);
    r := ParseEntryList(entries, literalEval);
  }

  /** The loop of `load_matches_from_file` over the split entries. */
  method ParseEntryList(entries: seq<string>, literalEval: string -> Result<Match>)
    returns (r: Result<seq<Match>>)
    ensures r == ParseTexts(EvalTexts(entries), literalEval)
  {
    ghost var texts := EvalTexts(entries);
    var matches: seq<Match> := [];
    for k := 0 to |entries|
      invariant ParseTexts(texts[..k], literalEval) == Success(matches)
    {
      assert texts[..k + 1][..k] == texts[..k];
      var entry := CompleteEntry(entries[k]);
      var parsed := literalEval(Strip(entry));
      assert texts[..k + 1][k] == Strip(entry);
      if parsed.Failure? {
        ParseTextsPrefixFailure(texts, k + 1, literalEval);
        return Failure(parsed.error);
      }
      matches := matches + [parsed.value];
    }
    assert texts[..|entries|] == texts;
    r := Success(matches);
  }

  /** What loading promises: the file loads exactly when every entry parses, into one
      match per entry, in order; otherwise the error is that of the first bad entry. */
  lemma LoadMatchesMeaning(content: string, literalEval: string -> Result<Match>)
    ensures var es := SplitEntries(content);
      var r := ParseTexts(EvalTexts(es), literalEval);
      (r.Success? <==> forall i :: 0 <= i < |es| ==> literalEval(EvalText(es[i])).Success?) &&
      (r.Success? ==> (|r.value| == CountSeparators(content) + 1 &&
        forall i :: 0 <= i < |r.value| ==> literalEval(EvalText(es[i])) == Success(r.value[i]))) &&
      (r.Failure? ==> exists i :: (0 <= i < |es| &&
        literalEval(EvalText(es[i])) == Failure(r.error) &&
        forall j :: 0 <= j < i ==> literalEval(EvalText(es[j])).Success?))
  {
    var es := SplitEntries(content);
    var texts := EvalTexts(es);
    ParseTextsSuccess(texts, literalEval);
    if ParseTexts(texts, literalEval).Failure? {
      ParseTextsFailure(texts, literalEval);
    }
  }
}
