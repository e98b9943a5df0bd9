/** The bookmaker-to-statistics team-name dictionary of utils/team_map.py and its two
    lookups. */
module TeamMap {
  import opened Wrappers
  import opened Strings
  import Update

  /** The entries of `team_name_map`, in source order: (name as the bookmaker spells it,
      name as the statistics site spells it). */
  const TeamNames: seq<(string, string)> := Clubs + MoreClubs + Countries + MoreCountries

  /** Entries 1-11: the aliases also written inline in src/update.py. */
  const Clubs: seq<(string, string)> := [
    ("QPR", "Queens Park Rangers"),
    ("Man Utd", "Manchester United"),
    ("Grimsby", "Grimsby Town"),
    ("Notts", "Notts County"),
    ("Birmingham", "Birmingham City"),
    ("Sheff Utd", "Sheffield United"),
    ("Cambridge Utd", "Cambridge United"),
    ("Bodø/Glimt", "Bodo"),
    ("Olympiakos", "Olympiacos Piraeus"),
    ("Athletic Club", "Athletic Bilbao"),
    ("Roma", "AS Roma")
  ]

  /** Entries 12-22. */
  const MoreClubs: seq<(string, string)> := [
    ("M'gladbach", "Borussia Mönchengladbach"),
    ("Mainz 05", "FSV Mainz"),
    ("L Orient", "Leyton Orient FC"),
    ("Man City", "Manchester City"),
    ("Milan", "AC Milan"),
    ("Inter", "Inter Milan"),
    ("Armenia", "Armenië"),
    ("Georgia", "Georgië"),
    ("Turkey", "Turkije"),
    ("Hungary", "Hongarije"),
    ("Netherlands", "Nederland")
  ]

  /** Entries 23-33. */
  const Countries: seq<(string, string)> := [
    ("Spain", "Spanje"),
    ("Italy", "Italië"),
    ("Germany", "Duitsland"),
    ("Croatia", "Kroatië"),
    ("France", "Frankrijk"),
    ("Denmark", "Denemarken"),
    ("Portugal", "Portugal"),
    ("Ukraine", "Oekraine"),
    ("Belgium", "België"),
    ("Bulgaria", "Bulgarije"),
    ("Ireland", "Ierland")
  ]

  /** Entries 34-45. */
  const MoreCountries: seq<(string, string)> := [
    ("Austria", "Oostenrijk"),
    ("Serbia", "Servië"),
    ("Greece", "Griekenland"),
    ("Scotland", "Schotland"),
    ("Kosovo", "Kosovo"),
    ("Iceland", "IJsland"),
    ("Slovakia", "Slowakije"),
    ("Slovenia", "Slovenie"),
    ("MK Dons", "Milton Keynes Dons"),
    ("Leganés", "Leganes"),
    ("Saint-Étienne", "AS Saint-Etienne"),
    ("Nottm Forest", "Nottingham Forest")
  ]

  /** The keys of a table of entries. */
  function Keys(table: seq<(string, string)>): set<string>
  {
    set i | 0 <= i < |table| :: table[i].0
  }

  /** The values of a table of entries. */
  function Values(table: seq<(string, string)>): set<string>
  {
    set i | 0 <= i < |table| :: table[i].1
  }

  /** `dict.get` on the dictionary the entries build: a later entry for the same key
      overwrites an earlier one, as in a Python dict display or comprehension. */
  function Get(table: seq<(string, string)>, key: string): (r: Option<string>)
    ensures r.Some? <==> key in Keys(table)
    ensures r.Some? ==> (key, r.value) in table
  {
    if table == [] then None
    else if table[|table| - 1].0 == key then Some(table[|table| - 1].1)
    else
      var r := Get(table[..|table| - 1], key);
      assert Keys(table) == Keys(table[..|table| - 1]) + {table[|table| - 1].0};
      r
  }

  /** `{v: k for k, v in table.items()}`. */
  function Reverse(table: seq<(string, string)>): (r: seq<(string, string)>)
    ensures |r| == |table|
    ensures forall i :: 0 <= i < |table| ==> r[i] == (table[i].1, table[i].0)
  {
    seq(|table|, i requires 0 <= i < |table| => (table[i].1, table[i].0))
  }

  /** `get_translation(input_team)`: the mapped name of the stripped input, or the input
      itself, untouched, when the stripped input is not a key. */
  function GetTranslation(input: string): (r: string)
    ensures Strip(input) in Keys(TeamNames) ==> r == Get(TeamNames, Strip(input)).value
    ensures Strip(input) !in Keys(TeamNames) ==> r == input
  {
    Get(TeamNames, Strip(input)).GetOr(input)
  }

  /** `get_reverse_translation(translated_team)`: the bookmaker's name of the stripped
      input, or the input itself when the stripped input is not a value. */
  function GetReverseTranslation(translated: string): (r: string)
    ensures Strip(translated) in Values(TeamNames) ==> r == Get(Reverse(TeamNames), Strip(translated)).value
    ensures Strip(translated) !in Values(TeamNames) ==> r == translated
  {
    assert Keys(Reverse(TeamNames)) == Values(TeamNames);
    Get(Reverse(TeamNames), Strip(translated)).GetOr(translated)
  }

  /** The keys of a table, in order. */
  function KeyList(table: seq<(string, string)>): (xs: seq<string>)
    ensures |xs| == |table| && forall i :: 0 <= i < |table| ==> xs[i] == table[i].0
  {
    seq(|table|, i requires 0 <= i < |table| => table[i].0)
  }

  /** The values of a table, in order. */
  function ValueList(table: seq<(string, string)>): (xs: seq<string>)
    ensures |xs| == |table| && forall i :: 0 <= i < |table| ==> xs[i] == table[i].1
  {
    seq(|table|, i requires 0 <= i < |table| => table[i].1)
  }

  /** No string occurs twice. */
  predicate Distinct(xs: seq<string>)
  {
    forall i, j :: 0 <= i < j < |xs| ==> xs[i] != xs[j]
  }

  /** No string occurs in both. */
  predicate Disjoint(xs: seq<string>, ys: seq<string>)
  {
    forall i, j :: 0 <= i < |xs| && 0 <= j < |ys| ==> xs[i] != ys[j]
  }

  /** Every value of `a` that is a key of `b` is mapped to itself by `b`. */
  predicate FixedAcross(a: seq<(string, string)>, b: seq<(string, string)>)
  {
    forall i, j :: 0 <= i < |a| && 0 <= j < |b| && a[i].1 == b[j].0 ==> b[j].1 == b[j].0
  }

  /** Every entry is free of surrounding white space. */
  predicate EntriesTrimmed(table: seq<(string, string)>)
  {
    forall i :: 0 <= i < |table| ==> Trimmed(table[i].0) && Trimmed(table[i].1)
  }

  /** The facts that make the dictionary behave: distinct keys, distinct values, no
      surrounding white space, and a value that is also a key maps to itself. */
  predicate WellFormed(table: seq<(string, string)>)
  {
    EntriesTrimmed(table) && Distinct(KeyList(table)) && Distinct(ValueList(table)) &&
    FixedAcross(table, table)
  }

  lemma DistinctConcat(xs: seq<string>, ys: seq<string>)
    requires Distinct(xs) && Distinct(ys) && Disjoint(xs, ys)
    ensures Distinct(xs + ys)
  {
    forall i, j | 0 <= i < j < |xs + ys|
      ensures (xs + ys)[i] != (xs + ys)[j]
    {
      if j < |xs| {
      } else if i < |xs| {
        assert (xs + ys)[j] == ys[j - |xs|];
      } else {
        assert (xs + ys)[i] == ys[i - |xs|];
      }
    }
  }

  lemma DisjointConcat(xs: seq<string>, ys: seq<string>, zs: seq<string>)
    requires Disjoint(xs, zs) && Disjoint(ys, zs)
    ensures Disjoint(xs + ys, zs)
  {
    forall i, j | 0 <= i < |xs + ys| && 0 <= j < |zs|
      ensures (xs + ys)[i] != zs[j]
    {
      if i >= |xs| {
        assert (xs + ys)[i] == ys[i - |xs|];
      }
    }
  }

  lemma FixedConcat(a: seq<(string, string)>, b: seq<(string, string)>, c: seq<(string, string)>)
    ensures FixedAcross(a + b, c) <== FixedAcross(a, c) && FixedAcross(b, c)
    ensures FixedAcross(c, a + b) <== FixedAcross(c, a) && FixedAcross(c, b)
  {
    if FixedAcross(a, c) && FixedAcross(b, c) {
      forall i, j | 0 <= i < |a + b| && 0 <= j < |c| && (a + b)[i].1 == c[j].0
        ensures c[j].1 == c[j].0
      {
        if i >= |a| {
          assert (a + b)[i] == b[i - |a|];
        }
      }
    }
    if FixedAcross(c, a) && FixedAcross(c, b) {
      forall i, j | 0 <= i < |c| && 0 <= j < |a + b| && c[i].1 == (a + b)[j].0
        ensures (a + b)[j].1 == (a + b)[j].0
      {
        if j >= |a| {
          assert (a + b)[j] == b[j - |a|];
        }
      }
    }
  }

  lemma ColumnsConcat(a: seq<(string, string)>, b: seq<(string, string)>)
    ensures KeyList(a + b) == KeyList(a) + KeyList(b)
    ensures ValueList(a + b) == ValueList(a) + ValueList(b)
    ensures EntriesTrimmed(a) && EntriesTrimmed(b) ==> EntriesTrimmed(a + b)
  {
    if EntriesTrimmed(a) && EntriesTrimmed(b) {
      forall i | 0 <= i < |a + b|
        ensures Trimmed((a + b)[i].0) && Trimmed((a + b)[i].1)
      {
        if i >= |a| {
          assert (a + b)[i] == b[i - |a|];
        }
      }
    }
  }

  /** Two tables share no key and no value, and a value of one that is a key of the
      other is fixed there. */
  predicate Apart(a: seq<(string, string)>, b: seq<(string, string)>)
  {
    Disjoint(KeyList(a), KeyList(b)) && Disjoint(ValueList(a), ValueList(b)) &&
    FixedAcross(a, b) && FixedAcross(b, a)
  }

  lemma ApartConcat(a: seq<(string, string)>, b: seq<(string, string)>, c: seq<(string, string)>)
    requires Apart(a, c) && Apart(b, c)
    ensures Apart(a + b, c)
  {
    ColumnsConcat(a, b);
    DisjointConcat(KeyList(a), KeyList(b), KeyList(c));
    DisjointConcat(ValueList(a), ValueList(b), ValueList(c));
    FixedConcat(a, b, c);
  }

  /** Gluing two well-formed tables whose keys and values are apart, and whose values
      that are keys of the other are fixed there, gives a well-formed table. */
  lemma WellFormedConcat(a: seq<(string, string)>, b: seq<(string, string)>)
    requires WellFormed(a) && WellFormed(b) && Apart(a, b)
    ensures WellFormed(a + b)
  {
    ColumnsConcat(a, b);
    DistinctConcat(KeyList(a), KeyList(b));
    DistinctConcat(ValueList(a), ValueList(b));
    FixedConcat(a, b, a);
    FixedConcat(a, b, b);
    FixedConcat(a + b, a, b);
    FixedConcat(a, b, a + b);
  }

  // The lemmas from here to TeamNamesWellFormed check the literal tables entry by entry,
  // which the verifier does by evaluation. Each check is split at index 6 into a Low and
  // a High half only to keep one proof within the solver's budget; the halves state no
  // property of their own beyond the whole-table fact they are combined into.

  lemma ClubsTrimmed()
    ensures EntriesTrimmed(Clubs)
  {
    ClubsTrimmedLow();
    ClubsTrimmedHigh();
  }

  lemma ClubsTrimmedLow()
    ensures forall i :: 0 <= i < 6 ==> Trimmed(Clubs[i].0) && Trimmed(Clubs[i].1)
  {
  }

  lemma ClubsTrimmedHigh()
    ensures forall i :: 6 <= i < |Clubs| ==> Trimmed(Clubs[i].0) && Trimmed(Clubs[i].1)
  {
  }

  lemma ClubsKeysDistinct()
    ensures forall i, j :: 0 <= i < j < |Clubs| ==> Clubs[i].0 != Clubs[j].0
  {
  }

  lemma ClubsValuesDistinct()
    ensures forall i, j :: 0 <= i < j < |Clubs| ==> Clubs[i].1 != Clubs[j].1
  {
  }

  lemma ClubsFixedWithin()
    ensures FixedAcross(Clubs, Clubs)
  {
    ClubsFixedWithinLow();
    ClubsFixedWithinHigh();
  }

  lemma ClubsFixedWithinLow()
    ensures forall i, j :: 0 <= i < |Clubs| && 0 <= j < 6 && Clubs[i].1 == Clubs[j].0 ==> Clubs[j].1 == Clubs[j].0
  {
  }

  lemma ClubsFixedWithinHigh()
    ensures forall i, j :: 0 <= i < |Clubs| && 6 <= j < |Clubs| && Clubs[i].1 == Clubs[j].0 ==> Clubs[j].1 == Clubs[j].0
  {
  }

  lemma MoreClubsTrimmed()
    ensures EntriesTrimmed(MoreClubs)
  {
    MoreClubsTrimmedLow();
    MoreClubsTrimmedHigh();
  }

  lemma MoreClubsTrimmedLow()
    ensures forall i :: 0 <= i < 6 ==> Trimmed(MoreClubs[i].0) && Trimmed(MoreClubs[i].1)
  {
  }

  lemma MoreClubsTrimmedHigh()
    ensures forall i :: 6 <= i < |MoreClubs| ==> Trimmed(MoreClubs[i].0) && Trimmed(MoreClubs[i].1)
  {
  }

  lemma MoreClubsKeysDistinct()
    ensures forall i, j :: 0 <= i < j < |MoreClubs| ==> MoreClubs[i].0 != MoreClubs[j].0
  {
  }

  lemma MoreClubsValuesDistinct()
    ensures forall i, j :: 0 <= i < j < |MoreClubs| ==> MoreClubs[i].1 != MoreClubs[j].1
  {
  }

  lemma MoreClubsFixedWithin()
    ensures FixedAcross(MoreClubs, MoreClubs)
  {
    MoreClubsFixedWithinLow();
    MoreClubsFixedWithinHigh();
  }

  lemma MoreClubsFixedWithinLow()
    ensures forall i, j :: 0 <= i < |MoreClubs| && 0 <= j < 6 && MoreClubs[i].1 == MoreClubs[j].0 ==> MoreClubs[j].1 == MoreClubs[j].0
  {
  }

  lemma MoreClubsFixedWithinHigh()
    ensures forall i, j :: 0 <= i < |MoreClubs| && 6 <= j < |MoreClubs| && MoreClubs[i].1 == MoreClubs[j].0 ==> MoreClubs[j].1 == MoreClubs[j].0
  {
  }

  lemma CountriesTrimmed()
    ensures EntriesTrimmed(Countries)
  {
    CountriesTrimmedLow();
    CountriesTrimmedHigh();
  }

  lemma CountriesTrimmedLow()
    ensures forall i :: 0 <= i < 6 ==> Trimmed(Countries[i].0) && Trimmed(Countries[i].1)
  {
  }

  lemma CountriesTrimmedHigh()
    ensures forall i :: 6 <= i < |Countries| ==> Trimmed(Countries[i].0) && Trimmed(Countries[i].1)
  {
  }

  lemma CountriesKeysDistinct()
    ensures forall i, j :: 0 <= i < j < |Countries| ==> Countries[i].0 != Countries[j].0
  {
  }

  lemma CountriesValuesDistinct()
    ensures forall i, j :: 0 <= i < j < |Countries| ==> Countries[i].1 != Countries[j].1
  {
  }

  lemma CountriesFixedWithin()
    ensures FixedAcross(Countries, Countries)
  {
    CountriesFixedWithinLow();
    CountriesFixedWithinHigh();
  }

  lemma CountriesFixedWithinLow()
    ensures forall i, j :: 0 <= i < |Countries| && 0 <= j < 6 && Countries[i].1 == Countries[j].0 ==> Countries[j].1 == Countries[j].0
  {
  }

  lemma CountriesFixedWithinHigh()
    ensures forall i, j :: 0 <= i < |Countries| && 6 <= j < |Countries| && Countries[i].1 == Countries[j].0 ==> Countries[j].1 == Countries[j].0
  {
  }

  lemma MoreCountriesTrimmed()
    ensures EntriesTrimmed(MoreCountries)
  {
    MoreCountriesTrimmedLow();
    MoreCountriesTrimmedHigh();
  }

  lemma MoreCountriesTrimmedLow()
    ensures forall i :: 0 <= i < 6 ==> Trimmed(MoreCountries[i].0) && Trimmed(MoreCountries[i].1)
  {
  }

  lemma MoreCountriesTrimmedHigh()
    ensures forall i :: 6 <= i < |MoreCountries| ==> Trimmed(MoreCountries[i].0) && Trimmed(MoreCountries[i].1)
  {
  }

  lemma MoreCountriesKeysDistinct()
    ensures forall i, j :: 0 <= i < j < |MoreCountries| ==> MoreCountries[i].0 != MoreCountries[j].0
  {
  }

  lemma MoreCountriesValuesDistinct()
    ensures forall i, j :: 0 <= i < j < |MoreCountries| ==> MoreCountries[i].1 != MoreCountries[j].1
  {
  }

  lemma MoreCountriesFixedWithin()
    ensures FixedAcross(MoreCountries, MoreCountries)
  {
    MoreCountriesFixedWithinLow();
    MoreCountriesFixedWithinHigh();
  }

  lemma MoreCountriesFixedWithinLow()
    ensures forall i, j :: 0 <= i < |MoreCountries| && 0 <= j < 6 && MoreCountries[i].1 == MoreCountries[j].0 ==> MoreCountries[j].1 == MoreCountries[j].0
  {
  }

  lemma MoreCountriesFixedWithinHigh()
    ensures forall i, j :: 0 <= i < |MoreCountries| && 6 <= j < |MoreCountries| && MoreCountries[i].1 == MoreCountries[j].0 ==> MoreCountries[j].1 == MoreCountries[j].0
  {
  }

  lemma ClubsMoreClubsKeysDisjoint()
    ensures forall i, j :: 0 <= i < |Clubs| && 0 <= j < |MoreClubs| ==> Clubs[i].0 != MoreClubs[j].0
  {
  }

  lemma ClubsMoreClubsValuesDisjoint()
    ensures forall i, j :: 0 <= i < |Clubs| && 0 <= j < |MoreClubs| ==> Clubs[i].1 != MoreClubs[j].1
  {
  }

  lemma ClubsMoreClubsFixed()
    ensures FixedAcross(Clubs, MoreClubs)
  {
    ClubsMoreClubsFixedLow();
    ClubsMoreClubsFixedHigh();
  }

  lemma ClubsMoreClubsFixedLow()
    ensures forall i, j :: 0 <= i < |Clubs| && 0 <= j < 6 && Clubs[i].1 == MoreClubs[j].0 ==> MoreClubs[j].1 == MoreClubs[j].0
  {
  }

  lemma ClubsMoreClubsFixedHigh()
    ensures forall i, j :: 0 <= i < |Clubs| && 6 <= j < |MoreClubs| && Clubs[i].1 == MoreClubs[j].0 ==> MoreClubs[j].1 == MoreClubs[j].0
  {
  }

  lemma MoreClubsClubsFixed()
    ensures FixedAcross(MoreClubs, Clubs)
  {
    MoreClubsClubsFixedLow();
    MoreClubsClubsFixedHigh();
  }

  lemma MoreClubsClubsFixedLow()
    ensures forall i, j :: 0 <= i < |MoreClubs| && 0 <= j < 6 && MoreClubs[i].1 == Clubs[j].0 ==> Clubs[j].1 == Clubs[j].0
  {
  }

  lemma MoreClubsClubsFixedHigh()
    ensures forall i, j :: 0 <= i < |MoreClubs| && 6 <= j < |Clubs| && MoreClubs[i].1 == Clubs[j].0 ==> Clubs[j].1 == Clubs[j].0
  {
  }

  lemma ClubsCountriesKeysDisjoint()
    ensures forall i, j :: 0 <= i < |Clubs| && 0 <= j < |Countries| ==> Clubs[i].0 != Countries[j].0
  {
  }

  lemma ClubsCountriesValuesDisjoint()
    ensures forall i, j :: 0 <= i < |Clubs| && 0 <= j < |Countries| ==> Clubs[i].1 != Countries[j].1
  {
  }

  lemma ClubsCountriesFixed()
    ensures FixedAcross(Clubs, Countries)
  {
    ClubsCountriesFixedLow();
    ClubsCountriesFixedHigh();
  }

  lemma ClubsCountriesFixedLow()
    ensures forall i, j :: 0 <= i < |Clubs| && 0 <= j < 6 && Clubs[i].1 == Countries[j].0 ==> Countries[j].1 == Countries[j].0
  {
  }

  lemma ClubsCountriesFixedHigh()
    ensures forall i, j :: 0 <= i < |Clubs| && 6 <= j < |Countries| && Clubs[i].1 == Countries[j].0 ==> Countries[j].1 == Countries[j].0
  {
  }

  lemma CountriesClubsFixed()
    ensures FixedAcross(Countries, Clubs)
  {
    CountriesClubsFixedLow();
    CountriesClubsFixedHigh();
  }

  lemma CountriesClubsFixedLow()
    ensures forall i, j :: 0 <= i < |Countries| && 0 <= j < 6 && Countries[i].1 == Clubs[j].0 ==> Clubs[j].1 == Clubs[j].0
  {
  }

  lemma CountriesClubsFixedHigh()
    ensures forall i, j :: 0 <= i < |Countries| && 6 <= j < |Clubs| && Countries[i].1 == Clubs[j].0 ==> Clubs[j].1 == Clubs[j].0
  {
  }

  lemma ClubsMoreCountriesKeysDisjoint()
    ensures forall i, j :: 0 <= i < |Clubs| && 0 <= j < |MoreCountries| ==> Clubs[i].0 != MoreCountries[j].0
  {
  }

  lemma ClubsMoreCountriesValuesDisjoint()
    ensures forall i, j :: 0 <= i < |Clubs| && 0 <= j < |MoreCountries| ==> Clubs[i].1 != MoreCountries[j].1
  {
  }

  lemma ClubsMoreCountriesFixed()
    ensures FixedAcross(Clubs, MoreCountries)
  {
    ClubsMoreCountriesFixedLow();
    ClubsMoreCountriesFixedHigh();
  }

  lemma ClubsMoreCountriesFixedLow()
    ensures forall i, j :: 0 <= i < |Clubs| && 0 <= j < 6 && Clubs[i].1 == MoreCountries[j].0 ==> MoreCountries[j].1 == MoreCountries[j].0
  {
  }

  lemma ClubsMoreCountriesFixedHigh()
    ensures forall i, j :: 0 <= i < |Clubs| && 6 <= j < |MoreCountries| && Clubs[i].1 == MoreCountries[j].0 ==> MoreCountries[j].1 == MoreCountries[j].0
  {
  }

  lemma MoreCountriesClubsFixed()
    ensures FixedAcross(MoreCountries, Clubs)
  {
    MoreCountriesClubsFixedLow();
    MoreCountriesClubsFixedHigh();
  }

  lemma MoreCountriesClubsFixedLow()
    ensures forall i, j :: 0 <= i < |MoreCountries| && 0 <= j < 6 && MoreCountries[i].1 == Clubs[j].0 ==> Clubs[j].1 == Clubs[j].0
  {
  }

  lemma MoreCountriesClubsFixedHigh()
    ensures forall i, j :: 0 <= i < |MoreCountries| && 6 <= j < |Clubs| && MoreCountries[i].1 == Clubs[j].0 ==> Clubs[j].1 == Clubs[j].0
  {
  }

  lemma MoreClubsCountriesKeysDisjoint()
    ensures forall i, j :: 0 <= i < |MoreClubs| && 0 <= j < |Countries| ==> MoreClubs[i].0 != Countries[j].0
  {
  }

  lemma MoreClubsCountriesValuesDisjoint()
    ensures forall i, j :: 0 <= i < |MoreClubs| && 0 <= j < |Countries| ==> MoreClubs[i].1 != Countries[j].1
  {
  }

  lemma MoreClubsCountriesFixed()
    ensures FixedAcross(MoreClubs, Countries)
  {
    MoreClubsCountriesFixedLow();
    MoreClubsCountriesFixedHigh();
  }

  lemma MoreClubsCountriesFixedLow()
    ensures forall i, j :: 0 <= i < |MoreClubs| && 0 <= j < 6 && MoreClubs[i].1 == Countries[j].0 ==> Countries[j].1 == Countries[j].0
  {
  }

  lemma MoreClubsCountriesFixedHigh()
    ensures forall i, j :: 0 <= i < |MoreClubs| && 6 <= j < |Countries| && MoreClubs[i].1 == Countries[j].0 ==> Countries[j].1 == Countries[j].0
  {
  }

  lemma CountriesMoreClubsFixed()
    ensures FixedAcross(Countries, MoreClubs)
  {
    CountriesMoreClubsFixedLow();
    CountriesMoreClubsFixedHigh();
  }

  lemma CountriesMoreClubsFixedLow()
    ensures forall i, j :: 0 <= i < |Countries| && 0 <= j < 6 && Countries[i].1 == MoreClubs[j].0 ==> MoreClubs[j].1 == MoreClubs[j].0
  {
  }

  lemma CountriesMoreClubsFixedHigh()
    ensures forall i, j :: 0 <= i < |Countries| && 6 <= j < |MoreClubs| && Countries[i].1 == MoreClubs[j].0 ==> MoreClubs[j].1 == MoreClubs[j].0
  {
  }

  lemma MoreClubsMoreCountriesKeysDisjoint()
    ensures forall i, j :: 0 <= i < |MoreClubs| && 0 <= j < |MoreCountries| ==> MoreClubs[i].0 != MoreCountries[j].0
  {
  }

  lemma MoreClubsMoreCountriesValuesDisjoint()
    ensures forall i, j :: 0 <= i < |MoreClubs| && 0 <= j < |MoreCountries| ==> MoreClubs[i].1 != MoreCountries[j].1
  {
  }

  lemma MoreClubsMoreCountriesFixed()
    ensures FixedAcross(MoreClubs, MoreCountries)
  {
    MoreClubsMoreCountriesFixedLow();
    MoreClubsMoreCountriesFixedHigh();
  }

  lemma MoreClubsMoreCountriesFixedLow()
    ensures forall i, j :: 0 <= i < |MoreClubs| && 0 <= j < 6 && MoreClubs[i].1 == MoreCountries[j].0 ==> MoreCountries[j].1 == MoreCountries[j].0
  {
  }

  lemma MoreClubsMoreCountriesFixedHigh()
    ensures forall i, j :: 0 <= i < |MoreClubs| && 6 <= j < |MoreCountries| && MoreClubs[i].1 == MoreCountries[j].0 ==> MoreCountries[j].1 == MoreCountries[j].0
  {
  }

  lemma MoreCountriesMoreClubsFixed()
    ensures FixedAcross(MoreCountries, MoreClubs)
  {
    MoreCountriesMoreClubsFixedLow();
    MoreCountriesMoreClubsFixedHigh();
  }

  lemma MoreCountriesMoreClubsFixedLow()
    ensures forall i, j :: 0 <= i < |MoreCountries| && 0 <= j < 6 && MoreCountries[i].1 == MoreClubs[j].0 ==> MoreClubs[j].1 == MoreClubs[j].0
  {
  }

  lemma MoreCountriesMoreClubsFixedHigh()
    ensures forall i, j :: 0 <= i < |MoreCountries| && 6 <= j < |MoreClubs| && MoreCountries[i].1 == MoreClubs[j].0 ==> MoreClubs[j].1 == MoreClubs[j].0
  {
  }

  lemma CountriesMoreCountriesKeysDisjoint()
    ensures forall i, j :: 0 <= i < |Countries| && 0 <= j < |MoreCountries| ==> Countries[i].0 != MoreCountries[j].0
  {
  }

  lemma CountriesMoreCountriesValuesDisjoint()
    ensures forall i, j :: 0 <= i < |Countries| && 0 <= j < |MoreCountries| ==> Countries[i].1 != MoreCountries[j].1
  {
  }

  lemma CountriesMoreCountriesFixed()
    ensures FixedAcross(Countries, MoreCountries)
  {
    CountriesMoreCountriesFixedLow();
    CountriesMoreCountriesFixedHigh();
  }

  lemma CountriesMoreCountriesFixedLow()
    ensures forall i, j :: 0 <= i < |Countries| && 0 <= j < 6 && Countries[i].1 == MoreCountries[j].0 ==> MoreCountries[j].1 == MoreCountries[j].0
  {
  }

  lemma CountriesMoreCountriesFixedHigh()
    ensures forall i, j :: 0 <= i < |Countries| && 6 <= j < |MoreCountries| && Countries[i].1 == MoreCountries[j].0 ==> MoreCountries[j].1 == MoreCountries[j].0
  {
  }

  lemma MoreCountriesCountriesFixed()
    ensures FixedAcross(MoreCountries, Countries)
  {
    MoreCountriesCountriesFixedLow();
    MoreCountriesCountriesFixedHigh();
  }

  lemma MoreCountriesCountriesFixedLow()
    ensures forall i, j :: 0 <= i < |MoreCountries| && 0 <= j < 6 && MoreCountries[i].1 == Countries[j].0 ==> Countries[j].1 == Countries[j].0
  {
  }

  lemma MoreCountriesCountriesFixedHigh()
    ensures forall i, j :: 0 <= i < |MoreCountries| && 6 <= j < |Countries| && MoreCountries[i].1 == Countries[j].0 ==> Countries[j].1 == Countries[j].0
  {
  }
  lemma ClubsWellFormed()
    ensures WellFormed(Clubs)
  {
    ClubsTrimmed();
    ClubsKeysDistinct();
    ClubsValuesDistinct();
    ClubsFixedWithin();
  }

  lemma MoreClubsWellFormed()
    ensures WellFormed(MoreClubs)
  {
    MoreClubsTrimmed();
    MoreClubsKeysDistinct();
    MoreClubsValuesDistinct();
    MoreClubsFixedWithin();
  }

  lemma CountriesWellFormed()
    ensures WellFormed(Countries)
  {
    CountriesTrimmed();
    CountriesKeysDistinct();
    CountriesValuesDistinct();
    CountriesFixedWithin();
  }

  lemma MoreCountriesWellFormed()
    ensures WellFormed(MoreCountries)
  {
    MoreCountriesTrimmed();
    MoreCountriesKeysDistinct();
    MoreCountriesValuesDistinct();
    MoreCountriesFixedWithin();
  }

  lemma ClubsMoreClubsApart()
    ensures Apart(Clubs, MoreClubs)
  {
    ClubsMoreClubsKeysDisjoint();
    ClubsMoreClubsValuesDisjoint();
    ClubsMoreClubsFixed();
    MoreClubsClubsFixed();
  }

  lemma ClubsCountriesApart()
    ensures Apart(Clubs, Countries)
  {
    ClubsCountriesKeysDisjoint();
    ClubsCountriesValuesDisjoint();
    ClubsCountriesFixed();
    CountriesClubsFixed();
  }

  lemma ClubsMoreCountriesApart()
    ensures Apart(Clubs, MoreCountries)
  {
    ClubsMoreCountriesKeysDisjoint();
    ClubsMoreCountriesValuesDisjoint();
    ClubsMoreCountriesFixed();
    MoreCountriesClubsFixed();
  }

  lemma MoreClubsCountriesApart()
    ensures Apart(MoreClubs, Countries)
  {
    MoreClubsCountriesKeysDisjoint();
    MoreClubsCountriesValuesDisjoint();
    MoreClubsCountriesFixed();
    CountriesMoreClubsFixed();
  }

  lemma MoreClubsMoreCountriesApart()
    ensures Apart(MoreClubs, MoreCountries)
  {
    MoreClubsMoreCountriesKeysDisjoint();
    MoreClubsMoreCountriesValuesDisjoint();
    MoreClubsMoreCountriesFixed();
    MoreCountriesMoreClubsFixed();
  }

  lemma CountriesMoreCountriesApart()
    ensures Apart(Countries, MoreCountries)
  {
    CountriesMoreCountriesKeysDisjoint();
    CountriesMoreCountriesValuesDisjoint();
    CountriesMoreCountriesFixed();
    MoreCountriesCountriesFixed();
  }

  /** `team_name_map` is well formed. */
  lemma TeamNamesWellFormed()
    ensures WellFormed(TeamNames)
  {
    ClubsWellFormed();
    MoreClubsWellFormed();
    CountriesWellFormed();
    MoreCountriesWellFormed();
    ClubsMoreClubsApart();
    WellFormedConcat(Clubs, MoreClubs);
    ClubsCountriesApart();
    MoreClubsCountriesApart();
    ApartConcat(Clubs, MoreClubs, Countries);
    WellFormedConcat(Clubs + MoreClubs, Countries);
    ClubsMoreCountriesApart();
    MoreClubsMoreCountriesApart();
    CountriesMoreCountriesApart();
    ApartConcat(Clubs, MoreClubs, MoreCountries);
    ApartConcat(Clubs + MoreClubs, Countries, MoreCountries);
    WellFormedConcat(Clubs + MoreClubs + Countries, MoreCountries);
  }

  /** With distinct keys every entry is what `get` finds for its key. */
  lemma {:induction false} GetEntry(table: seq<(string, string)>, i: nat)
    requires Distinct(KeyList(table)) && i < |table|
    ensures Get(table, table[i].0) == Some(table[i].1)
  {
    var n := |table| - 1;
    if i < n {
      assert table[i].0 != table[n].0 by {
        assert KeyList(table)[i] != KeyList(table)[n];
      }
      var init := table[..n];
      assert Distinct(KeyList(init)) by {
        forall a, b | 0 <= a < b < |init|
          ensures KeyList(init)[a] != KeyList(init)[b]
        {
          assert KeyList(table)[a] != KeyList(table)[b];
        }
      }
      GetEntry(init, i);
    }
  }

  /** The reversed table has the values as keys. */
  lemma ReverseColumns(table: seq<(string, string)>)
    ensures KeyList(Reverse(table)) == ValueList(table)
  {
  }

  /** Every bookmaker name survives the trip to the statistics name and back. */
  lemma TranslationRoundTrip(i: nat)
    requires i < |TeamNames|
    ensures GetReverseTranslation(GetTranslation(TeamNames[i].0)) == TeamNames[i].0
  {
    var (k, v) := TeamNames[i];
    TeamNamesWellFormed();
    StripTrimmedText(k);
    StripTrimmedText(v);
    GetEntry(TeamNames, i);
    assert k in Keys(TeamNames);
    assert GetTranslation(k) == v;
    assert v in Values(TeamNames);
    ReverseColumns(TeamNames);
    GetEntry(Reverse(TeamNames), i);
  }

  /** Every statistics name survives the trip to the bookmaker name and back. */
  lemma ReverseTranslationRoundTrip(i: nat)
    requires i < |TeamNames|
    ensures GetTranslation(GetReverseTranslation(TeamNames[i].1)) == TeamNames[i].1
  {
    var (k, v) := TeamNames[i];
    TeamNamesWellFormed();
    StripTrimmedText(k);
    StripTrimmedText(v);
    ReverseColumns(TeamNames);
    GetEntry(Reverse(TeamNames), i);
    assert v in Values(TeamNames);
    assert GetReverseTranslation(v) == k;
    GetEntry(TeamNames, i);
    assert k in Keys(TeamNames);
  }

  /** Translating twice is translating once: a translated name that is itself a key is
      mapped to itself. */
  lemma TranslationIdempotent(input: string)
    ensures GetTranslation(GetTranslation(input)) == GetTranslation(input)
  {
    var key := Strip(input);
    if key in Keys(TeamNames) {
      TeamNamesWellFormed();
      var v := Get(TeamNames, key).value;
      var i :| 0 <= i < |TeamNames| && TeamNames[i] == (key, v);
      StripTrimmedText(v);
      if v in Keys(TeamNames) {
        var j :| 0 <= j < |TeamNames| && TeamNames[j].0 == v;
        assert TeamNames[j].1 == TeamNames[j].0;
        GetEntry(TeamNames, j);
      }
    }
  }

  /** An entry whose two names agree is translated to itself. */
  lemma FixedEntry(i: nat)
    requires i < |TeamNames| && TeamNames[i].0 == TeamNames[i].1
    ensures GetTranslation(TeamNames[i].0) == TeamNames[i].0
  {
    TeamNamesWellFormed();
    GetEntry(TeamNames, i);
    StripTrimmedText(TeamNames[i].0);
  }

  /** 'Portugal' is mapped to itself. */
  lemma PortugalFixed()
    ensures GetTranslation("Portugal") == "Portugal"
  {
    assert TeamNames[28] == Countries[6] == ("Portugal", "Portugal");
    FixedEntry(28);
  }

  /** 'Kosovo' is mapped to itself. */
  lemma KosovoFixed()
    ensures GetTranslation("Kosovo") == "Kosovo"
  {
    assert TeamNames[37] == MoreCountries[4] == ("Kosovo", "Kosovo");
    FixedEntry(37);
  }

  /** The first eleven entries are the alias blocks of `add_future_matches` on the home
      side; on the away side they differ only for 'Athletic Club'. */
  lemma AliasesAgree()
    ensures |Clubs| == |Update.AliasBlocks| && TeamNames[..11] == Clubs
    ensures forall i :: 0 <= i < |Clubs| ==> Clubs[i] == (Update.AliasBlocks[i].key, Update.AliasBlocks[i].homeValue)
    ensures forall i :: 0 <= i < |Clubs| && i != 9 ==> Clubs[i].1 == Update.AliasBlocks[i].awayValue
    ensures Clubs[9].1 != Update.AliasBlocks[9].awayValue
  {
  }
}
