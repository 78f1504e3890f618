/** The dashboard's data path: the three sidebar filters, the skill and location options, top skills, slider bounds. */
module Dashboard {
  import opened Options
  import opened Text
  import opened Seqs
  import opened Jobs

  /** The first entry of the location select box; choosing it disables the location filter. */
  const AllLocations: string := "Tất cả địa điểm"

  /** The two entries of the sidebar menu. */
  datatype Page = MarketAnalysis | SalaryPrediction

  // ---------------------------------------------------------------------------
  // The filter chain
  // ---------------------------------------------------------------------------

  /** `df_view["Location"] == selected_loc` (NaN equals nothing). */
  predicate AtLocation(selected: string, r: Row) {
    r.location == Some(selected)
  }

  /** `(Avg >= salary_range[0]) & (Avg <= salary_range[1])` (NaN compares false). */
  predicate InSalaryRange(low: int, high: int, r: Row) {
    r.avgSalary.Some? && low as real <= r.avgSalary.value <= high as real
  }

  /** `any(s in x for s in selected_skills)`: some selected skill is a substring of the row's Skills. */
  predicate HasAnySkill(selected: seq<string>, r: Row) {
    r.skills.Some? && exists s | s in selected :: IsSubstring(s, r.skills.value)
  }

  /** A row reaches the skill filter: it passed the location and salary filters. */
  predicate PassesLocationAndSalary(selectedLoc: string, low: int, high: int, r: Row) {
    (selectedLoc == AllLocations || AtLocation(selectedLoc, r)) && InSalaryRange(low, high, r)
  }

  /** A row is on screen when it passes all three filters of the market-analysis page. */
  predicate Shown(selectedLoc: string, low: int, high: int, selectedSkills: seq<string>, r: Row) {
    PassesLocationAndSalary(selectedLoc, low, high, r) && (selectedSkills == [] || HasAnySkill(selectedSkills, r))
  }

  /**
   * The construction of `df_view`. On the prediction page it is the loaded table; on the analysis page
   * it is the loaded table narrowed by location (unless "all" is chosen), by salary range and by skills
   * (unless none is chosen), which together keep exactly the rows `Shown` accepts, in their order.
   * The skill test of the source fails on a row whose Skills is NaN, so such a row must not reach it.
   */
  method FilterView(page: Page, df: seq<Row>, selectedLoc: string, salaryRange: (int, int), selectedSkills: seq<string>)
    returns (dfView: seq<Row>)
    requires page == MarketAnalysis && selectedSkills != [] ==>
      forall r | r in df && PassesLocationAndSalary(selectedLoc, salaryRange.0, salaryRange.1, r) :: r.skills.Some?
    ensures page == SalaryPrediction ==> dfView == df
    ensures page == MarketAnalysis ==>
      dfView == Filter((r: Row) => Shown(selectedLoc, salaryRange.0, salaryRange.1, selectedSkills, r), df)
    ensures page == MarketAnalysis ==>
      forall r :: r in dfView <==> r in df && Shown(selectedLoc, salaryRange.0, salaryRange.1, selectedSkills, r)
    ensures (page == MarketAnalysis && selectedLoc == AllLocations && selectedSkills == []
             && forall r | r in df :: InSalaryRange(salaryRange.0, salaryRange.1, r)) ==> dfView == df
    ensures IsSubsequence(dfView, df)
  {
    var low, high := salaryRange.0, salaryRange.1;
    var shown := (r: Row) => Shown(selectedLoc, low, high, selectedSkills, r);
    dfView := df;
    if page == MarketAnalysis {
      var atLocation := (r: Row) => selectedLoc == AllLocations || AtLocation(selectedLoc, r);
      var inRange := (r: Row) => InSalaryRange(low, high, r);
      var passes := (r: Row) => PassesLocationAndSalary(selectedLoc, low, high, r);
      var withSkill := (r: Row) => selectedSkills == [] || HasAnySkill(selectedSkills, r);
      if selectedLoc != AllLocations {
        dfView := Filter((r: Row) => AtLocation(selectedLoc, r), dfView);
      }
      assert dfView == Filter(atLocation, df) by {
        if selectedLoc == AllLocations {
          FilterKeepsAll(atLocation, df);
        } else {
          FilterPointwise((r: Row) => AtLocation(selectedLoc, r), atLocation, df);
        }
      }
      dfView := Filter(inRange, dfView);
      FilterFuse(atLocation, inRange, passes, df);
      if selectedSkills != [] {
        dfView := Filter((r: Row) => HasAnySkill(selectedSkills, r), dfView);
        FilterPointwise((r: Row) => HasAnySkill(selectedSkills, r), withSkill, Filter(passes, df));
      } else {
        FilterKeepsAll(withSkill, Filter(passes, df));
      }
      FilterFuse(passes, withSkill, shown, df);
      FilterIsSubsequence(shown, df);
      if selectedLoc == AllLocations && selectedSkills == [] && forall r | r in df :: InSalaryRange(low, high, r) {
        FilterKeepsAll(shown, df);
      }
    } else {
      SubsequenceOfItself(df);
    }
  }

  lemma {:induction false} SubsequenceOfItself(s: seq<Row>)
    ensures IsSubsequence(s, s)
  {
    if s != [] {
      SubsequenceOfItself(s[1..]);
    }
  }

  /**
   * The three filter steps may run in any order: each pair of them commutes. Here a row whose Skills is
   * NaN simply fails the skill test; in the source that test raises on such a row, so running the skill
   * step before the others is only equivalent on tables where no NaN row reaches it, which is what
   * `FilterView` requires.
   */
  lemma StepsCommute(df: seq<Row>, selectedLoc: string, low: int, high: int, selectedSkills: seq<string>)
    ensures var atLocation, inRange, withSkill :=
              (r: Row) => AtLocation(selectedLoc, r), (r: Row) => InSalaryRange(low, high, r), (r: Row) => HasAnySkill(selectedSkills, r);
            && Filter(inRange, Filter(atLocation, df)) == Filter(atLocation, Filter(inRange, df))
            && Filter(withSkill, Filter(atLocation, df)) == Filter(atLocation, Filter(withSkill, df))
            && Filter(withSkill, Filter(inRange, df)) == Filter(inRange, Filter(withSkill, df))
  {
    var atLocation, inRange, withSkill :=
      (r: Row) => AtLocation(selectedLoc, r), (r: Row) => InSalaryRange(low, high, r), (r: Row) => HasAnySkill(selectedSkills, r);
    FilterCommute(atLocation, inRange, df);
    FilterCommute(atLocation, withSkill, df);
    FilterCommute(inRange, withSkill, df);
  }

  /** The substring test over-matches: selecting "go" keeps a row whose only skills are Python and Django. */
  lemma SkillMatchIsSubstring(r: Row)
    requires r.skills == Some("python, django")
    ensures HasAnySkill(["go"], r)
  {
    var hay := "python, django";
    assert IsPrefix("go", hay[12..]);
    SubstringIff("go", hay);
  }

  // ---------------------------------------------------------------------------
  // Skills: tokens, options, top ten
  // ---------------------------------------------------------------------------

  /**
   * `str.split(",").explode().str.strip()` for one row: one stripped token per comma-separated piece,
   * and none for a NaN row.
   */
  function RowTokens(r: Row): (tokens: seq<string>)
    ensures r.skills.None? ==> tokens == []
    ensures r.skills.Some? ==> |tokens| == |Split(r.skills.value, ',')| >= 1
    ensures forall k | 0 <= k < |tokens| :: IsStripped(tokens[k])
    ensures r.skills.Some? ==> forall k | 0 <= k < |tokens| :: IsStripOf(tokens[k], Split(r.skills.value, ',')[k])
  {
    if r.skills.None? then []
    else
      var pieces := Split(r.skills.value, ',');
      StripEachPiece(pieces);
      Map(Strip, pieces)
  }

  lemma StripEachPiece(pieces: seq<string>)
    ensures forall k | 0 <= k < |pieces| :: IsStripOf(Map(Strip, pieces)[k], pieces[k])
  {
    forall k | 0 <= k < |pieces| ensures IsStripOf(Map(Strip, pieces)[k], pieces[k]) {
      assert Map(Strip, pieces)[k] == Strip(pieces[k]);
    }
  }

  /** The skill tokens of a table, row after row; each one is stripped. */
  function SkillTokens(df: seq<Row>): (tokens: seq<string>)
    ensures forall k | 0 <= k < |tokens| :: IsStripped(tokens[k])
  {
    if df == [] then []
    else
      var head, tail := RowTokens(df[0]), SkillTokens(df[1..]);
      assert forall k | 0 <= k < |head + tail| :: IsStripped((head + tail)[k]) by {
        forall k | 0 <= k < |head + tail| ensures IsStripped((head + tail)[k]) {
          if k >= |head| {
            assert (head + tail)[k] == tail[k - |head|];
          }
        }
      }
      head + tail
  }

  lemma {:induction false} SkillTokensOfRows(df: seq<Row>, x: string)
    ensures x in SkillTokens(df) <==> exists i | 0 <= i < |df| :: x in RowTokens(df[i])
  {
    if df != [] {
      SkillTokensOfRows(df[1..], x);
      if x in SkillTokens(df[1..]) {
        var i :| 0 <= i < |df| - 1 && x in RowTokens(df[1..][i]);
        assert df[1..][i] == df[i + 1];
      }
      if exists i | 0 <= i < |df| :: x in RowTokens(df[i]) {
        var i :| 0 <= i < |df| && x in RowTokens(df[i]);
        if i > 0 {
          assert df[i] == df[1..][i - 1];
        }
      }
    }
  }

  /** `all_skills`: the sorted, duplicate-free stripped skill tokens of the loaded table. */
  function SkillOptions(df: seq<Row>): (options: seq<string>)
    ensures StrictlySorted(options)
    ensures forall x :: x in options <==> x in SkillTokens(df)
    ensures forall k | 0 <= k < |options| :: IsStripped(options[k])
  {
    var options := SortedUnique(SkillTokens(df));
    forall k | 0 <= k < |options| ensures IsStripped(options[k]) {
      var tokens := SkillTokens(df);
      assert options[k] in tokens;
      var j :| 0 <= j < |tokens| && tokens[j] == options[k];
    }
    options
  }

  /** The location select box: the "all" entry, then the sorted distinct locations. */
  function LocationOptions(df: seq<Row>): (options: seq<string>)
    ensures |options| >= 1 && options[0] == AllLocations
    ensures StrictlySorted(options[1..])
    ensures forall x :: x in options[1..] <==> exists i | 0 <= i < |df| :: df[i].location == Some(x)
  {
    var locations := seq(|df|, i requires 0 <= i < |df| => df[i].location);
    var present := Filter((l: Option<string>) => l.Some?, locations);
    var names := Map((l: Option<string>) => l.GetOr(""), present);
    var options := [AllLocations] + SortedUnique(names);
    assert options[1..] == SortedUnique(names);
    assert forall x :: x in names <==> exists i | 0 <= i < |df| :: df[i].location == Some(x) by {
      forall x ensures x in names <==> exists i | 0 <= i < |df| :: df[i].location == Some(x) {
        if x in names {
          var k :| 0 <= k < |names| && names[k] == x;
          assert present[k] in present;
          var i :| 0 <= i < |locations| && locations[i] == present[k];
        }
        if exists i | 0 <= i < |df| :: df[i].location == Some(x) {
          var i :| 0 <= i < |df| && df[i].location == Some(x);
          assert locations[i] in locations;
          var k :| 0 <= k < |present| && present[k] == Some(x);
          assert names[k] == x;
        }
      }
    }
    options
  }

  function Count(tokens: seq<string>, x: string): nat {
    multiset(tokens)[x]
  }

  predicate NonIncreasing(xs: seq<(string, nat)>) {
    forall i, j | 0 <= i < j < |xs| :: xs[i].1 >= xs[j].1
  }

  predicate NamesDistinct(xs: seq<(string, nat)>) {
    forall i, j | 0 <= i < j < |xs| :: xs[i].0 != xs[j].0
  }

  /**
   * Inserts a (skill, count) pair before the first entry whose count is not larger, so it goes ahead of
   * entries with an equal count.
   */
  function InsertByCount(p: (string, nat), xs: seq<(string, nat)>): (r: seq<(string, nat)>)
    requires NonIncreasing(xs)
    ensures |r| == |xs| + 1
    ensures NonIncreasing(r)
    ensures forall q :: q in r <==> q in xs || q == p
  {
    if xs == [] then [p]
    else if p.1 >= xs[0].1 then [p] + xs
    else
      var tail := InsertByCount(p, xs[1..]);
      assert forall j | 0 <= j < |tail| :: tail[j] in xs[1..] || tail[j] == p;
      [xs[0]] + tail
  }

  lemma {:induction false} InsertKeepsNamesDistinct(p: (string, nat), xs: seq<(string, nat)>)
    requires NonIncreasing(xs) && NamesDistinct(xs)
    requires forall i | 0 <= i < |xs| :: xs[i].0 != p.0
    ensures NamesDistinct(InsertByCount(p, xs))
  {
    if xs != [] && p.1 < xs[0].1 {
      var tail := InsertByCount(p, xs[1..]);
      InsertKeepsNamesDistinct(p, xs[1..]);
      var r := [xs[0]] + tail;
      forall j | 0 <= j < |tail| ensures xs[0].0 != tail[j].0 {
        assert tail[j] in tail;
        if tail[j] != p {
          var k :| 0 <= k < |xs| - 1 && xs[1..][k] == tail[j];
          assert xs[k + 1] == tail[j];
        }
      }
      assert r == InsertByCount(p, xs);
    }
  }

  predicate Distinct(ds: seq<string>) {
    forall i, j | 0 <= i < j < |ds| :: ds[i] != ds[j]
  }

  /** The distinct skills with their counts, most frequent first. */
  function RankByCount(ds: seq<string>, tokens: seq<string>): (ranked: seq<(string, nat)>)
    requires Distinct(ds)
    ensures |ranked| == |ds|
    ensures NonIncreasing(ranked) && NamesDistinct(ranked)
    ensures forall p | p in ranked :: p.0 in ds && p.1 == Count(tokens, p.0)
    ensures forall d | d in ds :: (d, Count(tokens, d)) in ranked
  {
    if ds == [] then []
    else
      var rest := RankByCount(ds[1..], tokens);
      assert forall i | 0 <= i < |rest| :: rest[i].0 != ds[0] by {
        forall i | 0 <= i < |rest| ensures rest[i].0 != ds[0] {
          assert rest[i] in rest;
        }
      }
      InsertKeepsNamesDistinct((ds[0], Count(tokens, ds[0])), rest);
      InsertByCount((ds[0], Count(tokens, ds[0])), rest)
  }

  /** `skills_series.value_counts()`: every distinct skill with its count, most frequent first. */
  function ValueCounts(tokens: seq<string>): (ranked: seq<(string, nat)>)
    ensures NonIncreasing(ranked) && NamesDistinct(ranked)
    ensures forall p | p in ranked :: p.0 in tokens && p.1 == Count(tokens, p.0)
    ensures forall x | x in tokens :: (x, Count(tokens, x)) in ranked
  {
    var ds := SortedUnique(tokens);
    SortedMeansDistinct(ds);
    RankByCount(ds, tokens)
  }

  /** `.head(10)` of the value counts: at most ten distinct skills with their counts, most frequent first. */
  function TopSkills(tokens: seq<string>): (top: seq<(string, nat)>)
    ensures |top| <= 10
    ensures NonIncreasing(top) && NamesDistinct(top)
    ensures forall i | 0 <= i < |top| :: top[i].0 in tokens && top[i].1 == Count(tokens, top[i].0)
  {
    var ranked := ValueCounts(tokens);
    var n := if |ranked| <= 10 then |ranked| else 10;
    RankingPrefix(ranked, n);
    ranked[..n]
  }

  /**
   * The top-skills chart of the analysis page: the tokens of the filtered view, counted and cut to ten.
   * Each bar is a skill some shown row lists, with its number of occurrences in the view.
   */
  function TopSkillsOfView(dfView: seq<Row>): (top: seq<(string, nat)>)
    ensures |top| <= 10
    ensures NonIncreasing(top) && NamesDistinct(top)
    ensures forall i | 0 <= i < |top| :: exists j | 0 <= j < |dfView| :: top[i].0 in RowTokens(dfView[j])
    ensures forall i | 0 <= i < |top| :: top[i].1 == Count(SkillTokens(dfView), top[i].0) > 0
  {
    var tokens := SkillTokens(dfView);
    var top := TopSkills(tokens);
    forall i | 0 <= i < |top|
      ensures (exists j | 0 <= j < |dfView| :: top[i].0 in RowTokens(dfView[j])) && Count(tokens, top[i].0) > 0
    {
      SkillTokensOfRows(dfView, top[i].0);
    }
    top
  }

  lemma RankingPrefix(ranked: seq<(string, nat)>, n: nat)
    requires n <= |ranked| && NonIncreasing(ranked) && NamesDistinct(ranked)
    ensures NonIncreasing(ranked[..n]) && NamesDistinct(ranked[..n])
    ensures forall i | 0 <= i < n :: ranked[..n][i] in ranked
  {
    assert forall i | 0 <= i < n :: ranked[..n][i] == ranked[i];
  }

  /** No skill left out of the top list is more frequent than any skill in it; fewer than ten entries means all skills are in. */
  lemma TopSkillsAreMostFrequent(tokens: seq<string>, x: string)
    requires x in tokens
    requires forall i | 0 <= i < |TopSkills(tokens)| :: TopSkills(tokens)[i].0 != x
    ensures |TopSkills(tokens)| == 10
    ensures forall i | 0 <= i < 10 :: Count(tokens, x) <= TopSkills(tokens)[i].1
  {
    var ranked := ValueCounts(tokens);
    var top := TopSkills(tokens);
    var n := if |ranked| <= 10 then |ranked| else 10;
    assert top == ranked[..n];
    assert (x, Count(tokens, x)) in ranked;
    var k :| 0 <= k < |ranked| && ranked[k] == (x, Count(tokens, x));
    assert forall i | 0 <= i < |top| :: top[i] == ranked[i];
  }

  // ---------------------------------------------------------------------------
  // Salary slider defaults
  // ---------------------------------------------------------------------------

  predicate HasSalary(df: seq<Row>) {
    exists i | 0 <= i < |df| :: df[i].avgSalary.Some?
  }

  /** `df["Avg_Salary_Million"].min()`, skipping NaN. */
  function MinSalary(df: seq<Row>): (m: real)
    requires HasSalary(df)
    ensures exists i | 0 <= i < |df| :: df[i].avgSalary == Some(m)
    ensures forall i | 0 <= i < |df| && df[i].avgSalary.Some? :: m <= df[i].avgSalary.value
  {
    var last := df[|df| - 1];
    var init := df[..|df| - 1];
    if !HasSalary(init) then
      assert last.avgSalary.Some?;
      last.avgSalary.value
    else
      var m := MinSalary(init);
      if last.avgSalary.Some? && last.avgSalary.value < m then last.avgSalary.value else m
  }

  /** `df["Avg_Salary_Million"].max()`, skipping NaN. */
  function MaxSalary(df: seq<Row>): (m: real)
    requires HasSalary(df)
    ensures exists i | 0 <= i < |df| :: df[i].avgSalary == Some(m)
    ensures forall i | 0 <= i < |df| && df[i].avgSalary.Some? :: df[i].avgSalary.value <= m
  {
    var last := df[|df| - 1];
    var init := df[..|df| - 1];
    if !HasSalary(init) then
      assert last.avgSalary.Some?;
      last.avgSalary.value
    else
      var m := MaxSalary(init);
      if last.avgSalary.Some? && last.avgSalary.value > m then last.avgSalary.value else m
  }

  /** Python's `int(x)` on a float: truncation toward zero. */
  function Truncate(x: real): (n: int)
    ensures x >= 0.0 ==> n as real <= x < n as real + 1.0
    ensures x < 0.0 ==> n as real - 1.0 < x <= n as real
  {
    if x >= 0.0 then x.Floor else -((-x).Floor)
  }

  /**
   * `(min_sal, max_sal)`, the slider's bounds and its initial value: `int()` of the column's minimum and
   * maximum, an ordered pair of integers, each less than one away from the salaries it bounds.
   */
  function DefaultSalaryRange(df: seq<Row>): (range: (int, int))
    requires HasSalary(df)
    ensures range == (Truncate(MinSalary(df)), Truncate(MaxSalary(df)))
    ensures range.0 <= range.1
    ensures forall i | 0 <= i < |df| && df[i].avgSalary.Some? ::
      range.0 as real - 1.0 < df[i].avgSalary.value < range.1 as real + 1.0
  {
    (Truncate(MinSalary(df)), Truncate(MaxSalary(df)))
  }

  /**
   * Under the slider's initial value, with salaries non-negative as the cleaner produces them, the
   * salary filter keeps a row exactly when its salary is at most the truncated maximum: a row holding
   * a fractional maximum (82.5 gives the bound 82) is not shown.
   */
  lemma DefaultRangeCutsFractionalMaximum(df: seq<Row>, r: Row)
    requires HasSalary(df) && r in df && r.avgSalary.Some?
    requires forall i | 0 <= i < |df| && df[i].avgSalary.Some? :: df[i].avgSalary.value >= 0.0
    ensures var (low, high) := DefaultSalaryRange(df);
            InSalaryRange(low, high, r) <==> r.avgSalary.value <= high as real
    ensures r.avgSalary == Some(MaxSalary(df)) && MaxSalary(df) != MaxSalary(df).Floor as real ==>
            !InSalaryRange(DefaultSalaryRange(df).0, DefaultSalaryRange(df).1, r)
  {
    var i :| 0 <= i < |df| && df[i] == r;
    assert MinSalary(df) <= r.avgSalary.value;
  }

  lemma TruncateExample()
    ensures Truncate(82.5) == 82 && Truncate(-2.5) == -2
  {
  }
}
