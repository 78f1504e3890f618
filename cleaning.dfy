/** The cleaning script: salary-text parsing, missing-value policy, text normalisation, ordinal encoding. */
module Cleaning {
  import opened Options
  import opened Text
  import opened Seqs
  import opened Jobs

  // ---------------------------------------------------------------------------
  // Salary text
  // ---------------------------------------------------------------------------

  /** Some character of `s` matches `\d`. */
  predicate HasDigit(s: string) {
    exists i | 0 <= i < |s| :: IsDigit(s[i])
  }

  /** Length of the run of digits at the start of `s`: the longest match of `\d+` there, or 0. */
  function DigitRunLength(s: string): (n: nat)
    ensures n <= |s| && AllDigits(s[..n])
    ensures n < |s| ==> !IsDigit(s[n])
    ensures s != [] && IsDigit(s[0]) ==> n > 0
  {
    if s == [] || !IsDigit(s[0]) then 0
    else
      var n := 1 + DigitRunLength(s[1..]);
      assert s[..n] == [s[0]] + s[1..][..n - 1];
      n
  }

  /** The numbers `re.findall(r'\d+', s)` returns, left to right, each as its decimal value. */
  function DigitRuns(s: string): (runs: seq<nat>)
    ensures runs == [] <==> !HasDigit(s)
    decreases |s|
  {
    if s == [] then []
    else if !IsDigit(s[0]) then
      var runs := DigitRuns(s[1..]);
      assert HasDigit(s) ==> HasDigit(s[1..]) by {
        if HasDigit(s) {
          var i :| 0 <= i < |s| && IsDigit(s[i]);
          assert s[1..][i - 1] == s[i];
        }
      }
      runs
    else
      var n := DigitRunLength(s);
      [DecimalValue(s[..n])] + DigitRuns(s[n..])
  }

  /** The average of two salary bounds, as a float. */
  function Mean(x: nat, y: nat): (m: real)
    ensures x <= y ==> x as real <= m <= y as real
    ensures y <= x ==> y as real <= m <= x as real
  {
    (x as real + y as real) / 2.0
  }

  /**
   * `extract_avg_salary`: the mean of the first two numbers in the text, the single number if there is
   * one, and missing if there is none or the text itself is missing.
   */
  function ExtractAvgSalary(salary: Option<string>): (avg: Option<real>)
    ensures avg.None? <==> salary.None? || !HasDigit(salary.value)
    ensures avg.Some? ==> avg.value >= 0.0
  {
    match salary
    case None => None
    case Some(text) =>
      var runs := DigitRuns(text);
      if |runs| >= 2 then Some(Mean(runs[0], runs[1]))
      else if |runs| == 1 then Some(runs[0] as real)
      else None
  }

  lemma {:induction false} DigitRunLengthStopsAtSeparator(a: string, c: char, b: string)
    requires !IsDigit(c)
    ensures DigitRunLength(a + [c] + b) == DigitRunLength(a)
  {
    if a != [] && IsDigit(a[0]) {
      assert (a + [c] + b)[1..] == a[1..] + [c] + b;
      DigitRunLengthStopsAtSeparator(a[1..], c, b);
    }
  }

  /** A non-digit (a sign, a decimal point, a space) only separates runs: it never joins or extends one. */
  lemma {:induction false} DigitRunsSplitAtNonDigit(a: string, c: char, b: string)
    requires !IsDigit(c)
    ensures DigitRuns(a + [c] + b) == DigitRuns(a) + DigitRuns(b)
    decreases |a|
  {
    var s := a + [c] + b;
    if a == [] {
      assert s[1..] == b;
    } else if !IsDigit(a[0]) {
      assert s[1..] == a[1..] + [c] + b;
      DigitRunsSplitAtNonDigit(a[1..], c, b);
    } else {
      var n := DigitRunLength(a);
      DigitRunLengthStopsAtSeparator(a, c, b);
      assert s[..n] == a[..n];
      assert s[n..] == a[n..] + [c] + b;
      DigitRunsSplitAtNonDigit(a[n..], c, b);
    }
  }

  lemma DigitRunsOfNumeral(d: string)
    requires d != [] && AllDigits(d)
    ensures DigitRuns(d) == [DecimalValue(d)]
  {
    assert DigitRunLength(d) == |d| by {
      DigitRunLengthOfDigits(d);
    }
    assert d[..|d|] == d;
  }

  lemma {:induction false} DigitRunLengthOfDigits(d: string)
    requires AllDigits(d)
    ensures DigitRunLength(d) == |d|
  {
    if d != [] {
      DigitRunLengthOfDigits(d[1..]);
    }
  }

  /** Text without digits in front of the numbers contributes no run. */
  lemma {:induction false} DigitRunsAfterPrefix(prefix: string, s: string)
    requires !HasDigit(prefix)
    ensures DigitRuns(prefix + s) == DigitRuns(s)
    decreases |prefix|
  {
    if prefix == [] {
      assert prefix + s == s;
    } else {
      assert !IsDigit(prefix[0]);
      assert (prefix + s)[1..] == prefix[1..] + s;
      assert forall i | 0 <= i < |prefix| - 1 :: prefix[1..][i] == prefix[i + 1];
      DigitRunsAfterPrefix(prefix[1..], s);
    }
  }

  /** The parse does not look at what stands before the first digit (`"Up to 30 millions"` reads as `"30 millions"`). */
  lemma ParseIgnoresTextBefore(prefix: string, s: string)
    requires !HasDigit(prefix)
    ensures ExtractAvgSalary(Some(prefix + s)) == ExtractAvgSalary(Some(s))
  {
    DigitRunsAfterPrefix(prefix, s);
  }

  /** A maximal run of digits at the front is the first run, with its decimal value. */
  lemma DigitsThen(d: string, tail: string)
    requires d != [] && AllDigits(d)
    requires tail == [] || !IsDigit(tail[0])
    ensures DigitRuns(d + tail) == [DecimalValue(d)] + DigitRuns(tail)
  {
    DigitRunsOfNumeral(d);
    if tail == [] {
      assert d + tail == d;
    } else {
      assert d + tail == d + [tail[0]] + tail[1..];
      DigitRunsSplitAtNonDigit(d, tail[0], tail[1..]);
    }
  }

  /** Two digit strings apart by digit-free text are the first two runs, whatever follows the second. */
  lemma RangeRuns(a: string, gap: string, b: string, tail: string)
    requires a != [] && AllDigits(a) && b != [] && AllDigits(b)
    requires gap != [] && !HasDigit(gap)
    requires tail == [] || !IsDigit(tail[0])
    ensures var runs := DigitRuns(a + (gap + (b + tail)));
            |runs| >= 2 && runs[0] == DecimalValue(a) && runs[1] == DecimalValue(b)
  {
    assert !IsDigit((gap + (b + tail))[0]);
    DigitsThen(a, gap + (b + tail));
    DigitRunsAfterPrefix(gap, b + tail);
    DigitsThen(b, tail);
  }

  /**
   * Any text with two numbers or more: whatever digit-free text comes first, between and after, the
   * result is the mean of the first two numbers (`"15-25 millions"` gives 20); later numbers never count.
   */
  lemma ParseRange(prefix: string, a: string, gap: string, b: string, tail: string)
    requires !HasDigit(prefix)
    requires a != [] && AllDigits(a) && b != [] && AllDigits(b)
    requires gap != [] && !HasDigit(gap)
    requires tail == [] || !IsDigit(tail[0])
    ensures ExtractAvgSalary(Some(prefix + (a + (gap + (b + tail))))) == Some(Mean(DecimalValue(a), DecimalValue(b)))
  {
    DigitRunsAfterPrefix(prefix, a + (gap + (b + tail)));
    ParseTwo(a, gap, b, tail);
  }

  lemma ParseTwo(a: string, gap: string, b: string, tail: string)
    requires a != [] && AllDigits(a) && b != [] && AllDigits(b)
    requires gap != [] && !HasDigit(gap)
    requires tail == [] || !IsDigit(tail[0])
    ensures ExtractAvgSalary(Some(a + (gap + (b + tail)))) == Some(Mean(DecimalValue(a), DecimalValue(b)))
  {
    RangeRuns(a, gap, b, tail);
    MeanOfFirstTwo(a + (gap + (b + tail)), DecimalValue(a), DecimalValue(b));
  }

  lemma MeanOfFirstTwo(s: string, x: nat, y: nat)
    requires |DigitRuns(s)| >= 2 && DigitRuns(s)[0] == x && DigitRuns(s)[1] == y
    ensures ExtractAvgSalary(Some(s)) == Some(Mean(x, y))
  {
  }

  /** Any text with exactly one number: the number is used as it is (`"30 millions"` gives 30). */
  lemma ParseSingle(prefix: string, d: string, tail: string)
    requires !HasDigit(prefix) && !HasDigit(tail)
    requires d != [] && AllDigits(d)
    ensures ExtractAvgSalary(Some(prefix + d + tail)) == Some(DecimalValue(d) as real)
  {
    assert prefix + d + tail == prefix + (d + tail);
    DigitRunsAfterPrefix(prefix, d + tail);
    assert tail != [] ==> !IsDigit(tail[0]);
    DigitsThen(d, tail);
  }

  lemma ParseRangeExample()
    ensures ExtractAvgSalary(Some("15-25 millions")) == Some(20.0)
  {
    assert DecimalValue("15") == 15 && DecimalValue("25") == 25;
    assert "15-25 millions" == "15" + ("-" + ("25" + " millions"));
    ParseTwo("15", "-", "25", " millions");
  }

  /** Only the first two numbers count: `"10-20-90"` gives 15. */
  lemma ParseIgnoresThirdNumber()
    ensures ExtractAvgSalary(Some("10-20-90")) == Some(15.0)
  {
    assert DecimalValue("10") == 10 && DecimalValue("20") == 20;
    assert "10-20-90" == "10" + ("-" + ("20" + "-90"));
    ParseTwo("10", "-", "20", "-90");
  }

  /** A decimal point is a separator: `"7.5"` reads as the numbers 7 and 5 and gives 6. */
  lemma ParseDecimalPointExample()
    ensures ExtractAvgSalary(Some("7.5")) == Some(6.0)
  {
    assert DecimalValue("7") == 7 && DecimalValue("5") == 5;
    assert "7.5" == "7" + ("." + ("5" + ""));
    ParseTwo("7", ".", "5", "");
  }

  /** Words before and after a single number are ignored: `"Up to 30 millions"` gives 30. */
  lemma ParseSingleExample()
    ensures ExtractAvgSalary(Some("Up to 30 millions")) == Some(30.0)
  {
    assert DecimalValue("30") == 30;
    assert !HasDigit("Up to ") && !HasDigit(" millions");
    assert "Up to 30 millions" == "Up to " + "30" + " millions";
    ParseSingle("Up to ", "30", " millions");
  }

  /** No number, or no text at all, gives a missing salary. */
  lemma ParseMissingExamples()
    ensures ExtractAvgSalary(Some("abc")) == None
    ensures ExtractAvgSalary(None) == None
  {
  }

  // ---------------------------------------------------------------------------
  // Experience ordinal
  // ---------------------------------------------------------------------------

  /** `exp_order`: the experience labels in increasing seniority. */
  const ExpOrder: map<string, int> := map["Fresher" := 1, "Junior" := 2, "Senior" := 3, "Lead" := 4, "Manager" := 5]

  /** `df['Experience'].map(exp_order)`: the rank of a known label; missing for any other label or NaN. */
  function ExpLevel(experience: Option<string>): (level: Option<int>)
    ensures level.Some? <==> experience.Some? && experience.value in {"Fresher", "Junior", "Senior", "Lead", "Manager"}
    ensures level.Some? ==> 1 <= level.value <= 5
  {
    if experience.Some? && experience.value in ExpOrder then Some(ExpOrder[experience.value]) else None
  }

  /** The ranks are strictly increasing along Fresher < Junior < Senior < Lead < Manager. */
  lemma ExpLevelOrder()
    ensures ExpLevel(Some("Fresher")) == Some(1)
    ensures ExpLevel(Some("Junior")) == Some(2)
    ensures ExpLevel(Some("Senior")) == Some(3)
    ensures ExpLevel(Some("Lead")) == Some(4)
    ensures ExpLevel(Some("Manager")) == Some(5)
  {
  }

  /** Two labels with the same rank are the same label. */
  lemma ExpLevelInjective(a: string, b: string)
    requires ExpLevel(Some(a)).Some? && ExpLevel(Some(a)) == ExpLevel(Some(b))
    ensures a == b
  {
  }

  // ---------------------------------------------------------------------------
  // The table steps, in the order the script runs them
  // ---------------------------------------------------------------------------

  const SkillsPlaceholder: string := "Unspecified"

  /** Kept by `dropna(subset=['Salary', 'Location'])`. */
  predicate HasSalaryAndLocation(r: Row) {
    r.salary.Some? && r.location.Some?
  }

  /** `fillna('Unspecified')` on Skills: a missing value is filled, a present one and every other column kept. */
  function FillSkills(r: Row): (f: Row)
    ensures f.skills.Some?
    ensures r.skills.Some? ==> f == r
    ensures r.skills.None? ==> f.skills == Some(SkillsPlaceholder)
    ensures f.(skills := r.skills) == r
  {
    r.(skills := Some(r.skills.GetOr(SkillsPlaceholder)))
  }

  /** The `Avg_Salary_Million` column, recomputed from Salary; no other column changes. */
  function WithAvgSalary(r: Row): (w: Row)
    ensures w.avgSalary == ExtractAvgSalary(r.salary)
    ensures w.(avgSalary := r.avgSalary) == r
  {
    r.(avgSalary := ExtractAvgSalary(r.salary))
  }

  /** Kept by `dropna(subset=['Avg_Salary_Million'])`. */
  predicate HasAvgSalary(r: Row) {
    r.avgSalary.Some?
  }

  /** `.str.lower().str.strip()`: the result has no upper-case letter and no surrounding whitespace. */
  function LowerStrip(s: string): (t: string)
    ensures IsLowerCase(t) && IsStripped(t)
    ensures IsStripOf(t, Lower(s))
  {
    StripLowerIdempotent(s);
    Strip(Lower(s))
  }

  function StripOption(s: Option<string>): Option<string> {
    match s
    case None => None
    case Some(v) => Some(Strip(v))
  }

  /**
   * Skills lower-cased then stripped; Job Title stripped. NaN stays NaN in both columns, and no other
   * column changes.
   */
  function Standardize(r: Row): (s: Row)
    ensures s.skills.Some? <==> r.skills.Some?
    ensures s.skills.Some? ==> IsLowerCase(s.skills.value) && IsStripped(s.skills.value)
    ensures r.skills.Some? ==> IsStripOf(s.skills.value, Lower(r.skills.value))
    ensures s.title.Some? <==> r.title.Some?
    ensures s.title.Some? ==> IsStripped(s.title.value)
    ensures r.title.Some? ==> IsStripOf(s.title.value, r.title.value)
    ensures s.(skills := r.skills, title := r.title) == r
  {
    r.(skills := match r.skills case None => None case Some(v) => Some(LowerStrip(v)),
       title := StripOption(r.title))
  }

  /** The `Exp_Level` column: a rank from 1 to 5 for a known label, missing otherwise; no other column changes. */
  function WithExpLevel(r: Row): (e: Row)
    ensures e.expLevel.Some? <==> r.experience.Some? && r.experience.value in ExpOrder
    ensures e.expLevel.Some? ==> 1 <= e.expLevel.value <= 5
    ensures e.expLevel == ExpLevel(r.experience)
    ensures e.(expLevel := r.expLevel) == r
  {
    r.(expLevel := ExpLevel(r.experience))
  }

  // ---------------------------------------------------------------------------
  // The whole pipeline, row by row
  // ---------------------------------------------------------------------------

  /** A row the cleaner keeps: Salary and Location present and the salary text holds a number. */
  predicate Survives(r: Row) {
    HasSalaryAndLocation(r) && ExtractAvgSalary(r.salary).Some?
  }

  /**
   * What the cleaner makes of one row: the source columns are kept, and a row that survives carries every
   * guarantee of the cleaned file.
   */
  function CleanRow(r: Row): (c: Row)
    ensures c.(skills := r.skills, title := r.title, avgSalary := r.avgSalary, expLevel := r.expLevel) == r
    ensures Survives(r) ==> IsCleaned(c)
  {
    r.(skills := Some(LowerStrip(r.skills.GetOr(SkillsPlaceholder))),
       title := StripOption(r.title),
       avgSalary := ExtractAvgSalary(r.salary),
       expLevel := ExpLevel(r.experience))
  }

  /** The cleaner's output, stated per row: the survivors in their order, each cleaned. */
  function Clean(table: seq<Row>): (out: seq<Row>)
    ensures |out| <= |table|
    ensures forall i | 0 <= i < |out| :: IsCleaned(out[i])
  {
    var survivors := Filter(Survives, table);
    var out := Map(CleanRow, survivors);
    assert forall i | 0 <= i < |out| :: IsCleaned(out[i]) by {
      forall i | 0 <= i < |out| ensures IsCleaned(out[i]) {
        assert survivors[i] in survivors;
        assert out[i] == CleanRow(survivors[i]);
      }
    }
    out
  }

  /** The guarantees a row of the cleaned file carries. */
  predicate IsCleaned(r: Row) {
    && r.salary.Some? && r.location.Some?
    && r.avgSalary.Some? && r.avgSalary == ExtractAvgSalary(r.salary)
    && r.skills.Some? && IsLowerCase(r.skills.value) && IsStripped(r.skills.value)
    && (r.title.Some? ==> IsStripped(r.title.value))
    && r.expLevel == ExpLevel(r.experience)
  }

  /** The salary text of a row yields a number. */
  predicate SalaryParses(r: Row) {
    ExtractAvgSalary(r.salary).Some?
  }

  function FillAndParse(r: Row): Row {
    WithAvgSalary(FillSkills(r))
  }

  function StandardizeAndEncode(r: Row): Row {
    WithExpLevel(Standardize(r))
  }

  lemma CleanRowIsTheSteps(r: Row)
    ensures CleanRow(r) == StandardizeAndEncode(FillAndParse(r))
    ensures HasAvgSalary(FillAndParse(r)) == SalaryParses(r)
    ensures Survives(r) == (HasSalaryAndLocation(r) && SalaryParses(r))
  {
  }

  /** The six steps of the script equal the per-row statement `Clean`. */
  lemma StepsEqualClean(input: seq<Row>)
    ensures Map(WithExpLevel, Map(Standardize, Filter(HasAvgSalary, Map(WithAvgSalary, Map(FillSkills,
              Filter(HasSalaryAndLocation, input)))))) == Clean(input)
  {
    forall r: Row ensures CleanRow(r) == StandardizeAndEncode(FillAndParse(r))
                      && HasAvgSalary(FillAndParse(r)) == SalaryParses(r)
                      && Survives(r) == (HasSalaryAndLocation(r) && SalaryParses(r)) {
      CleanRowIsTheSteps(r);
    }
    var kept := Filter(HasSalaryAndLocation, input);
    var survivors := Filter(Survives, input);
    assert Map(WithAvgSalary, Map(FillSkills, kept)) == Map(FillAndParse, kept) by {
      MapMap(FillSkills, WithAvgSalary, FillAndParse, kept);
    }
    assert Filter(HasAvgSalary, Map(FillAndParse, kept)) == Map(FillAndParse, Filter(SalaryParses, kept)) by {
      FilterMap(FillAndParse, HasAvgSalary, SalaryParses, kept);
    }
    assert Filter(SalaryParses, kept) == survivors by {
      FilterFuse(HasSalaryAndLocation, SalaryParses, Survives, input);
    }
    var parsed := Map(FillAndParse, survivors);
    assert Map(WithExpLevel, Map(Standardize, parsed)) == Map(StandardizeAndEncode, parsed) by {
      MapMap(Standardize, WithExpLevel, StandardizeAndEncode, parsed);
    }
    assert Map(StandardizeAndEncode, parsed) == Clean(input) by {
      MapMap(FillAndParse, StandardizeAndEncode, CleanRow, survivors);
    }
  }

  /**
   * `clean_data` without its file I/O: the table `df` goes through the script's steps, the Skills and
   * Job Title assignments taken as one.
   * The result is the surviving rows, in their input order, each cleaned.
   */
  method CleanData(input: seq<Row>) returns (df: seq<Row>)
    ensures df == Clean(input)
    ensures |df| <= |input|
    ensures forall i | 0 <= i < |df| :: IsCleaned(df[i])
  {
    df := input;
    df := Filter(HasSalaryAndLocation, df);
    df := Map(FillSkills, df);
    df := Map(WithAvgSalary, df);
    df := Filter(HasAvgSalary, df);
    df := Map(Standardize, df);
    df := Map(WithExpLevel, df);
    StepsEqualClean(input);
  }

  /** The cleaned rows are an order-preserving subsequence of the input rows, before normalisation. */
  lemma CleanKeepsOrder(table: seq<Row>)
    ensures |Clean(table)| == |Filter(Survives, table)|
    ensures IsSubsequence(Filter(Survives, table), table)
  {
    FilterIsSubsequence(Survives, table);
  }

  /** A row without Salary, without Location, or whose salary text has no digit is absent from the output. */
  lemma DroppedRowsAbsent(table: seq<Row>, r: Row)
    requires r in table
    ensures Survives(r) <==> CleanRow(r) in Clean(table)
  {
    if Survives(r) {
      SurvivorKept(table, r);
    }
    if CleanRow(r) in Clean(table) {
      OnlySurvivorsKept(table, r);
    }
  }

  lemma SurvivorKept(table: seq<Row>, r: Row)
    requires r in table && Survives(r)
    ensures CleanRow(r) in Clean(table)
  {
    var survivors := Filter(Survives, table);
    var i :| 0 <= i < |survivors| && survivors[i] == r;
    assert Clean(table)[i] == CleanRow(r);
  }

  lemma OnlySurvivorsKept(table: seq<Row>, r: Row)
    requires CleanRow(r) in Clean(table)
    ensures Survives(r)
  {
    var survivors := Filter(Survives, table);
    var i :| 0 <= i < |survivors| && Clean(table)[i] == CleanRow(r);
    var s := survivors[i];
    assert s in survivors;
  }

  /** Missing Skills end up as "unspecified": filled first, lower-cased afterwards. */
  lemma MissingSkillsBecomeUnspecified(r: Row)
    requires r.skills.None?
    ensures CleanRow(r).skills == Some("unspecified")
  {
    var l := Lower(SkillsPlaceholder);
    assert l == "unspecified" by {
      forall i | 0 <= i < |l| ensures l[i] == "unspecified"[i] {
        assert l[i] == LowerChar(SkillsPlaceholder[i]);
      }
    }
    StripIdempotent(l);
  }

  /** Cleaning a cleaned row changes nothing: the text is already normalised and Salary is unchanged. */
  lemma CleanRowIdempotent(r: Row)
    requires Survives(r)
    ensures Survives(CleanRow(r)) && CleanRow(CleanRow(r)) == CleanRow(r)
  {
    StripLowerIdempotent(r.skills.GetOr(SkillsPlaceholder));
    if r.title.Some? {
      StripIdempotent(Strip(r.title.value));
    }
  }

  /** Cleaning already-cleaned rows returns them unchanged. */
  lemma CleanIdempotent(table: seq<Row>)
    ensures Clean(Clean(table)) == Clean(table)
  {
    var once := Clean(table);
    var survivors := Filter(Survives, table);
    forall i | 0 <= i < |once| ensures Survives(once[i]) && CleanRow(once[i]) == once[i] {
      assert survivors[i] in survivors;
      CleanRowIdempotent(survivors[i]);
    }
    FilterKeepsAll(Survives, once);
  }
}
