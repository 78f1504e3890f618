/** The synthetic data generator: one row per draw, with the salary range clamped and written as text. */
module Generator {
  import opened Options
  import opened Text
  import opened Seqs
  import opened Jobs
  import opened Cleaning

  /** `locations`: the cities a posting is drawn from. */
  const Locations: seq<string> := ["Ho Chi Minh", "Ha Noi", "Da Nang", "Remote", "Can Tho"]

  /** `experiences`: the experience labels a posting is drawn from. */
  const Experiences: seq<string> := ["Fresher", "Junior", "Senior", "Lead", "Manager"]

  /** `titles_skills`: each job title with the skill stacks a posting for it may list. */
  const TitlesSkills: map<string, seq<string>> := map[
    "Backend Developer" := ["Python, Django", "Java, Spring Boot", "Go, Microservices", "Node.js, Express"],
    "Frontend Developer" := ["ReactJS, TypeScript", "VueJS, Nuxt", "Angular, RxJS", "HTML, CSS, JS"],
    "Fullstack Developer" := ["React, Node.js, Mongo", "Java, Angular, SQL", "Python, VueJS, Docker"],
    "Data Scientist" := ["Python, Pandas, Scikit-learn", "SQL, Tableau, Python", "Python, PyTorch, AWS"],
    "AI/ML Engineer" := ["Python, TensorFlow, CV", "Python, NLP, HuggingFace", "C++, CUDA, Computer Vision"],
    "DevOps Engineer" := ["AWS, Docker, K8s", "Azure, CI/CD, Terraform", "Linux, Jenkins, Ansible"],
    "Mobile Developer" := ["Flutter, Dart", "React Native", "Swift, iOS", "Kotlin, Android"],
    "Tester/QA" := ["Selenium, Python", "Manual Testing, SQL", "Java, Appium", "Automation, Cypress"]
  ]

  /** `loc_mult`: 1.1 in the two tech hubs, 0.9 elsewhere, and 1.05 for "Remote", which is checked last. */
  function LocationMultiplier(location: string): (mult: real)
    ensures mult == 1.1 <==> location == "Ho Chi Minh" || location == "Ha Noi"
    ensures mult == 1.05 <==> location == "Remote"
    ensures mult == 0.9 <==> location !in {"Ho Chi Minh", "Ha Noi", "Remote"}
  {
    var mult := if location in ["Ho Chi Minh", "Ha Noi"] then 1.1 else 0.9;
    if location == "Remote" then 1.05 else mult
  }

  /** The "ensure logical range" step: the low end at least 5, the high end above the low end. */
  function ClampRange(low: int, high: int): (range: (int, int))
    ensures 5 <= range.0 < range.1
    ensures range.0 == if low < 5 then 5 else low
    ensures high > range.0 ==> range.1 == high
    ensures high <= range.0 ==> range.1 == range.0 + 5
  {
    var lo := if low < 5 then 5 else low;
    (lo, if high <= lo then lo + 5 else high)
  }

  /**
   * `f"{low_sal}-{high_sal} millions"`. For a range of non-negative bounds, the cleaner reads the text
   * back as the midpoint of the range.
   */
  function SalaryText(low: int, high: int): (text: string)
    ensures 0 <= low && 0 <= high ==> ExtractAvgSalary(Some(text)) == Some(Mean(low, high))
  {
    RangeTextParses(low, high);
    IntToString(low) + "-" + IntToString(high) + " millions"
  }

  lemma RangeTextParses(low: int, high: int)
    ensures var text := IntToString(low) + "-" + IntToString(high) + " millions";
            0 <= low && 0 <= high ==> ExtractAvgSalary(Some(text)) == Some(Mean(low, high))
  {
    if 0 <= low && 0 <= high {
      var lowText, highText := IntToString(low), IntToString(high);
      assert lowText + "-" + highText + " millions" == lowText + ("-" + (highText + " millions"));
      assert !HasDigit("-");
      ParseTwo(lowText, "-", highText, " millions");
    }
  }

  /** The random choices that make up one posting, taken as given. */
  datatype Draw = Draw(
    experience: string,
    location: string,
    title: string,
    skills: string,        // base_stack
    lowSalary: int,        // int(min_base * loc_mult + uniform(-2, 2))
    highSalary: int,       // int(max_base * loc_mult + uniform(0, 5))
    companyNumber: int,    // randint(1, 500)
    postedDate: string     // start_date + randint days, as "%Y-%m-%d"
  )

  /** A draw as the generator's random calls can produce it. */
  predicate ValidDraw(d: Draw) {
    && d.experience in Experiences
    && d.location in Locations
    && d.title in TitlesSkills
    && d.skills in TitlesSkills[d.title]
    && 1 <= d.companyNumber <= 500
  }

  /**
   * The record appended to `data` for one draw: every field present except the two the cleaner
   * derives, so the cleaner keeps it, and it ranks the experience exactly when the label is a known one.
   */
  function JobRecord(d: Draw): (r: Row)
    ensures Survives(r)
    ensures r.avgSalary.None? && r.expLevel.None?
    ensures ExpLevel(r.experience).Some? <==> d.experience in Experiences
  {
    var range := ClampRange(d.lowSalary, d.highSalary);
    Row(Some(d.title), Some("Tech Company " + IntToString(d.companyNumber)), Some(d.location),
        Some(SalaryText(range.0, range.1)), Some(d.skills), Some(d.experience), Some(d.postedDate),
        None, None)
  }

  /**
   * `df.loc[sample, col] = np.nan` for Salary and for Location, the samples given as row indices: a hole
   * empties its cell, and apart from those two cells every row is as it was.
   */
  function InjectMissing(data: seq<Row>, salaryHoles: set<int>, locationHoles: set<int>): (df: seq<Row>)
    ensures |df| == |data|
    ensures forall i | 0 <= i < |df| :: (i in salaryHoles ==> df[i].salary.None?) && (i in locationHoles ==> df[i].location.None?)
    ensures forall i | 0 <= i < |df| :: i !in salaryHoles && i !in locationHoles ==> df[i] == data[i]
    ensures forall i | 0 <= i < |df| :: df[i].(salary := data[i].salary, location := data[i].location) == data[i]
  {
    seq(|data|, i requires 0 <= i < |data| =>
      data[i].(salary := if i in salaryHoles then None else data[i].salary,
               location := if i in locationHoles then None else data[i].location))
  }

  /** A generated row's salary text parses back to the midpoint of its clamped range. */
  lemma GeneratedSalaryRoundTrip(d: Draw, low: int, high: int)
    requires (low, high) == ClampRange(d.lowSalary, d.highSalary)
    ensures low >= 5 && ExtractAvgSalary(JobRecord(d).salary) == Some(Mean(low, high))
  {
    assert JobRecord(d).salary == Some(SalaryText(low, high));
  }

  /** The generator's labels are exactly the cleaner's ordinal labels, in rank order. */
  lemma ExperiencesMatchRanks()
    ensures forall i | 0 <= i < |Experiences| :: ExpLevel(Some(Experiences[i])) == Some(i + 1)
  {
  }

  /**
   * `generate_it_jobs_data` with its random draws given: one record per draw, then NaN written into
   * Salary at `salaryHoles` and into Location at `locationHoles`. Exactly the rows hit by a hole are
   * the ones the cleaner drops.
   */
  method GenerateJobsData(draws: seq<Draw>, salaryHoles: set<int>, locationHoles: set<int>)
    returns (df: seq<Row>)
    ensures df == InjectMissing(Map(JobRecord, draws), salaryHoles, locationHoles)
    ensures forall i | 0 <= i < |df| :: Survives(df[i]) <==> i !in salaryHoles && i !in locationHoles
    ensures (forall k | 0 <= k < |draws| :: ValidDraw(draws[k])) ==>
      forall i | 0 <= i < |df| :: ExpLevel(df[i].experience).Some? && (df[i].location.None? || df[i].location.value in Locations)
  {
    var data: seq<Row> := [];
    for k := 0 to |draws|
      invariant data == Map(JobRecord, draws[..k])
    {
      var d := draws[k];
      var lowSal := d.lowSalary;
      var highSal := d.highSalary;
      if lowSal < 5 {
        lowSal := 5;
      }
      if highSal <= lowSal {
        highSal := lowSal + 5;
      }
      assert (lowSal, highSal) == ClampRange(d.lowSalary, d.highSalary);
      var salaryStr := SalaryText(lowSal, highSal);
      var record := Row(Some(d.title), Some("Tech Company " + IntToString(d.companyNumber)), Some(d.location),
                        Some(salaryStr), Some(d.skills), Some(d.experience), Some(d.postedDate), None, None);
      assert record == JobRecord(d);
      MapSnoc(JobRecord, draws, k);
      data := data + [record];
    }
    assert draws[..|draws|] == draws;
    df := InjectMissing(data, salaryHoles, locationHoles);
    GeneratedTable(draws, salaryHoles, locationHoles);
  }

  /** Exactly the rows hit by a hole are dropped by the cleaner; valid draws give ranked rows in known places. */
  lemma GeneratedTable(draws: seq<Draw>, salaryHoles: set<int>, locationHoles: set<int>)
    ensures var df := InjectMissing(Map(JobRecord, draws), salaryHoles, locationHoles);
      forall i | 0 <= i < |df| :: Survives(df[i]) <==> i !in salaryHoles && i !in locationHoles
    ensures var df := InjectMissing(Map(JobRecord, draws), salaryHoles, locationHoles);
      (forall k | 0 <= k < |draws| :: ValidDraw(draws[k])) ==>
        forall i | 0 <= i < |df| :: ExpLevel(df[i].experience).Some? && (df[i].location.None? || df[i].location.value in Locations)
  {
    var df := InjectMissing(Map(JobRecord, draws), salaryHoles, locationHoles);
    forall i | 0 <= i < |df|
      ensures Survives(df[i]) <==> i !in salaryHoles && i !in locationHoles
      ensures df[i].experience == Some(draws[i].experience)
      ensures df[i].location.None? || df[i].location.value == draws[i].location
    {
      assert Map(JobRecord, draws)[i] == JobRecord(draws[i]);
      assert df[i].salary == if i in salaryHoles then None else JobRecord(draws[i]).salary;
    }
  }
}
