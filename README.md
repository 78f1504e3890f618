# Vietnam IT job trending: the record-level data pipeline

This project models the data path of the IT-job dashboard as Dafny and proves properties of the model. The path has three parts.

- **The generator.** `src/generate_data.py` builds synthetic job postings. For each posting it picks an experience level, a city, a title and a skill stack. It clamps the salary range and writes it as `"<low>-<high> millions"`. Then NaN is written into some Salary and Location cells.
- **The cleaner.** `src/clean_data.py` does the following, in order:
  - drops rows without Salary or Location;
  - fills missing Skills with `Unspecified`;
  - reads the average salary out of the salary text, taking the first two runs of digits;
  - drops rows whose salary text holds no number;
  - lower-cases and strips Skills, and strips Job Title;
  - ranks the experience label from 1 to 5.
- **The dashboard.** `app.py` narrows the loaded table by location, by salary range and by skills. It lists the skill and location options and the ten most frequent skills. It starts the salary slider at the truncated minimum and maximum.

A table is a sequence of `Jobs.Row` records. Every column is an `Option`, because any cell can be NaN. The derived columns `Avg_Salary_Million` and `Exp_Level` are `Option<real>` and `Option<int>`.

The project has seven modules:
- `Options`: the `Option` type.
- `Text`: the string operations of Python and pandas that the pipeline uses. These are digits and decimal numerals, `lower`, `strip`, `split`, substring, and sorted distinct values.
- `Seqs`: the boolean-mask filter and the element-wise map, with their algebra.
- `Jobs`: the row record.
- `Cleaning`: `src/clean_data.py`.
- `Generator`: `src/generate_data.py`.
- `Dashboard`: the data path of `app.py`.

The cleaning script updates its one table in place, step by step: two `dropna(..., inplace=True)` calls and five column assignments (src/clean_data.py:17, 35, 42, 43 and 48). The method `Cleaning.CleanData` runs the same steps on a local sequence, each step replacing the whole value. It has six steps, because `Cleaning.Standardize` merges the Skills and Job Title assignments (lines 42 and 43) into one. The method is proved equal to a per-row statement: the surviving rows, in order, each cleaned.

On the analysis page the dashboard rebinds `df_view` in three steps, two of them conditional: the location step (app.py:496) runs unless "all" is chosen, the salary step (app.py:500-503) always runs, and the skill step (app.py:506) runs when some skill is selected. `Dashboard.FilterView` does the same.

The generator appends one record per iteration of a loop. `Generator.GenerateJobsData` does this with its random draws given as parameters.

The two ends of the pipeline meet in a round trip. The cleaner reads every salary text the generator writes back as the midpoint of the clamped range.

## Model

| member | source | states |
|---|---|---|
| Cleaning.ExtractAvgSalary | src/clean_data.py:23-33 | the result is missing exactly when the input is NaN or its text holds no digit; otherwise it is a non-negative number. Its value for every text with a number is stated by `Cleaning.ParseRange` (two numbers or more) and `Cleaning.ParseSingle` (exactly one) |
| Cleaning.DigitRuns | src/clean_data.py:26 | the runs of `\d+` are empty exactly when the text has no digit |
| Cleaning.Mean | src/clean_data.py:30 | `(low + high) / 2` lies between the two bounds |
| Cleaning.DigitRunLength | src/clean_data.py:26 | a run is all digits and maximal: it stops only at the end of the text or before a non-digit, and it is non-empty when the text starts with a digit |
| Cleaning.DigitRunsSplitAtNonDigit | src/clean_data.py:26 | a non-digit (a sign, a point, a space) only separates: the runs of `a + [c] + b` are the runs of `a` followed by the runs of `b` |
| Cleaning.DigitRunsOfNumeral | src/clean_data.py:26 | a non-empty digit string is one run, whose value is its decimal value |
| Cleaning.DigitRunsAfterPrefix | src/clean_data.py:26 | digit-free text in front of a string contributes no run |
| Cleaning.ParseIgnoresTextBefore | src/clean_data.py:23-33 | digit-free text in front of the salary text does not change the parse |
| Cleaning.DigitsThen | src/clean_data.py:26 | a digit string followed by the end of the text or a non-digit is exactly the first run, with its decimal value |
| Cleaning.RangeRuns | src/clean_data.py:26-29 | in `a <gap> b <tail>`, with `a` and `b` digit strings, a non-empty digit-free gap and a tail that is empty or starts with a non-digit, the first two runs are the values of `a` and `b` |
| Cleaning.ParseRange | src/clean_data.py:23-30 | any text of the form `<digit-free prefix> a <digit-free gap> b <tail>` parses to the mean of the values of `a` and `b`, whatever numbers the tail holds |
| Cleaning.ParseTwo | src/clean_data.py:26-30 | the case of `Cleaning.ParseRange` with nothing before the first number |
| Cleaning.ParseSingle | src/clean_data.py:23-32 | any text of the form `<digit-free prefix> d <digit-free tail>` parses to the value of `d` |
| Cleaning.ParseRangeExample | src/clean_data.py:26-30 | "15-25 millions" parses to 20 |
| Cleaning.ParseIgnoresThirdNumber | src/clean_data.py:27-30 | "10-20-90" parses to 15: only the first two runs are averaged |
| Cleaning.ParseDecimalPointExample | src/clean_data.py:26-30 | "7.5" reads as the runs 7 and 5 and parses to 6 |
| Cleaning.ParseSingleExample | src/clean_data.py:31-32 | "Up to 30 millions" parses to 30: a single run is used as it is, and the words around it are ignored |
| Cleaning.ParseMissingExamples | src/clean_data.py:24-33 | "abc" and NaN both parse to missing |
| Cleaning.ExpLevel | src/clean_data.py:47-48 | the rank is present exactly for the five labels, and it lies in 1..5; any other label, or NaN, gives missing |
| Cleaning.ExpLevelOrder | src/clean_data.py:47 | Fresher, Junior, Senior, Lead and Manager rank 1, 2, 3, 4 and 5 |
| Cleaning.ExpLevelInjective | src/clean_data.py:47 | two labels with the same rank are the same label |
| Cleaning.HasSalaryAndLocation | src/clean_data.py:13 | the first drop keeps a row exactly when both Salary and Location are present |
| Cleaning.FillSkills | src/clean_data.py:17 | a missing Skills becomes "Unspecified"; a present Skills and every other column are unchanged |
| Cleaning.WithAvgSalary | src/clean_data.py:35 | Avg_Salary_Million becomes the parse of the row's Salary, and no other column changes |
| Cleaning.HasAvgSalary | src/clean_data.py:38 | the second drop keeps a row exactly when its average salary is present |
| Cleaning.LowerStrip | src/clean_data.py:42 | lower-then-strip gives the lower-cased input less its surrounding whitespace: lower-case, with no whitespace left at either end |
| Cleaning.Standardize | src/clean_data.py:42-43 | Skills becomes its lower-cased text less the surrounding whitespace, and Job Title its text less the surrounding whitespace; NaN stays NaN in both, and no other column changes |
| Cleaning.WithExpLevel | src/clean_data.py:47-48 | Exp_Level becomes the rank `exp_order` gives the Experience label, so it is present exactly for the five labels and lies in 1..5; no other column changes |
| Cleaning.CleanRow | src/clean_data.py:17-48 | the source columns (Salary, Location, Experience, Company, Posted Date) are kept; a row that survives comes out with Salary, Location and Skills present, an average salary that is the parse of its Salary, lower-case stripped Skills, stripped Job Title, and Exp_Level the rank of Experience |
| Cleaning.Clean | src/clean_data.py:13-48 | the output is no longer than the input, and every output row carries the cleaned-row guarantees |
| Cleaning.CleanRowIsTheSteps | src/clean_data.py:17-48 | one row's cleaning is the fill, parse, standardise and encode steps in the script's order; a row survives exactly when it has Salary and Location and its salary parses |
| Cleaning.StepsEqualClean | src/clean_data.py:13-48 | the six table steps (drop, fill, parse, drop, standardise, encode) equal "keep the survivors in order, clean each" |
| Cleaning.CleanData | src/clean_data.py:5-48 | the step-by-step cleaning returns the survivors in order, each cleaned; it is never longer than the input, and every output row carries the cleaned-row guarantees |
| Cleaning.CleanKeepsOrder | src/clean_data.py:13-38 | the output has one row per survivor, and the survivors are an order-preserving subsequence of the input |
| Cleaning.DroppedRowsAbsent | src/clean_data.py:13-38 | a row's cleaned form is in the output if and only if the row has Salary and Location and its salary parses |
| Cleaning.SurvivorKept | src/clean_data.py:13-38 | every surviving input row appears, cleaned, in the output |
| Cleaning.OnlySurvivorsKept | src/clean_data.py:13-38 | a row whose cleaned form is in the output had Salary, Location and a parsable salary |
| Cleaning.MissingSkillsBecomeUnspecified | src/clean_data.py:17-42 | NaN Skills end up as "unspecified": filled first, lower-cased afterwards |
| Cleaning.CleanRowIdempotent | src/clean_data.py:35-43 | a cleaned row survives again, and cleaning it again changes nothing |
| Cleaning.CleanIdempotent | src/clean_data.py:13-48 | cleaning an already-cleaned table returns it unchanged |
| Generator.LocationMultiplier | src/generate_data.py:61-62 | 1.1 exactly for Ho Chi Minh and Ha Noi, 1.05 exactly for Remote, and 0.9 for every other city |
| Generator.ClampRange | src/generate_data.py:68-69 | low becomes at least 5 and high ends above low; high is kept if it was above the clamped low, and becomes low + 5 otherwise |
| Generator.SalaryText | src/generate_data.py:71 | the cleaner reads the salary text of any non-negative range back as `(low + high) / 2` |
| Generator.GeneratedSalaryRoundTrip | src/generate_data.py:64-71 | a generated row's clamped low end is at least 5, and its salary parses back to the midpoint of its clamped range |
| Generator.JobRecord | src/generate_data.py:78-86 | a generated record survives cleaning, has no derived columns yet, and gets an experience rank exactly when its label is one of the five |
| Generator.InjectMissing | src/generate_data.py:90-91 | the table keeps its length; a Salary or Location hole empties that cell; apart from those two cells every row is unchanged |
| Generator.ExperiencesMatchRanks | src/generate_data.py:16 | the i-th generator label ranks i + 1 under the cleaner's ordinal map |
| Generator.GenerateJobsData | src/generate_data.py:42-91 | one record per draw in draw order, then NaN at the hole indices; a row survives cleaning exactly when no hole hit it; for valid draws every row is ranked and its location is NaN or one of the five cities |
| Generator.GeneratedTable | src/generate_data.py:88-91 | exactly the rows hit by a Salary or Location hole are dropped by the cleaner; for valid draws every row is ranked and located in a known city or NaN |
| Dashboard.FilterView | app.py:493-511 | prediction page: the view is the loaded table. Analysis page: a row is in the view iff it is in the table and passes location (unless "all"), inclusive salary range and any-skill substring (unless none chosen). "All", no skills and every salary in range leave the table unchanged. The view is an order-preserving subsequence |
| Dashboard.AtLocation | app.py:497 | `Location == selected` holds only for a present Location equal to the choice |
| Dashboard.InSalaryRange | app.py:500-503 | the average salary is present and within the inclusive range |
| Dashboard.HasAnySkill | app.py:511 | Skills is present and some selected skill is a substring of it |
| Dashboard.StepsCommute | app.py:496-511 | each pair of the location, salary and skill steps may run in either order with the same result, where a NaN Skills row fails the skill test (in the source it raises, so the equivalence holds on the tables `Dashboard.FilterView` accepts) |
| Dashboard.SkillMatchIsSubstring | app.py:511 | the skill test is a plain substring test, so selecting "go" keeps a "python, django" row |
| Dashboard.RowTokens | app.py:487 | a NaN row gives no token; otherwise token k is comma-separated piece k less its surrounding whitespace, one token per piece |
| Dashboard.SkillTokensOfRows | app.py:537 | a token is among the table's skill tokens iff it is a comma-split, stripped piece of some row's Skills |
| Dashboard.SkillTokens | app.py:487 | every token of the table is stripped |
| Dashboard.SkillOptions | app.py:487 | the skill options are strictly sorted (so duplicate-free), each stripped, and are exactly the table's skill tokens |
| Dashboard.LocationOptions | app.py:471-474 | the "all" entry first, then the strictly sorted locations, exactly those some row holds |
| Dashboard.InsertByCount | app.py:605 | inserting a (skill, count) pair keeps the list ordered by non-increasing count and adds exactly that pair |
| Dashboard.InsertKeepsNamesDistinct | app.py:605 | inserting a new skill keeps the skills distinct |
| Dashboard.RankByCount | app.py:605 | every given skill appears once, with its number of occurrences, in non-increasing count order |
| Dashboard.ValueCounts | app.py:605 | every token appears once with its count, counts non-increasing, and nothing else appears |
| Dashboard.TopSkills | app.py:605 | at most 10 distinct skills, each occurring in the tokens with its exact count, in non-increasing count order |
| Dashboard.TopSkillsOfView | app.py:537-605 | the chart lists at most 10 distinct skills in non-increasing count order; each is a token of some shown row and its count is its positive number of occurrences in the view |
| Dashboard.RankingPrefix | app.py:605 | the first n entries of a ranking are still a ranking of distinct skills |
| Dashboard.TopSkillsAreMostFrequent | app.py:605 | a skill missing from the top list means the list is full, and the missing skill occurs no more often than any listed one |
| Dashboard.MinSalary | app.py:477 | the minimum skips NaN, is some row's salary and is at most every salary |
| Dashboard.MaxSalary | app.py:478 | the maximum skips NaN, is some row's salary and is at least every salary |
| Dashboard.Truncate | app.py:477-478 | `int()` truncates toward zero: it rounds a non-negative value down and a negative value up, by less than 1 |
| Dashboard.DefaultSalaryRange | app.py:477-478 | the slider bounds are `int()` of the column's minimum and maximum; they are ordered, and every salary in the table lies above the lower bound minus 1 and below the upper bound plus 1 |
| Dashboard.TruncateExample | app.py:477-478 | 82.5 truncates to 82 and -2.5 to -2 |
| Dashboard.DefaultRangeCutsFractionalMaximum | app.py:477-503 | under the slider's initial range, a row stays iff its salary is at most int(max); so a row holding a fractional maximum is not shown |
| Text.DecimalValue | src/clean_data.py:28-32 | `float()` of k decimal digits is a whole number below 10^k |
| Text.NatToString | src/generate_data.py:71 | Python's decimal rendering: non-empty, digits only, no leading zero, and its decimal value is the number |
| Text.IntToString | src/generate_data.py:71 | a non-negative number renders as digits without a leading zero whose decimal value is the number; a negative one as "-" and the digits of its magnitude, again without a leading zero |
| Text.IntToStringInjective | src/generate_data.py:71 | distinct integers render as distinct strings |
| Text.Lower | src/clean_data.py:42 | `str.lower` keeps the length and maps each character to its lower case |
| Text.Strip | src/clean_data.py:42-43 | `str.strip` leaves no leading or trailing whitespace and is the input less some leading and trailing whitespace |
| Text.StripIdempotent | src/clean_data.py:42-43 | stripping a stripped string changes nothing |
| Text.StripLowerIdempotent | src/clean_data.py:42 | lower-then-strip yields a lower-case stripped string that lower-then-strip leaves unchanged |
| Text.StripKeepsLowerCase | src/clean_data.py:42 | stripping a lower-case string leaves it lower-case |
| Text.Split | app.py:487 | `str.split(",")` gives at least one piece and no piece holds a comma |
| Text.SplitJoin | app.py:487 | joining the pieces with the separator gives back the string |
| Text.SubstringIff | app.py:511 | Python's `in` on strings holds exactly when the needle is a prefix of some suffix of the haystack |
| Text.SortedUnique | app.py:487 | `sorted(set(...))`: strictly sorted, with exactly the elements of the input |
| Text.InsertSorted | app.py:487 | inserting into a strictly sorted list keeps it strictly sorted and adds exactly that element |
| Text.BelowTotal | app.py:487 | Python's string order is total: two distinct strings are ordered one way or the other |
| Text.BelowTransitive | app.py:487 | Python's string order is transitive |
| Text.BelowIrreflexive | app.py:487 | no string sorts before itself |

## Left out

- The CSV reading and writing, the prints and `df.info()`, all Streamlit UI, CSS, HTML, the logo, and caching. The dashboard's no-data path (the table is None when the cleaned file is missing) is also left out.
- Model training and the salary-prediction form, the charts, and the EDA script. This includes the mean and mode KPIs and the per-location means, which are floating-point aggregates.
- Salaries are exact reals. Python's floats would round very long digit runs; the model does not.
- `\d` and `str.lower` are restricted to ASCII here. Python also matches Unicode digits and lowers non-ASCII letters.
- Salary is taken as text. A Salary column that pandas read as numbers would first be rendered by `str()` (`15.0`).
- Generator.GenerateJobsData: the random calls are parameters. This covers the weighted choices, `uniform`, `randint` and the date offset. The weighted choices become the `Draw` values and `ValidDraw` says which draws the random calls can produce. The `df.sample(frac=0.05)` row choices become the two hole sets.
- Generator.LocationMultiplier: not connected to the salary ends. The float product `min_base * loc_mult + uniform(...)` and its `int()` truncation (src/generate_data.py:64-65) are taken as drawn integers, and the `salary_map` bases are not checked against them.
- Dashboard.FilterView: a row with NaN Skills that reaches the skill filter makes the source raise a TypeError. The model requires that no such row reaches that step. The cleaner fills NaN Skills, but NaN Skills still reach the dashboard by two routes. A Skills value of only whitespace strips to the empty string and is written to CSV as an empty field. A value such as "Null", "NAN" or "N/a" is lower-cased to one of the strings `read_csv` treats as missing. Either way the dashboard's `read_csv` (app.py:394) reads the cell back as NaN, and on such a table the source fails where the model has no counterpart.
- Dashboard.SkillOptions: NaN Skills contribute no token here. In the source they would make `sorted` raise, and the same goes for NaN locations in `Dashboard.LocationOptions`. Cleaned data has no NaN location; NaN Skills can reach the dashboard by the two routes above.
- Cleaning.CleanIdempotent: idempotence is proved for the in-memory table, not for a second run of the script on its own output file. Through the file it can fail: a whitespace-only Skills value is cleaned to "" and written as an empty field, the next run reads it as NaN (src/clean_data.py:7), fills it with "Unspecified" (line 17) and lower-cases it to "unspecified" (line 42). The same happens to a Skills value cleaned to a string such as "null" or "n/a".
- Dashboard.MinSalary: a table with no salary at all makes the source's `int(nan)` raise. The model requires some salary instead, and `Dashboard.MaxSalary` likewise.
- Dashboard.TopSkills: the order among skills with equal counts is not stated. pandas does not specify it; this model happens to list ties alphabetically.
- The unused `pattern` variable (app.py:509) has no counterpart.
