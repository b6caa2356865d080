# Smart Expense Analyzer — verified model of the analysis pipeline

The analyzer is a single script. It reads a table of transactions with a
`Description` and an `Amount` column and checks that both columns are present.
It tags every row with a spending category by keyword matching, then computes
the grand total, the per-category totals in descending order and the
highest-spending category. Finally it writes a text report with two pieces of
advice: a tip for the highest category, and a warning or a reassurance
depending on the projected monthly spend.

This project models everything between loading the table and writing the file,
and proves what the script promises:

- **Categorizer** (`text.dfy`, `categorizer.dfy`). The ordered category table
  has Food, Transport, Utilities, Shopping and Entertainment, each with
  lower-case keywords, and then the keyword-less `Other`. A missing description
  is `Other`. Otherwise the description is lower-cased and the first category,
  in table order, with a keyword occurring as a substring is returned. Proved:
  - the result is always one of the six names;
  - a keyword-bearing category is returned exactly when it is the first
    matching entry;
  - `Other` is returned exactly when nothing matches;
  - an earlier match beats any later category, so Food beats Shopping;
  - case does not matter, and the empty text is `Other`;
  - worked examples.
- **Schema check** (`schema.dfy`). The check passes exactly when both required
  columns are present. Column order, repeats and extra columns do not matter.
- **Aggregation** (`aggregation.dfy`). The grand total, the group-by sums, the
  descending sort and `idxmax`. Proved:
  - the totals are sorted non-increasingly and list each category once;
  - a category appears exactly when some row maps to it;
  - each total is the sum of that category's rows;
  - the totals add up to the grand total (conservation);
  - the highest category's total is at least every category's total.
- **Advisor** (`advisor.dfy`). The feedback list always holds exactly two
  messages. The first is the category's tip, or "You are spending wisely!" for
  a category without one: only `Other` lacks one. The second is the warning
  exactly when the projection is strictly above 10000.
- **Report text** (`report.dfy`). The chunks the script writes, in order. The
  breakdown follows the order of the category totals and the suggestions follow
  the order of the feedback. Number-to-text conversion is passed in.
- **Pipeline** (`analyzer.dfy`). The table is a `Frame` object whose `Category`
  column is added in place. `Analyze` runs the stages in the script's order and
  raises the schema error, or the empty-input error that `idxmax` raises on an
  empty table. `Run` adds the report text.
- **Worked example** (`worked_example.dfy`). Three rows: "Zomato order" 500,
  "Uber ride" 200 and "Unknown shop" 100. They have categories Food, Transport
  and Other, the total is 800, the totals are ordered 500, 200, 100, and the
  highest category is Food.

Modelling choices:
- Amounts are integers.
- A description is `Option<string>`; `None` stands for a missing (NaN) cell.
- `str.lower` is modelled as ASCII lower-casing.
- The projected monthly figure `round(mean * 30, 2)` is floating point. It is
  passed in as a function of the grand total and the row count.

The code raises no dedicated error for an empty table: `idxmax` fails on the
empty series. The model returns `EmptyInput` at that same point, after the
schema check and the tagging.

## Model

| member | source | states |
|---|---|---|
| `Text.Lower` | code.py:31 | the lower-cased text has the same length, and each character is the lower-case form of the character at the same position |
| `Text.LowerIdempotent` | code.py:31 | lower-casing an already lower-cased text changes nothing |
| `Text.LowerIsLower` | code.py:31 | the lower-cased text has no upper-case letter, and a lower-case text is its own lower-case form |
| `Text.Contains` | code.py:33 | no contract of its own; `Text.ContainsAt` states it |
| `Text.ContainsAt` | code.py:33 | `keyword in text` holds exactly when the keyword occurs at some position of the text |
| `Text.ContainsWitness` | code.py:33 | an occurrence at a position makes `keyword in text` true |
| `Text.EmptyContainsNothing` | code.py:33 | the empty text contains no non-empty keyword |
| `Categorizer.Matches` | code.py:33 | no contract of its own; `CategorizerFacts.CategorizeIsFirstMatch` and `CategorizerFacts.CategorizeOtherIff` state it |
| `Categorizer.FirstMatch` | code.py:32-35 | no contract of its own; `Categorizer.FirstMatchSpec` states it |
| `Categorizer.Categorize` | code.py:28-35 | the result is always one of the six table names; a missing description gives "Other" |
| `Categorizer.FirstMatchSpec` | code.py:32-35 | the table scan returns the name of the first entry with a matching keyword, or "Other" when no entry matches |
| `CategorizerFacts.TableShape` | code.py:18-25 | the six category names are distinct and the last entry is "Other" with no keywords |
| `CategorizerFacts.KeywordsLower` | code.py:19-23 | every keyword is non-empty and lower-case |
| `CategorizerFacts.CategorizeIsFirstMatch` | code.py:31-34 | a keyword-bearing category is returned if and only if it is the first table entry whose keyword occurs in the lower-cased description |
| `CategorizerFacts.CategorizeOtherIff` | code.py:32-35 | "Other" is returned if and only if no keyword of any category occurs in the lower-cased description |
| `CategorizerFacts.CategorizePriority` | code.py:18-25 | when an entry's keyword occurs, no later entry is returned: Food beats Transport, Utilities, Shopping and Entertainment, and so on down the table |
| `CategorizerFacts.CategorizeCaseInsensitive` | code.py:31 | a description and its lower-cased form get the same category |
| `CategorizerFacts.CategorizeRespectsCase` | code.py:31 | descriptions that differ only in letter case get the same category |
| `CategorizerFacts.CategorizeEmpty` | code.py:28-35 | the empty description is "Other" |
| `CategorizerFacts.ExampleFoodOrder` | code.py:19 | "Zomato order" is Food |
| `CategorizerFacts.ExampleFoodBeatsShopping` | code.py:32-34 | "Pizza from AMAZON" matches a Food keyword and a Shopping keyword and is Food |
| `CategorizerFacts.MissingCharExcludes` | code.py:33 | a keyword with a character the text lacks does not occur in it |
| `CategorizerFacts.EntryExcluded` | code.py:33 | an entry does not match when each of its keywords has a character the text lacks |
| `CategorizerFacts.LackingLettersMatchesNothing` | code.py:18-25 | a text without the letters a b c d e f g i l m r t z matches no category |
| `CategorizerFacts.LackingFoodLetters` | code.py:19 | a text without the letters f, h, p, s and z matches no Food keyword |
| `CategorizerFacts.ExampleRide` | code.py:20 | "Uber ride" is Transport: no Food keyword occurs and "uber" does |
| `CategorizerFacts.ExampleUnknownShop` | code.py:22 | "Unknown shop" is "Other": "shop" alone is not the keyword "shopping" |
| `Schema.HasRequiredColumns` | code.py:44-45 | the check passes if and only if both "Description" and "Amount" are among the column names |
| `Schema.SchemaOrderIndependent` | code.py:44-45 | two column lists with the same names pass or fail together, whatever their order or repeats |
| `Schema.SchemaExtraColumns` | code.py:44-45 | adding extra columns before or after never makes a passing table fail |
| `Aggregation.Sum` | code.py:54 | no contract of its own; `Aggregation.CategoryTotalsSpec` relates it to the category totals |
| `Aggregation.Groups` | code.py:55 | no contract of its own; `Aggregation.GroupsSpec` states it |
| `Aggregation.SortDesc` | code.py:55 | no contract of its own; `Aggregation.SortDescSpec` states it |
| `Aggregation.CategoryTotals` | code.py:55 | no contract of its own; `Aggregation.CategoryTotalsSpec` states it |
| `Aggregation.SumWhereAbsent` | code.py:55 | a category no row maps to sums to 0 |
| `Aggregation.AddToTotal` | code.py:55 | adding a row to the groups increases their total by its amount |
| `Aggregation.AddToMembers` | code.py:55 | adding a row raises its category's sum by its amount and keeps every other group |
| `Aggregation.AddToKeys` | code.py:55 | adding a row adds its category to the groups and no other |
| `Aggregation.AddToDistinct` | code.py:55 | adding a row keeps one group per category |
| `Aggregation.GroupsSpec` | code.py:54-55 | the groups have one pair per category that occurs in the rows and none for any other, each pair holds that category's sum, and the pairs add up to the sum of all amounts |
| `Aggregation.InsertMembers` | code.py:55 | inserting into the sorted list adds exactly the inserted pair |
| `Aggregation.InsertPermutes` | code.py:55 | inserting adds the pair to the multiset of pairs |
| `Aggregation.InsertTotal` | code.py:55 | inserting adds the pair's amount to the total |
| `Aggregation.InsertSorted` | code.py:55 | inserting into a descending list keeps it descending |
| `Aggregation.InsertDistinct` | code.py:55 | inserting a pair of a new category keeps the categories distinct |
| `Aggregation.SortDescSpec` | code.py:55 | the descending sort orders the pairs non-increasingly, is a permutation, and keeps the total |
| `Aggregation.SortDescDistinct` | code.py:55 | sorting keeps the categories distinct |
| `Aggregation.PermutationKeys` | code.py:55 | a permutation of the pairs holds the same pairs and categories |
| `Aggregation.CategoryTotalsSpec` | code.py:51-55 | the category totals are sorted non-increasingly, list each category once, list a category exactly when some row maps to it, hold each category's sum, and add up to the grand total |
| `Aggregation.ArgMax` | code.py:58 | idxmax gives a position whose amount is at least every amount, and every earlier amount is strictly smaller |
| `Aggregation.IdxMax` | code.py:58 | the highest category is one of the listed categories and its amount is at least every listed amount |
| `Aggregation.IdxMaxOfSorted` | code.py:55-58 | on the descending totals, idxmax is the first category |
| `Aggregation.HighestOccurs` | code.py:55-58 | for non-empty input the highest category is one some row maps to |
| `Aggregation.HighestIsMaximal` | code.py:55-58 | the highest category's sum is at least the sum of every category some row maps to |
| `Advisor.Tip` | code.py:75 | no contract of its own; `Advisor.BuildFeedback` and `Advisor.AdviceCoversCategories` state it |
| `Advisor.Verdict` | code.py:77-80 | no contract of its own; `Advisor.BuildFeedback` states it |
| `Advisor.BuildFeedback` | code.py:65-80 | exactly two messages: first the category's tip, or "You are spending wisely!" when the category has none; second the warning if and only if the projection is strictly above 10000, else the reassurance |
| `Advisor.AdviceCoversCategories` | code.py:67-75 | the advice table has a tip for every keyword-bearing category and none for "Other", and its keys are table names |
| `Advisor.AdviceDistinct` | code.py:67-75 | the tips differ from each other and from the default message |
| `Report.Pad` | code.py:90 | a name padded to width 15 is left-aligned, filled with spaces, and never cut |
| `Report.RenderReport` | code.py:83-96 | the chunks come in the script's order: banner, total, highest category, heading, one breakdown line per category in the order of the totals, projection, heading, one bullet per advice string in order |
| `Report.BreakdownNamesCategory` | code.py:90 | each breakdown line begins with the category name, padded with spaces to 15 characters |
| `Analyzer.Frame.AddCategoryColumn` | code.py:51 | every row is tagged with its description's category; the column is appended, or replaced when already present; the other columns are unchanged |
| `Analyzer.Analyze` | code.py:44-80 | a missing required column gives the schema error with the required and found columns and leaves the table untouched; an empty table gives the empty-input error; otherwise the result holds the grand total, the sorted category totals, which add up to it, the first of them as the highest category, the projection, and the two feedback messages (the tip or the default, then the warning above 10000 and the reassurance at or below it); once the schema check passes the `Category` column is added to the column names, or kept when already present |
| `Analyzer.Run` | code.py:44-96 | the same errors and the same table changes as the analysis: descriptions and amounts unchanged, and after a passing schema check the `Category` column added with one categorizer tag per row; on success, the report text in order: the banner, the grand total of the amounts, the highest category, one breakdown line per category in descending order of its total, the projection, and the two advice bullets (the highest category's tip or the default, then the warning or the reassurance) |
| `Analyzer.TaggedTotals` | code.py:51-55 | once every row is tagged by the categorizer, every category in the totals is one of the six table names |
| `WorkedExample.ExampleTags` | code.py:18-35 | the three example descriptions are Food, Transport and Other |
| `WorkedExample.GroupsExample` | code.py:55 | the groups of the example rows are Other 100, Transport 200, Food 500 |
| `WorkedExample.SortExample` | code.py:55 | sorting the example groups gives Food 500, Transport 200, Other 100 |
| `WorkedExample.ExampleAnalysis` | code.py:54-58 | the example totals 800, its category totals are Food 500, Transport 200, Other 100, and Food is the highest category |

## Left out

- File-existence check and path construction (code.py:5-15): filesystem I/O.
- Reading the CSV and wrapping its exceptions (code.py:38-41): a foreign library call. The model starts from the loaded column names and rows.
- Mean and rounding (code.py:61-62): floating point. `Analyzer.Analyze` takes the projection as a function of the grand total and the row count.
- Opening, writing and closing the report file, and the console message (code.py:83, 98): I/O. `Report.RenderReport` produces the chunks the file receives.
- Report.RenderReport: pandas/NumPy stringification of numbers cannot be read here, so it is passed in as two functions.
- Unicode lower-casing: `str.lower` is modelled as ASCII lower-casing. A non-ASCII character that Python lower-cases to an ASCII letter (for example the Kelvin sign, which becomes `k`) can make a keyword match in the script and not in the model.
- Descriptions that are neither missing nor text, such as a numeric cell: the script fails on `.lower()` for them, and the model's descriptions are always text or missing.
- Amounts are integers. Fractional amounts and missing amounts (which pandas skips when summing) are not modelled. Integer width is not modelled either: pandas sums an int64 `Amount` column with silent wrap-around at 2^63, while the model's unbounded `Sum`, `Groups` and `CategoryTotals` never wrap.
- Duplicate column names, which pandas renames on loading, are not modelled.
- Analyzer.Analyze: among categories with equal totals the model fixes the insertion sort's order. pandas' default sort is not stable, so its order among ties, and with it the highest category when the top totals tie, is not modelled. `Aggregation.CategoryTotalsSpec`, `Aggregation.HighestOccurs` and `Aggregation.HighestIsMaximal` state only what holds for any order among ties.
- Analyzer.Run: its report inherits the same order among tied totals, so the breakdown order among ties and the highest-category line when the top totals tie follow the model's sort, not pandas'.
