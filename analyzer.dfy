/** The script's pipeline between loading the table and writing the file:
    schema check, in-place tagging of every row, totals, highest category,
    advice and the report text. */
module Analyzer {
  import opened Wrappers
  import opened Categorizer
  import opened Aggregation
  import opened Schema
  import opened Advisor
  import opened Report

  /** The errors the pipeline raises. */
  datatype Error =
    | SchemaError(required: set<string>, found: seq<string>)
    | EmptyInput

  /** What is computed before the report is written. */
  datatype Analysis = Analysis(
    total: int,
    categoryTotals: seq<Pair>,
    highest: string,
    predictedMonthly: real,
    feedback: seq<string>)

  /** The loaded table: its column names and the two columns the analysis
      reads, plus the Category column once it has been added. */
  class Frame {
    var columns: seq<string>
    var descriptions: seq<Option<string>>
    var amounts: seq<int>
    var categories: seq<string>

    ghost predicate Valid()
      reads this
    {
      |descriptions| == |amounts|
    }

    constructor (columns: seq<string>, descriptions: seq<Option<string>>, amounts: seq<int>)
      requires |descriptions| == |amounts|
      ensures Valid()
      ensures this.columns == columns && this.descriptions == descriptions && this.amounts == amounts
      ensures this.categories == []
    {
      this.columns := columns;
      this.descriptions := descriptions;
      this.amounts := amounts;
      this.categories := [];
    }

    /** `df["Category"] = df["Description"].apply(categorize)`: every row is
        tagged with its category; the column is appended, or replaced in
        place when the table already has one. */
    method AddCategoryColumn()
      requires Valid()
      modifies this
      ensures Valid()
      ensures descriptions == old(descriptions) && amounts == old(amounts)
      ensures columns == if "Category" in old(columns) then old(columns) else old(columns) + ["Category"]
      ensures |categories| == |descriptions|
      ensures forall i :: 0 <= i < |descriptions| ==> categories[i] == Categorize(descriptions[i])
    {
      var tagged: seq<string> := [];
      for i := 0 to |descriptions|
        invariant |tagged| == i
        invariant forall j :: 0 <= j < i ==> tagged[j] == Categorize(descriptions[j])
      {
        tagged := tagged + [Categorize(descriptions[i])];
      }
      categories := tagged;
      if "Category" !in columns {
        columns := columns + ["Category"];
      }
    }
  }

  /** The analysis, in the script's order. The projection of the mean
      amount to a month (`round(mean * 30, 2)`) is floating point and is
      passed in as a function of the grand total and the row count. */
  method Analyze(frame: Frame, projection: (int, nat) -> real) returns (r: Result<Analysis, Error>)
    requires frame.Valid()
    modifies frame
    ensures frame.Valid()
    ensures !HasRequiredColumns(old(frame.columns)) ==>
              r == Failure(SchemaError(RequiredColumns, old(frame.columns))) &&
              frame.columns == old(frame.columns) && frame.categories == old(frame.categories)
    ensures HasRequiredColumns(old(frame.columns)) ==>
              frame.columns == (if "Category" in old(frame.columns) then old(frame.columns) else old(frame.columns) + ["Category"]) &&
              |frame.categories| == |frame.descriptions| &&
              forall i :: 0 <= i < |frame.descriptions| ==> frame.categories[i] == Categorize(frame.descriptions[i])
    ensures frame.descriptions == old(frame.descriptions) && frame.amounts == old(frame.amounts)
    ensures HasRequiredColumns(old(frame.columns)) && |frame.amounts| == 0 ==> r == Failure(EmptyInput)
    ensures r.Success? ==>
              HasRequiredColumns(old(frame.columns)) && |frame.amounts| > 0 &&
              r.value.total == Sum(frame.amounts) &&
              r.value.categoryTotals == CategoryTotals(frame.categories, frame.amounts) &&
              r.value.highest == IdxMax(r.value.categoryTotals) &&
              r.value.predictedMonthly == projection(r.value.total, |frame.amounts|) &&
              |r.value.feedback| == 2 &&
              (r.value.highest in CategoryAdvice ==> r.value.feedback[0] == CategoryAdvice[r.value.highest]) &&
              (r.value.highest !in CategoryAdvice ==> r.value.feedback[0] == DefaultAdvice) &&
              (r.value.feedback[1] == WarningMessage <==> r.value.predictedMonthly > Threshold) &&
              (r.value.feedback[1] == UnderControlMessage <==> r.value.predictedMonthly <= Threshold) &&
              r.value.feedback == [Tip(r.value.highest), Verdict(r.value.predictedMonthly)]
    ensures r.Success? ==>
              Total(r.value.categoryTotals) == r.value.total &&
              SortedDesc(r.value.categoryTotals) &&
              r.value.highest == r.value.categoryTotals[0].0
    ensures HasRequiredColumns(old(frame.columns)) && |frame.amounts| > 0 ==> r.Success?
  {
    if !HasRequiredColumns(frame.columns) {
      return Failure(SchemaError(RequiredColumns, frame.columns));
    }
    frame.AddCategoryColumn();
    var total := Sum(frame.amounts);
    var totals := CategoryTotals(frame.categories, frame.amounts);
    CategoryTotalsSpec(frame.categories, frame.amounts);
    if |totals| == 0 {
      assert |frame.amounts| == 0;
      return Failure(EmptyInput);
    }
    var highest := IdxMax(totals);
    IdxMaxOfSorted(totals);
    var predicted := projection(total, |frame.amounts|);
    var feedback := BuildFeedback(highest, predicted);
    r := Success(Analysis(total, totals, highest, predicted, feedback));
  }

  /** The whole run: the analysis followed by the text of the report. */
  method Run(frame: Frame, projection: (int, nat) -> real, showAmount: int -> string, showReal: real -> string)
    returns (r: Result<seq<string>, Error>)
    requires frame.Valid()
    modifies frame
    ensures frame.Valid()
    ensures frame.descriptions == old(frame.descriptions) && frame.amounts == old(frame.amounts)
    ensures !HasRequiredColumns(old(frame.columns)) ==>
              r == Failure(SchemaError(RequiredColumns, old(frame.columns))) &&
              frame.columns == old(frame.columns) && frame.categories == old(frame.categories)
    ensures HasRequiredColumns(old(frame.columns)) ==>
              frame.columns == (if "Category" in old(frame.columns) then old(frame.columns) else old(frame.columns) + ["Category"]) &&
              |frame.categories| == |frame.descriptions| &&
              forall i :: 0 <= i < |frame.descriptions| ==> frame.categories[i] == Categorize(frame.descriptions[i])
    ensures HasRequiredColumns(old(frame.columns)) && |old(frame.amounts)| == 0 ==> r == Failure(EmptyInput)
    ensures HasRequiredColumns(old(frame.columns)) && |old(frame.amounts)| > 0 ==>
              r.Success? && |frame.categories| == |frame.amounts| &&
              var totals := CategoryTotals(frame.categories, frame.amounts);
              |totals| > 0 &&
              var highest := IdxMax(totals);
              var predicted := projection(Sum(frame.amounts), |frame.amounts|);
              var n := |totals|;
              |r.value| == 6 + n + 2 &&
              r.value[0] == Banner &&
              r.value[1] == TotalLine(Sum(frame.amounts), showAmount) &&
              r.value[2] == HighestLine(highest) &&
              r.value[3] == BreakdownHeading &&
              (forall k :: 0 <= k < n ==> r.value[4 + k] == BreakdownLine(totals[k], showAmount)) &&
              r.value[4 + n] == ProjectionLine(predicted, showReal) &&
              r.value[5 + n] == SuggestionsHeading &&
              r.value[6 + n] == SuggestionLine(Tip(highest)) &&
              r.value[7 + n] == SuggestionLine(Verdict(predicted))
  {
    var a := Analyze(frame, projection);
    match a
    case Failure(e) =>
      r := Failure(e);
    case Success(v) =>
      var chunks := RenderReport(v.total, v.highest, v.categoryTotals, v.predictedMonthly,
                                 v.feedback, showAmount, showReal);
      r := Success(chunks);
  }

  /** Once every row is tagged by the categorizer, every category in the
      totals is one of the table's names. */
  lemma TaggedTotals(descriptions: seq<Option<string>>, cats: seq<string>, amounts: seq<int>, p: Pair)
    requires |cats| == |descriptions| == |amounts|
    requires forall i :: 0 <= i < |descriptions| ==> cats[i] == Categorize(descriptions[i])
    requires p in CategoryTotals(cats, amounts)
    ensures p.0 in Names(CategoryTable)
  {
    CategoryTotalsSpec(cats, amounts);
    assert p.0 in Keys(CategoryTotals(cats, amounts));
    var i :| 0 <= i < |cats| && cats[i] == p.0;
    assert cats[i] == Categorize(descriptions[i]);
  }
}
