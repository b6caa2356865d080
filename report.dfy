/** The text of the report file, as the sequence of chunks the script
    writes. How numbers are turned into text is left to the caller. */
module Report {
  import opened Aggregation

  const Banner: string := "******** SMART EXPENSE ANALYZER REPORT ********\n\n"
  const BreakdownHeading: string := "----- Category Wise Breakdown -----\n"
  const SuggestionsHeading: string := "----- AI Suggestions -----\n"
  const Rupee: string := "\U{20B9}"

  /** `f"{s:15}"` with width `w`: left-aligned, padded with spaces, never cut. */
  function Pad(s: string, w: nat): (r: string)
    ensures |r| == if |s| < w then w else |s|
    ensures r[..|s|] == s
    ensures forall i :: |s| <= i < |r| ==> r[i] == ' '
  {
    if |s| < w then s + seq(w - |s|, _ => ' ') else s
  }

  /** The line with the grand total. */
  function TotalLine(total: int, showAmount: int -> string): string {
    "Total Spent: " + Rupee + showAmount(total) + "\n"
  }

  /** The line naming the highest category, followed by a blank line. */
  function HighestLine(highest: string): string {
    "Highest Spending Category: " + highest + "\n\n"
  }

  /** The projected monthly expense, between blank lines. */
  function ProjectionLine(predictedMonthly: real, showReal: real -> string): string {
    "\nPredicted Monthly Expense: " + Rupee + showReal(predictedMonthly) + "\n\n"
  }

  /** One line of the category breakdown. */
  function BreakdownLine(p: Pair, showAmount: int -> string): string {
    Pad(p.0, 15) + " : " + Rupee + showAmount(p.1) + "\n"
  }

  /** One line of the suggestions section. */
  function SuggestionLine(tip: string): string {
    "- " + tip + "\n"
  }

  /** Writes the report chunk by chunk: the heading lines, one breakdown
      line per category in the order of `totals`, the projection, and one
      bullet per advice string in order. */
  method RenderReport(total: int, highest: string, totals: seq<Pair>, predictedMonthly: real,
                      feedback: seq<string>, showAmount: int -> string, showReal: real -> string)
    returns (chunks: seq<string>)
    ensures |chunks| == 6 + |totals| + |feedback|
    ensures chunks[0] == Banner
    ensures chunks[1] == TotalLine(total, showAmount)
    ensures chunks[2] == HighestLine(highest)
    ensures chunks[3] == BreakdownHeading
    ensures forall k :: 0 <= k < |totals| ==> chunks[4 + k] == BreakdownLine(totals[k], showAmount)
    ensures chunks[4 + |totals|] == ProjectionLine(predictedMonthly, showReal)
    ensures chunks[5 + |totals|] == SuggestionsHeading
    ensures forall k :: 0 <= k < |feedback| ==> chunks[6 + |totals| + k] == SuggestionLine(feedback[k])
  {
    chunks := [Banner];
    chunks := chunks + [TotalLine(total, showAmount)];
    chunks := chunks + [HighestLine(highest)];
    chunks := chunks + [BreakdownHeading];
    for k := 0 to |totals|
      invariant |chunks| == 4 + k
      invariant chunks[0] == Banner
      invariant chunks[1] == TotalLine(total, showAmount)
      invariant chunks[2] == HighestLine(highest)
      invariant chunks[3] == BreakdownHeading
      invariant forall j :: 0 <= j < k ==> chunks[4 + j] == BreakdownLine(totals[j], showAmount)
    {
      chunks := chunks + [BreakdownLine(totals[k], showAmount)];
    }
    chunks := chunks + [ProjectionLine(predictedMonthly, showReal)];
    chunks := chunks + [SuggestionsHeading];
    ghost var head := chunks;
    for k := 0 to |feedback|
      invariant |chunks| == 6 + |totals| + k
      invariant chunks[..6 + |totals|] == head
      invariant forall j :: 0 <= j < k ==> chunks[6 + |totals| + j] == SuggestionLine(feedback[j])
    {
      chunks := chunks + [SuggestionLine(feedback[k])];
    }
  }

  /** A breakdown line begins with the category name, padded with spaces
      to width 15. */
  lemma BreakdownNamesCategory(p: Pair, showAmount: int -> string)
    ensures BreakdownLine(p, showAmount)[..|p.0|] == p.0
    ensures |p.0| < 15 ==> BreakdownLine(p, showAmount)[|p.0|..15] == seq(15 - |p.0|, _ => ' ')
  {
    var padded := Pad(p.0, 15);
    assert BreakdownLine(p, showAmount) == padded + (" : " + Rupee + showAmount(p.1) + "\n");
    assert BreakdownLine(p, showAmount)[..|padded|] == padded;
  }
}
