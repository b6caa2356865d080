/** The required-column check run on the loaded table before any analysis. */
module Schema {

  /** The columns the analysis needs. */
  const RequiredColumns: set<string> := {"Description", "Amount"}

  /** `required_columns.issubset(df.columns)`. */
  function HasRequiredColumns(columns: seq<string>): (ok: bool)
    ensures ok <==> "Description" in columns && "Amount" in columns
  {
    RequiredColumns <= set c | c in columns
  }

  /** The check depends only on which columns are present, not on their
      order or on how often they repeat. */
  lemma {:induction false} SchemaOrderIndependent(columns: seq<string>, others: seq<string>)
    requires forall c :: c in columns <==> c in others
    ensures HasRequiredColumns(columns) == HasRequiredColumns(others)
  {
    assert "Description" in columns <==> "Description" in others;
    assert "Amount" in columns <==> "Amount" in others;
  }

  /** Extra columns never make a passing table fail, in any position. */
  lemma SchemaExtraColumns(before: seq<string>, columns: seq<string>, after: seq<string>)
    ensures HasRequiredColumns(columns) ==> HasRequiredColumns(before + columns + after)
  {
    if HasRequiredColumns(columns) {
      assert "Description" in before + columns + after;
      assert "Amount" in before + columns + after;
    }
  }
}
