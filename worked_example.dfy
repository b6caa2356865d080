/** A worked example: three transactions, their categories and the
    aggregates computed from them. */
module WorkedExample {
  import opened Wrappers
  import opened Categorizer
  import opened CategorizerFacts
  import opened Aggregation

  /** The three descriptions are tagged Food, Transport and Other. */
  lemma ExampleTags()
    ensures Categorize(Some("Zomato order")) == "Food"
    ensures Categorize(Some("Uber ride")) == "Transport"
    ensures Categorize(Some("Unknown shop")) == "Other"
  {
    ExampleFoodOrder();
    ExampleRide();
    ExampleUnknownShop();
  }

  /** With those tags and amounts 500, 200 and 100 the total is 800, the
      category totals are 500, 200, 100 in that order, and Food is the
      highest category. */
  lemma ExampleAnalysis()
    ensures Sum([500, 200, 100]) == 800
    ensures CategoryTotals(["Food", "Transport", "Other"], [500, 200, 100]) ==
            [("Food", 500), ("Transport", 200), ("Other", 100)]
    ensures IdxMax(CategoryTotals(["Food", "Transport", "Other"], [500, 200, 100])) == "Food"
  {
    GroupsExample();
    SortExample();
    var totals := CategoryTotals(["Food", "Transport", "Other"], [500, 200, 100]);
    assert totals == [("Food", 500), ("Transport", 200), ("Other", 100)];
    SortDescSpec(Groups(["Food", "Transport", "Other"], [500, 200, 100]));
    IdxMaxOfSorted(totals);
  }

  /** The groups of the example, built row by row from the last row. */
  lemma GroupsExample()
    ensures Groups(["Food", "Transport", "Other"], [500, 200, 100]) ==
            [("Other", 100), ("Transport", 200), ("Food", 500)]
  {
    var cs: seq<string> := ["Food", "Transport", "Other"];
    var ams := [500, 200, 100];
    assert cs[1..] == ["Transport", "Other"] && ams[1..] == [200, 100];
    assert cs[1..][1..] == ["Other"] && ams[1..][1..] == [100];
    assert Groups(["Other"], [100]) == AddTo([], "Other", 100) == [("Other", 100)];
    assert Groups(["Transport", "Other"], [200, 100]) == AddTo([("Other", 100)], "Transport", 200);
    assert AddTo([("Other", 100)], "Transport", 200) == [("Other", 100), ("Transport", 200)];
    assert AddTo([("Other", 100), ("Transport", 200)], "Food", 500) ==
           [("Other", 100)] + AddTo([("Transport", 200)], "Food", 500);
  }

  /** Sorting the example groups puts Food first and Other last. */
  lemma SortExample()
    ensures SortDesc([("Other", 100), ("Transport", 200), ("Food", 500)]) ==
            [("Food", 500), ("Transport", 200), ("Other", 100)]
  {
    var g: seq<Pair> := [("Other", 100), ("Transport", 200), ("Food", 500)];
    assert g[1..] == [("Transport", 200), ("Food", 500)];
    assert g[1..][1..] == [("Food", 500)];
    assert SortDesc([("Food", 500)]) == [("Food", 500)];
    assert SortDesc([("Transport", 200), ("Food", 500)]) == Insert(("Transport", 200), [("Food", 500)]);
    assert Insert(("Transport", 200), [("Food", 500)]) == [("Food", 500), ("Transport", 200)];
    assert Insert(("Other", 100), [("Food", 500), ("Transport", 200)]) ==
           [("Food", 500)] + Insert(("Other", 100), [("Transport", 200)]);
  }
}
