/** The advisor: a canned tip for the highest-spending category and a
    second message chosen by a strict threshold on the projected month. */
module Advisor {
  import Categorizer

  /** The projected monthly spend above which the warning is given. */
  const Threshold: real := 10000.0

  /** The tip for each keyword-bearing category. */
  const CategoryAdvice: map<string, string> := map[
    "Food" := "You are spending the most on food. Try cooking more often!",
    "Shopping" := "Your shopping expenses are high. Try reducing impulse buys.",
    "Entertainment" := "Entertainment is taking a major share. Cut unused subscriptions.",
    "Transport" := "Transport spending is high. Consider shared rides or public transport.",
    "Utilities" := "Utility bills seem heavy. Review usage or switch cheaper plans."
  ]

  /** The tip for a category the advice table does not know. */
  const DefaultAdvice: string := "You are spending wisely!"

  const WarningMessage: string := "\U{26A0} Warning: You may cross \U{20B9}10,000 this month!"

  const UnderControlMessage: string := "\U{2714} Spending is under control. Keep it up!"

  /** The first message: the tip for the category, or the default one. */
  function Tip(category: string): string {
    if category in CategoryAdvice then CategoryAdvice[category] else DefaultAdvice
  }

  /** The second message: the warning strictly above the threshold, the
      reassurance otherwise. */
  function Verdict(predictedMonthly: real): string {
    if predictedMonthly > Threshold then WarningMessage else UnderControlMessage
  }

  /** Builds the feedback list by appending the category tip, then the
      threshold message. */
  method BuildFeedback(highest: string, predictedMonthly: real) returns (feedback: seq<string>)
    ensures |feedback| == 2
    ensures highest in CategoryAdvice ==> feedback[0] == CategoryAdvice[highest]
    ensures highest !in CategoryAdvice ==> feedback[0] == DefaultAdvice
    ensures feedback[1] == WarningMessage <==> predictedMonthly > Threshold
    ensures feedback[1] == UnderControlMessage <==> predictedMonthly <= Threshold
    ensures feedback == [Tip(highest), Verdict(predictedMonthly)]
  {
    feedback := [];
    feedback := feedback + [Tip(highest)];
    if predictedMonthly > Threshold {
      feedback := feedback + [WarningMessage];
    } else {
      feedback := feedback + [UnderControlMessage];
    }
  }

  /** The advice table covers exactly the keyword-bearing categories of the
      category table, so only the fallback category gets the default tip. */
  lemma AdviceCoversCategories()
    ensures forall i :: 0 <= i < |Categorizer.CategoryTable| - 1 ==>
              Categorizer.CategoryTable[i].name in CategoryAdvice
    ensures Categorizer.Other !in CategoryAdvice
    ensures forall k :: k in CategoryAdvice ==> k in Categorizer.Names(Categorizer.CategoryTable)
  {
    var names := Categorizer.Names(Categorizer.CategoryTable);
    assert names == ["Food", "Transport", "Utilities", "Shopping", "Entertainment", "Other"];
  }

  /** Every tip differs from the default one and from the other tips. */
  lemma AdviceDistinct()
    ensures forall k :: k in CategoryAdvice ==> CategoryAdvice[k] != DefaultAdvice
    ensures forall k, l :: k in CategoryAdvice && l in CategoryAdvice && k != l ==>
              CategoryAdvice[k] != CategoryAdvice[l]
  {
  }
}
