/** The keyword categorizer: the fixed, ordered category table and the
    function that assigns a description the first category one of whose
    keywords occurs in it. */
module Categorizer {
  import opened Wrappers
  import opened Text

  /** One row of the category table: a category name and its keywords. */
  datatype Entry = Entry(name: string, keywords: seq<string>)

  /** The fallback category, returned when nothing matches. */
  const Other: string := "Other"

  const FoodEntry: Entry := Entry("Food", ["swiggy", "zomato", "pizza", "hotel", "restaurant", "food"])
  const TransportEntry: Entry := Entry("Transport", ["uber", "ola", "bus", "train", "petrol", "diesel"])
  const UtilitiesEntry: Entry := Entry("Utilities", ["electricity", "water", "recharge", "gas", "internet", "wifi"])
  const ShoppingEntry: Entry := Entry("Shopping", ["amazon", "flipkart", "shopping", "store", "mall"])
  const EntertainmentEntry: Entry := Entry("Entertainment", ["netflix", "spotify", "movie", "gaming", "cinema"])
  const OtherEntry: Entry := Entry(Other, [])

  /** The category table, in declaration order; the order decides which
      category wins when a description matches several. */
  const CategoryTable: seq<Entry> :=
    [FoodEntry, TransportEntry, UtilitiesEntry, ShoppingEntry, EntertainmentEntry, OtherEntry]

  /** The category names of a table, in order. */
  function Names(table: seq<Entry>): (r: seq<string>)
    ensures |r| == |table|
    ensures forall i :: 0 <= i < |table| ==> r[i] == table[i].name
  {
    seq(|table|, i requires 0 <= i < |table| => table[i].name)
  }

  /** `any(keyword in text for keyword in e.keywords)`. */
  predicate Matches(e: Entry, text: string) {
    exists i :: 0 <= i < |e.keywords| && Contains(text, e.keywords[i])
  }

  /** Entry `i` matches `text` and no earlier entry does. */
  predicate IsFirstMatch(table: seq<Entry>, text: string, i: int) {
    0 <= i < |table| && Matches(table[i], text) &&
    forall j :: 0 <= j < i ==> !Matches(table[j], text)
  }

  /** No entry of the table matches `text`. */
  predicate NoMatch(table: seq<Entry>, text: string) {
    forall j :: 0 <= j < |table| ==> !Matches(table[j], text)
  }

  /** The scan over the table with an early return: the name of the first
      matching entry, or the fallback when none matches. */
  function FirstMatch(table: seq<Entry>, text: string): string
  {
    if table == [] then Other
    else if Matches(table[0], text) then table[0].name
    else FirstMatch(table[1..], text)
  }

  /** The scan returns the name of the first matching entry, or the
      fallback exactly when no entry matches. */
  lemma {:induction false} FirstMatchSpec(table: seq<Entry>, text: string)
    ensures (exists i :: IsFirstMatch(table, text, i) && FirstMatch(table, text) == table[i].name) ||
            (NoMatch(table, text) && FirstMatch(table, text) == Other)
  {
    if table != [] && !Matches(table[0], text) {
      FirstMatchSpec(table[1..], text);
      if exists i :: IsFirstMatch(table[1..], text, i) && FirstMatch(table[1..], text) == table[1..][i].name {
        var i :| IsFirstMatch(table[1..], text, i) && FirstMatch(table[1..], text) == table[1..][i].name;
        assert IsFirstMatch(table, text, i + 1);
      } else {
        assert NoMatch(table, text) by {
          forall j | 0 <= j < |table|
            ensures !Matches(table[j], text)
          {
            if j > 0 { assert table[j] == table[1..][j - 1]; }
          }
        }
      }
    } else if table != [] {
      assert IsFirstMatch(table, text, 0);
    }
  }

  /** At most one entry is the first match. */
  lemma FirstMatchUnique(table: seq<Entry>, text: string, i: int, j: int)
    requires IsFirstMatch(table, text, i) && IsFirstMatch(table, text, j)
    ensures i == j
  {
  }

  /** The categorizer: a missing description is "Other" without any scan;
      otherwise the lower-cased text is scanned against the table. */
  function Categorize(description: Option<string>): (c: string)
    ensures c in Names(CategoryTable)
    ensures description.None? ==> c == Other
  {
    assert Names(CategoryTable)[|CategoryTable| - 1] == Other;
    match description
    case None => Other
    case Some(d) =>
      FirstMatchSpec(CategoryTable, Lower(d));
      FirstMatch(CategoryTable, Lower(d))
  }
}

module CategorizerFacts {
  import opened Wrappers
  import opened Text
  import opened Categorizer

  /** The table's names are distinct and its last entry is the
      keyword-less fallback. */
  lemma TableShape()
    ensures forall i, j :: 0 <= i < j < |CategoryTable| ==> CategoryTable[i].name != CategoryTable[j].name
    ensures CategoryTable[|CategoryTable| - 1] == Entry(Other, [])
  {
  }

  /** Every keyword is a non-empty lower-case string. */
  lemma KeywordsLower()
    ensures forall i, k :: 0 <= i < |CategoryTable| && 0 <= k < |CategoryTable[i].keywords| ==>
              |CategoryTable[i].keywords[k]| > 0 && IsLower(CategoryTable[i].keywords[k])
  {
  }

  /** A keyword-bearing category is chosen exactly when it is the first
      entry of the table whose keywords occur in the lower-cased text. */
  lemma CategorizeIsFirstMatch(d: string, i: int)
    requires 0 <= i < |CategoryTable| - 1
    ensures Categorize(Some(d)) == CategoryTable[i].name <==> IsFirstMatch(CategoryTable, Lower(d), i)
  {
    TableShape();
    FirstMatchSpec(CategoryTable, Lower(d));
    if IsFirstMatch(CategoryTable, Lower(d), i) {
      if exists j :: IsFirstMatch(CategoryTable, Lower(d), j) && Categorize(Some(d)) == CategoryTable[j].name {
        var j :| IsFirstMatch(CategoryTable, Lower(d), j) && Categorize(Some(d)) == CategoryTable[j].name;
        FirstMatchUnique(CategoryTable, Lower(d), i, j);
      }
    }
  }

  /** The fallback is returned exactly when no keyword of any category
      occurs in the lower-cased text. */
  lemma CategorizeOtherIff(d: string)
    ensures Categorize(Some(d)) == Other <==> NoMatch(CategoryTable, Lower(d))
  {
    TableShape();
    FirstMatchSpec(CategoryTable, Lower(d));
  }

  /** Priority: when the keywords of entry `i` occur in the text, no later
      entry is chosen; a description with a food and a shopping keyword is
      therefore food. */
  lemma CategorizePriority(d: string, i: int, j: int)
    requires 0 <= i < j < |CategoryTable|
    requires Matches(CategoryTable[i], Lower(d))
    ensures Categorize(Some(d)) != CategoryTable[j].name
  {
    TableShape();
    FirstMatchSpec(CategoryTable, Lower(d));
  }

  /** Case does not matter: a description and its lower-cased form land in
      the same category. */
  lemma CategorizeCaseInsensitive(d: string)
    ensures Categorize(Some(d)) == Categorize(Some(Lower(d)))
  {
    LowerIdempotent(d);
  }

  /** Descriptions that lower-case to the same text land in the same category. */
  lemma CategorizeRespectsCase(d1: string, d2: string)
    requires Lower(d1) == Lower(d2)
    ensures Categorize(Some(d1)) == Categorize(Some(d2))
  {
  }

  /** The empty description falls to the fallback. */
  lemma CategorizeEmpty()
    ensures Categorize(Some("")) == Other
  {
    KeywordsLower();
    forall i | 0 <= i < |CategoryTable|
      ensures !Matches(CategoryTable[i], Lower(""))
    {
      forall k | 0 <= k < |CategoryTable[i].keywords|
        ensures !Contains(Lower(""), CategoryTable[i].keywords[k])
      {
        EmptyContainsNothing(CategoryTable[i].keywords[k]);
      }
    }
    CategorizeOtherIff("");
  }

  /** A description naming a food delivery service is food. */
  lemma ExampleFoodOrder()
    ensures Categorize(Some("Zomato order")) == "Food"
  {
    var text := Lower("Zomato order");
    assert text == "zomato order";
    assert OccursAt(text, "zomato", 0);
    ContainsWitness(text, "zomato", 0);
    assert CategoryTable[0].keywords[1] == "zomato";
    assert IsFirstMatch(CategoryTable, text, 0);
    CategorizeIsFirstMatch("Zomato order", 0);
  }

  /** A description with both a food keyword and a shopping keyword is food. */
  lemma ExampleFoodBeatsShopping()
    ensures Categorize(Some("Pizza from AMAZON")) == "Food"
  {
    var text := Lower("Pizza from AMAZON");
    assert text == "pizza from amazon";
    assert OccursAt(text, "pizza", 0);
    ContainsWitness(text, "pizza", 0);
    assert OccursAt(text, "amazon", 11);
    ContainsWitness(text, "amazon", 11);
    assert CategoryTable[0].keywords[2] == "pizza";
    assert CategoryTable[3].keywords[0] == "amazon";
    assert Matches(CategoryTable[3], text);
    assert IsFirstMatch(CategoryTable, text, 0);
    CategorizeIsFirstMatch("Pizza from AMAZON", 0);
  }

  /** A keyword with a character the text lacks does not occur in it. */
  lemma MissingCharExcludes(text: string, k: string, c: char)
    requires c in k && c !in text
    ensures !Contains(text, k)
  {
    ContainsAt(text, k);
  }

  /** An entry does not match when each of its keywords has a character,
      given by `missing`, that the text lacks. */
  lemma EntryExcluded(text: string, e: Entry, missing: seq<char>)
    requires |missing| == |e.keywords|
    requires forall i :: 0 <= i < |missing| ==> missing[i] in e.keywords[i] && missing[i] !in text
    ensures !Matches(e, text)
  {
    forall i | 0 <= i < |missing|
      ensures !Contains(text, e.keywords[i])
    {
      MissingCharExcludes(text, e.keywords[i], missing[i]);
    }
  }

  /** A text without the letters f, h, p, s and z matches no Food keyword. */
  lemma LackingFoodLetters(text: string)
    requires 'f' !in text && 'h' !in text && 'p' !in text && 's' !in text && 'z' !in text
    ensures !Matches(FoodEntry, text)
  {
    EntryExcluded(text, FoodEntry, "szphsf");
  }

  /** A ride-hailing description is transport. */
  lemma ExampleRide()
    ensures Categorize(Some("Uber ride")) == "Transport"
  {
    var text := "uber ride";
    assert Lower("Uber ride") == text;
    assert !Matches(FoodEntry, text) by { LackingFoodLetters(text); }
    assert OccursAt(text, "uber", 0);
    ContainsWitness(text, "uber", 0);
    assert Matches(TransportEntry, text) by {
      assert TransportEntry.keywords[0] == "uber";
    }
    assert IsFirstMatch(CategoryTable, text, 1);
    CategorizeIsFirstMatch("Uber ride", 1);
  }

  /** A text without any of the letters a, b, c, d, e, f, g, i, l, m, r, t
      and z contains no keyword of the table. */
  lemma LackingLettersMatchesNothing(text: string)
    requires forall c :: c in "abcdefgilmrtz" ==> c !in text
    ensures NoMatch(CategoryTable, text)
  {
    assert !Matches(FoodEntry, text) by { EntryExcluded(text, FoodEntry, "gzitrf"); }
    assert !Matches(TransportEntry, text) by { EntryExcluded(text, TransportEntry, "blbted"); }
    assert !Matches(UtilitiesEntry, text) by { EntryExcluded(text, UtilitiesEntry, "eargii"); }
    assert !Matches(ShoppingEntry, text) by { EntryExcluded(text, ShoppingEntry, "afitm"); }
    assert !Matches(EntertainmentEntry, text) by { EntryExcluded(text, EntertainmentEntry, "etmgc"); }
  }

  /** A description with no keyword is the fallback; "shop" alone is not
      the keyword "shopping". */
  lemma ExampleUnknownShop()
    ensures Categorize(Some("Unknown shop")) == Other
  {
    assert Lower("Unknown shop") == "unknown shop";
    LackingLettersMatchesNothing("unknown shop");
    CategorizeOtherIff("Unknown shop");
  }
}
