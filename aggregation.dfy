/** The aggregation stage: the grand total of the Amount column, the
    per-category sums sorted in descending order, and the category with
    the largest sum. */
module Aggregation {

  /** A (category, summed amount) pair of the category totals. */
  type Pair = (string, int)

  /** `df["Amount"].sum()`. */
  function Sum(amounts: seq<int>): int {
    if amounts == [] then 0 else amounts[0] + Sum(amounts[1..])
  }

  /** The sum of the amounts of the rows tagged `k`. */
  function SumWhere(cats: seq<string>, amounts: seq<int>, k: string): int
    requires |cats| == |amounts|
  {
    if cats == [] then 0
    else (if cats[0] == k then amounts[0] else 0) + SumWhere(cats[1..], amounts[1..], k)
  }

  /** The categories present in a list of pairs. */
  function Keys(ps: seq<Pair>): set<string> {
    set p | p in ps :: p.0
  }

  /** The sum of the amounts of a list of pairs. */
  function Total(ps: seq<Pair>): int {
    if ps == [] then 0 else ps[0].1 + Total(ps[1..])
  }

  /** No category occurs twice. */
  predicate DistinctKeys(ps: seq<Pair>) {
    forall i, j :: 0 <= i < j < |ps| ==> ps[i].0 != ps[j].0
  }

  /** Sorted by amount, largest first. */
  predicate SortedDesc(ps: seq<Pair>) {
    forall i, j :: 0 <= i < j < |ps| ==> ps[i].1 >= ps[j].1
  }

  /** The group sums of a list of pairs agree with the rows. */
  predicate SumsAgree(ps: seq<Pair>, cats: seq<string>, amounts: seq<int>)
    requires |cats| == |amounts|
  {
    forall p :: p in ps ==> p.1 == SumWhere(cats, amounts, p.0)
  }

  /** The group of a category: 0 if absent. */
  function Lookup(ps: seq<Pair>, k: string): int {
    if ps == [] then 0 else if ps[0].0 == k then ps[0].1 else Lookup(ps[1..], k)
  }

  /** Adds one row's amount into the group of its category, opening a new
      group at the end when the category has none yet. */
  function AddTo(ps: seq<Pair>, k: string, a: int): seq<Pair> {
    if ps == [] then [(k, a)]
    else if ps[0].0 == k then [(k, ps[0].1 + a)] + ps[1..]
    else [ps[0]] + AddTo(ps[1..], k, a)
  }

  /** `df.groupby("Category")["Amount"].sum()`, one group per category
      that occurs. pandas orders the groups by category name; here they come
      in the order the rows are added, starting from the last row. The order
      matters only among tied totals once the groups are sorted. */
  function Groups(cats: seq<string>, amounts: seq<int>): seq<Pair>
    requires |cats| == |amounts|
  {
    if cats == [] then [] else AddTo(Groups(cats[1..], amounts[1..]), cats[0], amounts[0])
  }

  /** Inserts a pair before the first pair with a smaller amount. */
  function Insert(p: Pair, ps: seq<Pair>): seq<Pair> {
    if ps == [] then [p]
    else if p.1 >= ps[0].1 then [p] + ps
    else [ps[0]] + Insert(p, ps[1..])
  }

  /** `sort_values(ascending=False)`. */
  function SortDesc(ps: seq<Pair>): seq<Pair> {
    if ps == [] then [] else Insert(ps[0], SortDesc(ps[1..]))
  }

  /** The category totals as the script computes them. */
  function CategoryTotals(cats: seq<string>, amounts: seq<int>): seq<Pair>
    requires |cats| == |amounts|
  {
    SortDesc(Groups(cats, amounts))
  }

  /** `idxmax`: the position of the first largest amount. */
  function ArgMax(ps: seq<Pair>): (i: nat)
    requires |ps| > 0
    ensures i < |ps|
    ensures forall j :: 0 <= j < |ps| ==> ps[j].1 <= ps[i].1
    ensures forall j :: 0 <= j < i ==> ps[j].1 < ps[i].1
  {
    if |ps| == 1 then 0
    else
      var j := ArgMax(ps[1..]) + 1;
      if ps[j].1 > ps[0].1 then j else 0
  }

  /** `category_totals.idxmax()`. */
  function IdxMax(ps: seq<Pair>): (k: string)
    requires |ps| > 0
    ensures k in Keys(ps)
    ensures exists p :: p in ps && p.0 == k && forall q :: q in ps ==> q.1 <= p.1
  {
    var i := ArgMax(ps);
    assert ps[i] in ps;
    ps[i].0
  }

  // ---------------------------------------------------------------------
  // Lemmas

  /** Rows of other categories do not contribute to a category's sum. */
  lemma {:induction false} SumWhereAbsent(cats: seq<string>, amounts: seq<int>, k: string)
    requires |cats| == |amounts|
    requires k !in cats
    ensures SumWhere(cats, amounts, k) == 0
  {
    if cats != [] {
      SumWhereAbsent(cats[1..], amounts[1..], k);
    }
  }

  /** When keys are distinct, looking up a present pair's category gives
      that pair's amount. */
  lemma {:induction false} LookupMember(ps: seq<Pair>, p: Pair)
    requires DistinctKeys(ps) && p in ps
    ensures Lookup(ps, p.0) == p.1
  {
    if ps[0] != p {
      assert ps[0].0 != p.0 by {
        var i :| 0 <= i < |ps| && ps[i] == p;
      }
      LookupMember(ps[1..], p);
    }
  }

  /** Looking up a category that no pair carries gives 0. */
  lemma {:induction false} LookupAbsent(ps: seq<Pair>, k: string)
    requires k !in Keys(ps)
    ensures Lookup(ps, k) == 0
  {
    if ps != [] {
      assert ps[0] in ps;
      assert Keys(ps[1..]) <= Keys(ps) by {
        forall p | p in ps[1..] ensures p in ps { }
      }
      LookupAbsent(ps[1..], k);
    }
  }

  /** Adding a row to the groups adds its amount to their total. */
  lemma {:induction false} AddToTotal(ps: seq<Pair>, k: string, a: int)
    ensures Total(AddTo(ps, k, a)) == Total(ps) + a
  {
    if ps != [] && ps[0].0 != k {
      AddToTotal(ps[1..], k, a);
    }
  }

  /** After adding a row, the row's category holds its old sum plus the
      row's amount, and every other pair is an old one. */
  lemma {:induction false} AddToMembers(ps: seq<Pair>, k: string, a: int)
    requires DistinctKeys(ps)
    ensures (k, Lookup(ps, k) + a) in AddTo(ps, k, a)
    ensures forall p :: p in AddTo(ps, k, a) ==>
              (p.0 == k && p.1 == Lookup(ps, k) + a) || (p.0 != k && p in ps)
    ensures forall p :: p in ps && p.0 != k ==> p in AddTo(ps, k, a)
  {
    if ps != [] {
      DistinctTail(ps);
      if ps[0].0 != k {
        AddToMembers(ps[1..], k, a);
        assert AddTo(ps, k, a) == [ps[0]] + AddTo(ps[1..], k, a);
      } else {
        assert AddTo(ps, k, a) == [(k, ps[0].1 + a)] + ps[1..];
      }
    }
  }

  /** Adding a row gives the groups its category and no other new one. */
  lemma AddToKeys(ps: seq<Pair>, k: string, a: int)
    requires DistinctKeys(ps)
    ensures Keys(AddTo(ps, k, a)) == Keys(ps) + {k}
  {
    AddToMembers(ps, k, a);
    var r := AddTo(ps, k, a);
    forall c | c in Keys(ps) + {k} ensures c in Keys(r) {
      if c != k {
        var p :| p in ps && p.0 == c;
        assert p in r;
      }
    }
  }

  /** Adding a row keeps the categories distinct. */
  lemma {:induction false} AddToDistinct(ps: seq<Pair>, k: string, a: int)
    requires DistinctKeys(ps)
    ensures DistinctKeys(AddTo(ps, k, a))
  {
    if ps != [] {
      DistinctTail(ps);
      var rest := ps[1..];
      if ps[0].0 != k {
        AddToDistinct(rest, k, a);
        AddToKeys(rest, k, a);
        var rr := AddTo(rest, k, a);
        var r := [ps[0]] + rr;
        assert AddTo(ps, k, a) == r;
        forall i, j | 0 <= i < j < |r| ensures r[i].0 != r[j].0 {
          if i == 0 {
            assert r[j] in rr;
            assert r[j].0 in Keys(rr);
          } else {
            assert r[i] == rr[i - 1] && r[j] == rr[j - 1];
          }
        }
      } else {
        var r := [(k, ps[0].1 + a)] + rest;
        assert AddTo(ps, k, a) == r;
        forall i, j | 0 <= i < j < |r| ensures r[i].0 != r[j].0 {
          if i == 0 {
            assert r[j] in rest;
            assert r[j].0 in Keys(rest);
          } else {
            assert r[i] == rest[i - 1] && r[j] == rest[j - 1];
          }
        }
      }
    }
  }

  /** The groups: one per category that occurs, each holding the sum of its
      rows, together adding up to the grand total. */
  lemma {:induction false} GroupsSpec(cats: seq<string>, amounts: seq<int>)
    requires |cats| == |amounts|
    ensures DistinctKeys(Groups(cats, amounts))
    ensures Keys(Groups(cats, amounts)) == set c | c in cats
    ensures SumsAgree(Groups(cats, amounts), cats, amounts)
    ensures Total(Groups(cats, amounts)) == Sum(amounts)
  {
    if cats != [] {
      var cs, ams := cats[1..], amounts[1..];
      GroupsSpec(cs, ams);
      var g := Groups(cs, ams);
      AddToTotal(g, cats[0], amounts[0]);
      AddToMembers(g, cats[0], amounts[0]);
      AddToKeys(g, cats[0], amounts[0]);
      AddToDistinct(g, cats[0], amounts[0]);
      assert (set c | c in cats) == (set c | c in cs) + {cats[0]} by {
        assert forall c :: c in cats <==> c == cats[0] || c in cs;
      }
      forall p | p in Groups(cats, amounts)
        ensures p.1 == SumWhere(cats, amounts, p.0)
      {
        if p.0 == cats[0] {
          if cats[0] in Keys(g) {
            var q :| q in g && q.0 == cats[0];
            LookupMember(g, q);
          } else {
            LookupAbsent(g, cats[0]);
            SumWhereAbsent(cs, ams, cats[0]);
          }
        }
      }
    }
  }

  /** The pairs after inserting are the inserted one and the old ones. */
  lemma {:induction false} InsertMembers(p: Pair, ps: seq<Pair>)
    ensures forall q :: q in Insert(p, ps) <==> q == p || q in ps
  {
    if ps != [] && p.1 < ps[0].1 {
      InsertMembers(p, ps[1..]);
      assert forall q :: q in ps <==> q == ps[0] || q in ps[1..];
    }
  }

  /** Inserting adds exactly the pair. */
  lemma {:induction false} InsertPermutes(p: Pair, ps: seq<Pair>)
    ensures multiset(Insert(p, ps)) == multiset(ps) + multiset{p}
  {
    if ps != [] && p.1 < ps[0].1 {
      InsertPermutes(p, ps[1..]);
      assert ps == [ps[0]] + ps[1..];
    }
  }

  /** Inserting adds the pair's amount to the total. */
  lemma {:induction false} InsertTotal(p: Pair, ps: seq<Pair>)
    ensures Total(Insert(p, ps)) == Total(ps) + p.1
  {
    if ps != [] && p.1 < ps[0].1 {
      InsertTotal(p, ps[1..]);
    }
  }

  /** Inserting into a descending list keeps it descending. */
  lemma {:induction false} InsertSorted(p: Pair, ps: seq<Pair>)
    requires SortedDesc(ps)
    ensures SortedDesc(Insert(p, ps))
  {
    if ps != [] && p.1 < ps[0].1 {
      var rest := ps[1..];
      InsertSorted(p, rest);
      InsertMembers(p, rest);
      var r := Insert(p, rest);
      var out := [ps[0]] + r;
      forall i, j | 0 <= i < j < |out| ensures out[i].1 >= out[j].1 {
        if i == 0 {
          assert out[j] in r;
        } else {
          assert out[i] == r[i - 1] && out[j] == r[j - 1];
        }
      }
    }
  }

  /** Inserting a pair of a new category keeps the categories distinct. */
  lemma {:induction false} InsertDistinct(p: Pair, ps: seq<Pair>)
    requires DistinctKeys(ps) && p.0 !in Keys(ps)
    ensures DistinctKeys(Insert(p, ps))
  {
    if ps != [] && p.1 < ps[0].1 {
      var rest := ps[1..];
      assert forall q :: q in rest ==> q in ps;
      InsertDistinct(p, rest);
      InsertMembers(p, rest);
      var r := Insert(p, rest);
      var out := [ps[0]] + r;
      forall i, j | 0 <= i < j < |out| ensures out[i].0 != out[j].0 {
        if i == 0 {
          assert out[j] in r;
          if out[j] != p {
            var m :| 0 <= m < |rest| && rest[m] == out[j];
            assert ps[m + 1] == out[j];
          }
        } else {
          assert out[i] == r[i - 1] && out[j] == r[j - 1];
        }
      }
    } else if ps != [] {
      var out := [p] + ps;
      forall i, j | 0 <= i < j < |out| ensures out[i].0 != out[j].0 {
        if i > 0 {
          assert out[i] == ps[i - 1] && out[j] == ps[j - 1];
        } else {
          assert out[j] in ps;
        }
      }
    }
  }

  /** Sorting orders the pairs, permutes them, and keeps their total. */
  lemma {:induction false} SortDescSpec(ps: seq<Pair>)
    ensures SortedDesc(SortDesc(ps))
    ensures multiset(SortDesc(ps)) == multiset(ps)
    ensures Total(SortDesc(ps)) == Total(ps)
  {
    if ps != [] {
      var rest := ps[1..];
      SortDescSpec(rest);
      InsertSorted(ps[0], SortDesc(rest));
      InsertPermutes(ps[0], SortDesc(rest));
      InsertTotal(ps[0], SortDesc(rest));
      assert ps == [ps[0]] + rest;
    }
  }

  /** Sorting keeps the categories distinct. */
  lemma {:induction false} SortDescDistinct(ps: seq<Pair>)
    requires DistinctKeys(ps)
    ensures DistinctKeys(SortDesc(ps))
  {
    if ps != [] {
      var rest := ps[1..];
      DistinctTail(ps);
      SortDescDistinct(rest);
      SortDescSpec(rest);
      PermutationKeys(rest, SortDesc(rest));
      InsertDistinct(ps[0], SortDesc(rest));
    }
  }

  /** The tail of a list with distinct categories has distinct categories,
      none of them the head's. */
  lemma DistinctTail(ps: seq<Pair>)
    requires ps != [] && DistinctKeys(ps)
    ensures DistinctKeys(ps[1..]) && ps[0].0 !in Keys(ps[1..])
  {
    var rest := ps[1..];
    forall i, j | 0 <= i < j < |rest| ensures rest[i].0 != rest[j].0 {
      assert rest[i] == ps[i + 1] && rest[j] == ps[j + 1];
    }
  }

  /** Two permutations of one list hold the same pairs and categories. */
  lemma PermutationKeys(ps: seq<Pair>, qs: seq<Pair>)
    requires multiset(ps) == multiset(qs)
    ensures Keys(ps) == Keys(qs)
    ensures forall p :: p in ps <==> p in qs
  {
    forall p ensures p in ps <==> p in qs {
      assert p in ps <==> p in multiset(ps);
      assert p in qs <==> p in multiset(qs);
    }
  }

  /** The category totals: sorted by descending amount, one pair per
      category some row maps to and none for any other, each pair holding
      that category's sum, and all pairs together adding up to the grand
      total (conservation: every row is counted once). */
  lemma CategoryTotalsSpec(cats: seq<string>, amounts: seq<int>)
    requires |cats| == |amounts|
    ensures SortedDesc(CategoryTotals(cats, amounts))
    ensures DistinctKeys(CategoryTotals(cats, amounts))
    ensures Keys(CategoryTotals(cats, amounts)) == set c | c in cats
    ensures SumsAgree(CategoryTotals(cats, amounts), cats, amounts)
    ensures Total(CategoryTotals(cats, amounts)) == Sum(amounts)
  {
    var g := Groups(cats, amounts);
    GroupsSpec(cats, amounts);
    SortDescSpec(g);
    SortDescDistinct(g);
    PermutationKeys(g, SortDesc(g));
  }

  /** On a list sorted in descending order, idxmax is the first category. */
  lemma IdxMaxOfSorted(ps: seq<Pair>)
    requires |ps| > 0 && SortedDesc(ps)
    ensures IdxMax(ps) == ps[0].0
  {
  }

  /** The highest category is one some row maps to. */
  lemma HighestOccurs(cats: seq<string>, amounts: seq<int>)
    requires |cats| == |amounts| && |cats| > 0
    ensures |CategoryTotals(cats, amounts)| > 0
    ensures IdxMax(CategoryTotals(cats, amounts)) in cats
  {
    CategoryTotalsSpec(cats, amounts);
    assert cats[0] in Keys(CategoryTotals(cats, amounts));
  }

  /** The sum of the highest category is at least the sum of every
      category `k` some row maps to. */
  lemma HighestIsMaximal(cats: seq<string>, amounts: seq<int>, k: string)
    requires |cats| == |amounts| && k in cats
    ensures |CategoryTotals(cats, amounts)| > 0
    ensures SumWhere(cats, amounts, k) <= SumWhere(cats, amounts, IdxMax(CategoryTotals(cats, amounts)))
  {
    var t := CategoryTotals(cats, amounts);
    CategoryTotalsSpec(cats, amounts);
    assert k in Keys(t);
    var q :| q in t && q.0 == k;
    var h := IdxMax(t);
    var p :| p in t && p.0 == h && forall r :: r in t ==> r.1 <= p.1;
  }
}
