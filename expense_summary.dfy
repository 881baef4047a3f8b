/**
 * GET /expenses/summary: the requester's expenses of one month grouped by
 * category (total and count), joined with the category records, groups without
 * a record dropped, largest total first, and the grand total of the groups.
 */
module ExpenseSummary {
  import opened Wrappers
  import opened Ids
  import opened Folds
  import opened Sorting
  import opened Calendar
  import opened CategoryModel
  import opened ExpenseModel

  /** The summary's `$match`: the owner and the month window. */
  function InMonth(user: Id, w: Window): Expense -> bool
  {
    (e: Expense) => e.user == user && InWindow(e.date, w)
  }

  function CategoryIs(k: Id): Expense -> bool
  {
    (e: Expense) => e.category == k
  }

  /** The `$lookup` finds a record for the expense's category. */
  function Recorded(categories: seq<Category>): Expense -> bool
  {
    (e: Expense) => FindCategory(categories, e.category).Some?
  }

  predicate Distinct(ks: seq<Id>)
  {
    forall i, j :: 0 <= i < |ks| && 0 <= j < |ks| && i != j ==> ks[i] != ks[j]
  }

  /** The `$group` keys: each category that occurs in `s`, once. */
  function DistinctCategories(s: seq<Expense>): (ks: seq<Id>)
    ensures Distinct(ks)
    ensures forall i :: 0 <= i < |s| ==> s[i].category in ks
    ensures forall i :: 0 <= i < |ks| ==> exists j :: 0 <= j < |s| && s[j].category == ks[i]
  {
    if s == [] then []
    else
      var rest := DistinctCategories(s[1..]);
      assert forall i :: 0 <= i < |rest| ==> exists j :: 0 <= j < |s| && s[j].category == rest[i] by {
        forall i | 0 <= i < |rest|
          ensures exists j :: 0 <= j < |s| && s[j].category == rest[i]
        {
          var j :| 0 <= j < |s[1..]| && s[1..][j].category == rest[i];
          assert s[j + 1].category == rest[i];
        }
      }
      assert forall i :: 1 <= i < |s| ==> s[i].category == s[1..][i - 1].category;
      if s[0].category in rest then rest else [s[0].category] + rest
  }

  /** One `$group` output, after `$lookup` and `$unwind`. */
  datatype CategoryGroup = CategoryGroup(category: Category, total: real, count: nat)

  function GroupTotal(g: CategoryGroup): real
  {
    g.total
  }

  /** The `$group` output for category `c`: the sum and the number of its expenses. */
  function GroupFor(matched: seq<Expense>, c: Category): (g: CategoryGroup)
    ensures g.category == c
  {
    var group := Filter(matched, CategoryIs(c.id));
    CategoryGroup(c, SumOf(group, Amount), |group|)
  }

  /** The groups for keys `ks`, leaving out a key whose category record is missing. */
  function GroupsOf(ks: seq<Id>, matched: seq<Expense>, categories: seq<Category>): seq<CategoryGroup>
  {
    if ks == [] then []
    else
      var rest := GroupsOf(ks[1..], matched, categories);
      match FindCategory(categories, ks[0])
      case None => rest
      case Some(c) => [GroupFor(matched, c)] + rest
  }

  /** `g` is the group of one of `ks` whose category record exists. */
  predicate GroupFromKeys(g: CategoryGroup, ks: seq<Id>, matched: seq<Expense>, categories: seq<Category>)
  {
    && g.category.id in ks
    && FindCategory(categories, g.category.id) == Some(g.category)
    && g == GroupFor(matched, g.category)
  }

  /** Every group is the group of one of `ks` whose category record exists. */
  predicate GroupsFromKeys(gs: seq<CategoryGroup>, ks: seq<Id>, matched: seq<Expense>, categories: seq<Category>)
  {
    forall i :: 0 <= i < |gs| ==> GroupFromKeys(gs[i], ks, matched, categories)
  }

  lemma {:induction false} GroupsOfMembers(ks: seq<Id>, matched: seq<Expense>, categories: seq<Category>)
    ensures GroupsFromKeys(GroupsOf(ks, matched, categories), ks, matched, categories)
  {
    if ks != [] {
      GroupsOfMembers(ks[1..], matched, categories);
      var rest := GroupsOf(ks[1..], matched, categories);
      var gs := GroupsOf(ks, matched, categories);
      forall i | 0 <= i < |rest|
        ensures GroupFromKeys(rest[i], ks, matched, categories)
      {
        assert GroupFromKeys(rest[i], ks[1..], matched, categories);
        var k :| 0 <= k < |ks[1..]| && ks[1..][k] == rest[i].category.id;
        assert ks[k + 1] == rest[i].category.id;
      }
      match FindCategory(categories, ks[0])
      case None =>
        assert gs == rest;
      case Some(c) =>
        assert GroupFromKeys(GroupFor(matched, c), ks, matched, categories);
        ConsFromKeys(GroupFor(matched, c), rest, ks, matched, categories);
    }
  }

  lemma ConsFromKeys(g: CategoryGroup, gs: seq<CategoryGroup>, ks: seq<Id>, matched: seq<Expense>, categories: seq<Category>)
    requires GroupFromKeys(g, ks, matched, categories) && GroupsFromKeys(gs, ks, matched, categories)
    ensures GroupsFromKeys([g] + gs, ks, matched, categories)
  {
    assert forall i :: 1 <= i < |[g] + gs| ==> ([g] + gs)[i] == gs[i - 1];
  }

  predicate HasGroup(gs: seq<CategoryGroup>, k: Id)
  {
    exists j :: 0 <= j < |gs| && gs[j].category.id == k
  }

  /** Every key whose category record exists has a group. */
  lemma {:induction false} GroupsOfCovers(ks: seq<Id>, matched: seq<Expense>, categories: seq<Category>, n: nat)
    requires n < |ks| && FindCategory(categories, ks[n]).Some?
    ensures HasGroup(GroupsOf(ks, matched, categories), ks[n])
  {
    var rest := GroupsOf(ks[1..], matched, categories);
    if n > 0 {
      assert ks[1..][n - 1] == ks[n];
      GroupsOfCovers(ks[1..], matched, categories, n - 1);
    }
    match FindCategory(categories, ks[0])
    case None =>
      assert GroupsOf(ks, matched, categories) == rest;
    case Some(c) =>
      assert GroupsOf(ks, matched, categories) == [GroupFor(matched, c)] + rest;
      HasGroupCons(GroupFor(matched, c), rest, ks[n]);
  }

  /** A group list with one more group in front still has every group it had, and the new one. */
  lemma HasGroupCons(g: CategoryGroup, gs: seq<CategoryGroup>, k: Id)
    requires HasGroup(gs, k) || g.category.id == k
    ensures HasGroup([g] + gs, k)
  {
    if g.category.id != k {
      var j :| 0 <= j < |gs| && gs[j].category.id == k;
      assert ([g] + gs)[j + 1] == gs[j];
    } else {
      assert ([g] + gs)[0] == g;
    }
  }

  /** No two groups are of the same category. */
  predicate GroupIdsDistinct(gs: seq<CategoryGroup>)
  {
    forall i, j :: 0 <= i < |gs| && 0 <= j < |gs| && i != j ==> gs[i].category.id != gs[j].category.id
  }

  /** Distinct keys give groups of distinct categories. */
  lemma {:induction false} GroupsDistinct(ks: seq<Id>, matched: seq<Expense>, categories: seq<Category>)
    requires Distinct(ks)
    ensures GroupIdsDistinct(GroupsOf(ks, matched, categories))
  {
    if ks != [] {
      assert Distinct(ks[1..]) by {
        assert forall i :: 0 <= i < |ks[1..]| ==> ks[1..][i] == ks[i + 1];
      }
      GroupsDistinct(ks[1..], matched, categories);
      GroupsOfMembers(ks[1..], matched, categories);
      var rest := GroupsOf(ks[1..], matched, categories);
      match FindCategory(categories, ks[0])
      case None =>
      case Some(c) =>
        forall i | 0 <= i < |rest|
          ensures rest[i].category.id != ks[0]
        {
          assert GroupFromKeys(rest[i], ks[1..], matched, categories);
          assert ks[0] !in ks[1..];
        }
        assert GroupFor(matched, c).category.id == ks[0];
        ConsDistinct(GroupFor(matched, c), rest);
    }
  }

  lemma ConsDistinct(g: CategoryGroup, gs: seq<CategoryGroup>)
    requires GroupIdsDistinct(gs)
    requires forall i :: 0 <= i < |gs| ==> gs[i].category.id != g.category.id
    ensures GroupIdsDistinct([g] + gs)
  {
    assert forall i :: 1 <= i < |[g] + gs| ==> ([g] + gs)[i] == gs[i - 1];
  }

  /** The expenses whose category is one of `ks` and has a record. */
  function InGroups(ks: seq<Id>, categories: seq<Category>): Expense -> bool
  {
    (e: Expense) => e.category in ks && FindCategory(categories, e.category).Some?
  }

  /** The expenses of category `k`, when `k` has a record. */
  function KeyRecorded(k: Id, categories: seq<Category>): Expense -> bool
  {
    (e: Expense) => e.category == k && FindCategory(categories, e.category).Some?
  }

  /** The total a key contributes: its group's total, or nothing when its record is missing. */
  function KeyTotal(k: Id, matched: seq<Expense>, categories: seq<Category>): real
  {
    match FindCategory(categories, k)
    case None => 0.0
    case Some(c) => GroupFor(matched, c).total
  }

  lemma KeyTotalIsSum(k: Id, matched: seq<Expense>, categories: seq<Category>)
    ensures KeyTotal(k, matched, categories) == SumOf(Filter(matched, KeyRecorded(k, categories)), Amount)
  {
    match FindCategory(categories, k)
    case None =>
      FilterNone(matched, KeyRecorded(k, categories));
    case Some(c) =>
      FilterCongruent(matched, KeyRecorded(k, categories), CategoryIs(k));
  }

  /** Taking the first key's expenses out of the covered ones. */
  lemma SplitFirstKey(ks: seq<Id>, matched: seq<Expense>, categories: seq<Category>)
    requires ks != [] && ks[0] !in ks[1..]
    ensures SumOf(Filter(matched, InGroups(ks, categories)), Amount)
         == SumOf(Filter(matched, KeyRecorded(ks[0], categories)), Amount)
          + SumOf(Filter(matched, InGroups(ks[1..], categories)), Amount)
  {
    var k := ks[0];
    forall i | 0 <= i < |matched|
      ensures InGroups(ks, categories)(matched[i])
          <==> KeyRecorded(k, categories)(matched[i]) || InGroups(ks[1..], categories)(matched[i])
      ensures !(KeyRecorded(k, categories)(matched[i]) && InGroups(ks[1..], categories)(matched[i]))
    {
      var x := matched[i].category;
      assert x in ks <==> x == k || x in ks[1..] by {
        assert ks == [k] + ks[1..];
      }
    }
    SumFilterDisjoint(matched, InGroups(ks, categories), KeyRecorded(k, categories),
                      InGroups(ks[1..], categories), Amount);
  }

  lemma GroupsOfSum(ks: seq<Id>, matched: seq<Expense>, categories: seq<Category>)
    requires ks != []
    ensures SumOf(GroupsOf(ks, matched, categories), GroupTotal)
         == KeyTotal(ks[0], matched, categories) + SumOf(GroupsOf(ks[1..], matched, categories), GroupTotal)
  {
    match FindCategory(categories, ks[0])
    case None =>
    case Some(c) =>
      var gs := GroupsOf(ks, matched, categories);
      assert gs[1..] == GroupsOf(ks[1..], matched, categories);
  }

  /** The group totals add up to the amounts of the expenses they cover: the groups partition them. */
  lemma {:induction false} GroupTotalsPartition(ks: seq<Id>, matched: seq<Expense>, categories: seq<Category>)
    requires Distinct(ks)
    ensures SumOf(GroupsOf(ks, matched, categories), GroupTotal)
         == SumOf(Filter(matched, InGroups(ks, categories)), Amount)
  {
    if ks == [] {
      FilterNone(matched, InGroups(ks, categories));
    } else {
      assert Distinct(ks[1..]) by {
        assert forall i :: 0 <= i < |ks[1..]| ==> ks[1..][i] == ks[i + 1];
      }
      assert ks[0] !in ks[1..];
      GroupTotalsPartition(ks[1..], matched, categories);
      GroupsOfSum(ks, matched, categories);
      KeyTotalIsSum(ks[0], matched, categories);
      SplitFirstKey(ks, matched, categories);
    }
  }

  /** `$sort: {total: -1}`. */
  predicate LargerTotalFirst(a: CategoryGroup, b: CategoryGroup)
  {
    a.total >= b.total
  }

  lemma LargerTotalFirstIsPreorder()
    ensures TotalPreorder(LargerTotalFirst)
  {
  }

  datatype SummaryPage = SummaryPage(summary: seq<CategoryGroup>, grandTotal: real, month: int, year: int)

  /** The `$match` output: the user's expenses of month `m` of year `y`. */
  function MonthExpenses(expenses: seq<Expense>, user: Id, m: int, y: int): seq<Expense>
  {
    Filter(expenses, InMonth(user, MonthWindow(y, m)))
  }

  /** The groups of one month's expenses, before sorting. */
  function MonthGroups(expenses: seq<Expense>, categories: seq<Category>, user: Id, m: int, y: int): seq<CategoryGroup>
  {
    var matched := MonthExpenses(expenses, user, m, y);
    GroupsOf(DistinctCategories(matched), matched, categories)
  }

  /** GET /expenses/summary?month&year for `user` at clock reading `now`. */
  function MonthlySummary(categories: seq<Category>, expenses: seq<Expense>, user: Id,
                          monthQ: Option<int>, yearQ: Option<int>, now: Date): (r: SummaryPage)
    ensures r.month == ParsedOr(monthQ, now.month) && r.year == ParsedOr(yearQ, now.year)
    ensures multiset(r.summary) == multiset(MonthGroups(expenses, categories, user, r.month, r.year))
    ensures SortedBy(r.summary, LargerTotalFirst)
    ensures r.grandTotal == SumOf(r.summary, GroupTotal)
    ensures r.grandTotal == SumOf(Filter(MonthExpenses(expenses, user, r.month, r.year), Recorded(categories)), Amount)
  {
    var m, y := ParsedOr(monthQ, now.month), ParsedOr(yearQ, now.year);
    var matched := MonthExpenses(expenses, user, m, y);
    var ks := DistinctCategories(matched);
    var groups := GroupsOf(ks, matched, categories);
    LargerTotalFirstIsPreorder();
    var sorted := SortBy(groups, LargerTotalFirst);
    SumPermutation(sorted, groups, GroupTotal);
    GroupTotalsPartition(ks, matched, categories);
    FilterCongruent(matched, InGroups(ks, categories), Recorded(categories));
    SummaryPage(sorted, SumOf(sorted, GroupTotal), m, y)
  }

  /**
   * Each group is the total and the count, over `matched`, of a category that
   * has a record, and it counts at least one expense.
   */
  predicate GroupsAreTotals(gs: seq<CategoryGroup>, matched: seq<Expense>, categories: seq<Category>)
  {
    forall i :: 0 <= i < |gs| ==>
      && FindCategory(categories, gs[i].category.id) == Some(gs[i].category)
      && gs[i].total == SumOf(Filter(matched, CategoryIs(gs[i].category.id)), Amount)
      && gs[i].count == |Filter(matched, CategoryIs(gs[i].category.id))|
      && gs[i].count >= 1
  }

  lemma MonthGroupsAreTotals(matched: seq<Expense>, categories: seq<Category>)
    ensures GroupsAreTotals(GroupsOf(DistinctCategories(matched), matched, categories), matched, categories)
  {
    var ks := DistinctCategories(matched);
    var gs := GroupsOf(ks, matched, categories);
    GroupsOfMembers(ks, matched, categories);
    forall i | 0 <= i < |gs|
      ensures gs[i].count >= 1
    {
      var g := gs[i];
      var n :| 0 <= n < |matched| && matched[n].category == g.category.id;
      assert CategoryIs(g.category.id)(matched[n]);
      assert matched[n] in Filter(matched, CategoryIs(g.category.id));
    }
  }

  lemma TotalsPermutation(r: seq<CategoryGroup>, gs: seq<CategoryGroup>, matched: seq<Expense>, categories: seq<Category>)
    requires multiset(r) == multiset(gs) && GroupsAreTotals(gs, matched, categories)
    ensures GroupsAreTotals(r, matched, categories)
  {
    PermutationMembers(r, gs);
    forall i | 0 <= i < |r|
      ensures exists j :: 0 <= j < |gs| && gs[j] == r[i]
    {
      assert r[i] in gs;
    }
  }

  /** Each summary group carries the total and count of its category over the user's expenses of that month. */
  lemma SummaryGroupsAreTotals(categories: seq<Category>, expenses: seq<Expense>, user: Id,
                               monthQ: Option<int>, yearQ: Option<int>, now: Date)
    ensures var r := MonthlySummary(categories, expenses, user, monthQ, yearQ, now);
      GroupsAreTotals(r.summary, MonthExpenses(expenses, user, r.month, r.year), categories)
  {
    var r := MonthlySummary(categories, expenses, user, monthQ, yearQ, now);
    var matched := MonthExpenses(expenses, user, r.month, r.year);
    MonthGroupsAreTotals(matched, categories);
    TotalsPermutation(r.summary, MonthGroups(expenses, categories, user, r.month, r.year), matched, categories);
  }

  /** A category has a group among the keys' groups exactly when it is a key and has a record. */
  lemma GroupsOfHasGroup(ks: seq<Id>, matched: seq<Expense>, categories: seq<Category>, k: Id)
    ensures HasGroup(GroupsOf(ks, matched, categories), k) <==> k in ks && FindCategory(categories, k).Some?
  {
    var gs := GroupsOf(ks, matched, categories);
    GroupsOfMembers(ks, matched, categories);
    if k in ks && FindCategory(categories, k).Some? {
      var n :| 0 <= n < |ks| && ks[n] == k;
      GroupsOfCovers(ks, matched, categories, n);
    }
    if HasGroup(gs, k) {
      var i :| 0 <= i < |gs| && gs[i].category.id == k;
    }
  }

  lemma HasGroupPermutation(r: seq<CategoryGroup>, gs: seq<CategoryGroup>, k: Id)
    requires multiset(r) == multiset(gs)
    ensures HasGroup(r, k) <==> HasGroup(gs, k)
  {
    PermutationMembers(r, gs);
    if HasGroup(gs, k) {
      var i :| 0 <= i < |gs| && gs[i].category.id == k;
      var j :| 0 <= j < |r| && r[j] == gs[i];
    }
    if HasGroup(r, k) {
      var i :| 0 <= i < |r| && r[i].category.id == k;
      var j :| 0 <= j < |gs| && gs[j] == r[i];
    }
  }

  /** A category has a summary group exactly when it has a record and an expense of the user in that month. */
  lemma SummaryCoversCategories(categories: seq<Category>, expenses: seq<Expense>, user: Id,
                                monthQ: Option<int>, yearQ: Option<int>, now: Date, k: Id)
    ensures var r := MonthlySummary(categories, expenses, user, monthQ, yearQ, now);
      var matched := MonthExpenses(expenses, user, r.month, r.year);
      HasGroup(r.summary, k) <==>
        (exists j :: 0 <= j < |matched| && matched[j].category == k) && FindCategory(categories, k).Some?
  {
    var r := MonthlySummary(categories, expenses, user, monthQ, yearQ, now);
    var matched := MonthExpenses(expenses, user, r.month, r.year);
    var ks := DistinctCategories(matched);
    GroupsOfHasGroup(ks, matched, categories, k);
    HasGroupPermutation(r.summary, GroupsOf(ks, matched, categories), k);
    if k in ks {
      var n :| 0 <= n < |ks| && ks[n] == k;
    }
  }

  /** No category appears in two summary groups. */
  lemma SummaryCategoriesDistinct(categories: seq<Category>, expenses: seq<Expense>, user: Id,
                                  monthQ: Option<int>, yearQ: Option<int>, now: Date)
    ensures GroupIdsDistinct(MonthlySummary(categories, expenses, user, monthQ, yearQ, now).summary)
  {
    var r := MonthlySummary(categories, expenses, user, monthQ, yearQ, now);
    var matched := MonthExpenses(expenses, user, r.month, r.year);
    var ks := DistinctCategories(matched);
    GroupsDistinct(ks, matched, categories);
    DistinctPermutation(r.summary, GroupsOf(ks, matched, categories));
  }

  /** A permutation of groups of distinct categories has distinct categories. */
  lemma DistinctPermutation(r: seq<CategoryGroup>, gs: seq<CategoryGroup>)
    requires multiset(r) == multiset(gs) && GroupIdsDistinct(gs)
    ensures GroupIdsDistinct(r)
  {
    PermutationMembers(r, gs);
    forall i, j | 0 <= i < |r| && 0 <= j < |r| && i != j
      ensures r[i].category.id != r[j].category.id
    {
      var a :| 0 <= a < |gs| && gs[a] == r[i];
      OneCopy(gs, a);
      if i < j {
        TwoCopies(r, i, j);
      } else {
        TwoCopies(r, j, i);
      }
    }
  }

  /** Two positions holding the same element count it twice. */
  lemma TwoCopies<T>(s: seq<T>, i: nat, j: nat)
    requires i < j < |s|
    ensures s[i] == s[j] ==> multiset(s)[s[i]] >= 2
  {
    assert s == s[..i] + [s[i]] + s[i + 1..j] + [s[j]] + s[j + 1..];
  }

  /** An element of a sequence whose other elements all have other categories is counted once. */
  lemma OneCopy(gs: seq<CategoryGroup>, a: nat)
    requires a < |gs| && GroupIdsDistinct(gs)
    ensures multiset(gs)[gs[a]] == 1
  {
    assert gs == gs[..a] + [gs[a]] + gs[a + 1..];
    assert gs[a] !in gs[..a];
    assert gs[a] !in gs[a + 1..];
  }
}
