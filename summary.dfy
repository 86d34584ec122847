/** `GET /api/summary?month=YYYY-MM`: income and expense totals of the
    signed-in user for one UTC month, the balance, and the five expense
    categories with the highest totals, with their names. The route only
    reads the tables; both aggregates are read from the same snapshot. */
module SummaryRoute {
  import opened Common
  import opened MonthQuery
  import opened Sorting
  import opened Db

  /** One entry of `topCategories`. */
  datatype TopCategory = TopCategory(categoryId: Id, name: string, total: int)

  datatype Summary = Summary(
    month: string,
    range: Range,
    totalIncome: int,
    totalExpense: int,
    balance: int,
    topCategories: seq<TopCategory>
  )

  /** One row of `transaction.groupBy({ by: ["categoryId"], _sum: { amount } })`. */
  datatype Group = Group(categoryId: Id, total: int)

  const UnknownName: string := "(Unknown)"
  const TopCount: nat := 5

  // ---------------------------------------------------------------------
  // Reference definitions: what the totals mean, read straight off the
  // transaction table.
  // ---------------------------------------------------------------------

  /** `where: { userId, type, date: { gte: start, lt: end } }`. */
  predicate Selected(t: Transaction, user: Id, kind: Kind, r: Range) {
    t.userId == user && t.kind == kind && InRange(r, t.date)
  }

  /** Sum of the amounts of the user's transactions of `kind` in `r`. */
  function TotalOf(txs: seq<Transaction>, user: Id, kind: Kind, r: Range): int {
    if txs == [] then 0
    else (if Selected(txs[0], user, kind, r) then txs[0].amount else 0) + TotalOf(txs[1..], user, kind, r)
  }

  /** Sum of the amounts of the user's expenses in `r` booked on category `cid`. */
  function CategoryExpenseOf(txs: seq<Transaction>, user: Id, r: Range, cid: Id): int {
    if txs == [] then 0
    else (if Selected(txs[0], user, Expense, r) && txs[0].categoryId == cid then txs[0].amount else 0)
         + CategoryExpenseOf(txs[1..], user, r, cid)
  }

  predicate AllPositive(txs: seq<Transaction>) {
    forall i :: 0 <= i < |txs| ==> txs[i].amount > 0
  }

  // ---------------------------------------------------------------------
  // The queries as the route issues them.
  // ---------------------------------------------------------------------

  /** The rows a `where` clause selects, in table order. */
  function Select(txs: seq<Transaction>, user: Id, kind: Kind, r: Range): (rows: seq<Transaction>)
    ensures forall t :: t in rows <==> t in txs && Selected(t, user, kind, r)
  {
    if txs == [] then []
    else (if Selected(txs[0], user, kind, r) then [txs[0]] else []) + Select(txs[1..], user, kind, r)
  }

  function SumAmounts(rows: seq<Transaction>): int {
    if rows == [] then 0 else rows[0].amount + SumAmounts(rows[1..])
  }

  /** `_sum: { amount: true }` of an aggregate: null when no row is selected. */
  function AggregateSum(rows: seq<Transaction>): (r: Option<int>)
    ensures r.None? <==> rows == []
  {
    if rows == [] then None else Some(SumAmounts(rows))
  }

  /** `(await aggregate(...))._sum.amount ?? 0` is the reference total. */
  lemma {:induction false} AggregateIsTotal(txs: seq<Transaction>, user: Id, kind: Kind, r: Range)
    ensures AggregateSum(Select(txs, user, kind, r)).GetOr(0) == TotalOf(txs, user, kind, r)
  {
    if txs != [] {
      AggregateIsTotal(txs[1..], user, kind, r);
      var rest := Select(txs[1..], user, kind, r);
      if Selected(txs[0], user, kind, r) {
        assert Select(txs, user, kind, r) == [txs[0]] + rest;
        assert ([txs[0]] + rest)[1..] == rest;
        assert AggregateSum(rest).GetOr(0) == SumAmounts(rest);
      } else {
        assert Select(txs, user, kind, r) == rest;
      }
    }
  }

  /** With positive amounts a total is zero exactly when nothing is
      selected, and is never negative. */
  lemma {:induction false} TotalZeroIffNoRows(txs: seq<Transaction>, user: Id, kind: Kind, r: Range)
    requires AllPositive(txs)
    ensures TotalOf(txs, user, kind, r) >= 0
    ensures TotalOf(txs, user, kind, r) == 0 <==> Select(txs, user, kind, r) == []
  {
    if txs != [] {
      TotalZeroIffNoRows(txs[1..], user, kind, r);
      assert AllPositive(txs[1..]) by {
        forall i | 0 <= i < |txs[1..]| ensures txs[1..][i].amount > 0 {
          assert txs[1..][i] == txs[i + 1];
        }
      }
    }
  }

  // ---------------------------------------------------------------------
  // groupBy categoryId.
  // ---------------------------------------------------------------------

  /** Sum of the amounts of `rows` booked on category `cid`. */
  function CategorySum(rows: seq<Transaction>, cid: Id): int {
    if rows == [] then 0
    else (if rows[0].categoryId == cid then rows[0].amount else 0) + CategorySum(rows[1..], cid)
  }

  /** The total of the group for `cid`, 0 if there is none. */
  function GroupTotal(gs: seq<Group>, cid: Id): int {
    if gs == [] then 0 else if gs[0].categoryId == cid then gs[0].total else GroupTotal(gs[1..], cid)
  }

  function GroupIds(gs: seq<Group>): set<Id> {
    if gs == [] then {} else {gs[0].categoryId} + GroupIds(gs[1..])
  }

  function RowCategoryIds(rows: seq<Transaction>): set<Id> {
    if rows == [] then {} else {rows[0].categoryId} + RowCategoryIds(rows[1..])
  }

  function SumTotals(gs: seq<Group>): int {
    if gs == [] then 0 else gs[0].total + SumTotals(gs[1..])
  }

  function GroupKey(g: Group): Id {
    g.categoryId
  }

  lemma {:induction false} GroupIdsMembers(gs: seq<Group>, x: Id)
    ensures x in GroupIds(gs) <==> exists k :: 0 <= k < |gs| && gs[k].categoryId == x
  {
    if gs != [] {
      GroupIdsMembers(gs[1..], x);
      if x in GroupIds(gs[1..]) {
        var k :| 0 <= k < |gs[1..]| && gs[1..][k].categoryId == x;
        assert gs[k + 1].categoryId == x;
      }
      if exists k :: 0 <= k < |gs| && gs[k].categoryId == x {
        var k :| 0 <= k < |gs| && gs[k].categoryId == x;
        if k > 0 {
          assert gs[1..][k - 1].categoryId == x;
        }
      }
    }
  }

  /** Distinct ids, one group at a time. */
  lemma DistinctCons(gs: seq<Group>)
    requires gs != []
    ensures KeysDistinct(gs, GroupKey)
            <==> gs[0].categoryId !in GroupIds(gs[1..]) && KeysDistinct(gs[1..], GroupKey)
  {
    GroupIdsMembers(gs[1..], gs[0].categoryId);
    if KeysDistinct(gs, GroupKey) {
      forall i, j | 0 <= i < j < |gs[1..]| ensures GroupKey(gs[1..][i]) != GroupKey(gs[1..][j]) {
        assert gs[1..][i] == gs[i + 1] && gs[1..][j] == gs[j + 1];
      }
      forall k | 0 <= k < |gs[1..]| ensures gs[1..][k].categoryId != gs[0].categoryId {
        assert gs[1..][k] == gs[k + 1];
      }
    }
    if gs[0].categoryId !in GroupIds(gs[1..]) && KeysDistinct(gs[1..], GroupKey) {
      forall i, j | 0 <= i < j < |gs| ensures GroupKey(gs[i]) != GroupKey(gs[j]) {
        assert gs[j] == gs[1..][j - 1];
        if i > 0 {
          assert gs[i] == gs[1..][i - 1];
        }
      }
    }
  }

  /** Books one row into the groups: its category's group grows by its
      amount, or a new group is opened for it at the end. */
  function AddToGroups(gs: seq<Group>, t: Transaction): (r: seq<Group>)
    ensures GroupIds(r) == GroupIds(gs) + {t.categoryId}
  {
    if gs == [] then [Group(t.categoryId, t.amount)]
    else if gs[0].categoryId == t.categoryId then
      var r := [Group(t.categoryId, gs[0].total + t.amount)] + gs[1..];
      assert r[1..] == gs[1..];
      r
    else
      var r := [gs[0]] + AddToGroups(gs[1..], t);
      assert r[1..] == AddToGroups(gs[1..], t);
      r
  }

  /** Booking a row keeps the ids distinct, adds its amount to the total of
      its own category and to no other, and so adds it to the grand total. */
  lemma {:induction false} AddToGroupsBooksRow(gs: seq<Group>, t: Transaction)
    requires KeysDistinct(gs, GroupKey)
    ensures KeysDistinct(AddToGroups(gs, t), GroupKey)
    ensures forall cid :: GroupTotal(AddToGroups(gs, t), cid)
                          == GroupTotal(gs, cid) + (if cid == t.categoryId then t.amount else 0)
    ensures SumTotals(AddToGroups(gs, t)) == SumTotals(gs) + t.amount
  {
    var r := AddToGroups(gs, t);
    if gs != [] {
      DistinctCons(gs);
      if gs[0].categoryId == t.categoryId {
        assert r[1..] == gs[1..];
      } else {
        AddToGroupsBooksRow(gs[1..], t);
        assert r[1..] == AddToGroups(gs[1..], t);
      }
      DistinctCons(r);
    }
  }

  /** `groupBy({ by: ["categoryId"], _sum: { amount: true } })`: one group per
      category that occurs among the rows, each carrying the sum of that
      category's amounts; together the groups account for every amount. */
  function GroupByCategory(rows: seq<Transaction>): (gs: seq<Group>)
    ensures KeysDistinct(gs, GroupKey)
    ensures GroupIds(gs) == RowCategoryIds(rows)
    ensures forall cid :: GroupTotal(gs, cid) == CategorySum(rows, cid)
    ensures SumTotals(gs) == SumAmounts(rows)
  {
    if rows == [] then []
    else
      var rest := GroupByCategory(rows[1..]);
      AddToGroupsBooksRow(rest, rows[0]);
      AddToGroups(rest, rows[0])
  }

  /** Among groups with distinct ids, the total of a listed group is its
      GroupTotal. */
  lemma {:induction false} GroupTotalOfMember(gs: seq<Group>, k: nat)
    requires KeysDistinct(gs, GroupKey) && k < |gs|
    ensures GroupTotal(gs, gs[k].categoryId) == gs[k].total
  {
    if k > 0 {
      DistinctCons(gs);
      assert GroupKey(gs[0]) != GroupKey(gs[k]);
      assert gs[1..][k - 1] == gs[k];
      GroupTotalOfMember(gs[1..], k - 1);
    }
  }

  // ---------------------------------------------------------------------
  // orderBy: { _sum: { amount: "desc" } }, take: 5.
  // ---------------------------------------------------------------------

  /** Larger totals first; equal totals are ties in any order. */
  function ByTotalDesc(a: Group, b: Group): bool {
    a.total >= b.total
  }

  lemma ByTotalDescIsTotalPreorder()
    ensures IsTotalPreorder(ByTotalDesc)
  {
  }

  /** The groups ordered by total, highest first. */
  function Ranked(gs: seq<Group>): (ranked: seq<Group>)
    ensures SortedBy(ranked, ByTotalDesc) && multiset(ranked) == multiset(gs)
  {
    ByTotalDescIsTotalPreorder();
    SortBy(gs, ByTotalDesc)
  }

  /** The first five of the ranked groups. */
  function TopGroups(gs: seq<Group>): seq<Group> {
    var ranked := Ranked(gs);
    if |ranked| <= TopCount then ranked else ranked[..TopCount]
  }

  /** At most five groups, all of them from `gs`, with distinct ids and
      totals not increasing; a group left out has a total no larger than the
      fifth, and there are five whenever one is left out. */
  lemma TopGroupsRanked(gs: seq<Group>)
    requires KeysDistinct(gs, GroupKey)
    ensures var top := TopGroups(gs);
            && |top| == (if |gs| <= TopCount then |gs| else TopCount)
            && KeysDistinct(top, GroupKey)
            && SortedBy(top, ByTotalDesc)
            && (forall g :: g in top ==> g in gs)
            && (forall g :: g in gs && g.categoryId !in GroupIds(top) ==>
                  |top| == TopCount && g.total <= top[TopCount - 1].total)
  {
    var ranked := Ranked(gs);
    PermutationKeepsKeysDistinct(gs, ranked, GroupKey);
    assert |ranked| == |gs| by {
      assert |multiset(ranked)| == |multiset(gs)|;
    }
    var top := TopGroups(gs);
    assert forall i :: 0 <= i < |top| ==> top[i] == ranked[i];
    forall g | g in top ensures g in gs {
      PermutationMembers(gs, ranked, g);
    }
    forall g | g in gs && g.categoryId !in GroupIds(top)
      ensures |top| == TopCount && g.total <= top[TopCount - 1].total
    {
      PermutationMembers(gs, ranked, g);
      var k :| 0 <= k < |ranked| && ranked[k] == g;
      GroupIdsMembers(top, g.categoryId);
      assert forall j :: 0 <= j < |top| ==> top[j] != g;
      assert k >= |top|;
    }
  }

  // ---------------------------------------------------------------------
  // Category names.
  // ---------------------------------------------------------------------

  /** `category.findMany({ where: { userId, id: { in: catIds } } })`. */
  function NamedCategories(cats: seq<Category>, user: Id, ids: set<Id>): (r: seq<Category>)
    ensures forall c :: c in r <==> c in cats && c.userId == user && c.id in ids
  {
    if cats == [] then []
    else (if cats[0].userId == user && cats[0].id in ids then [cats[0]] else []) + NamedCategories(cats[1..], user, ids)
  }

  /** `new Map(found.map((c) => [c.id, c.name])).get(id)`: the name of the
      last row with that id, since later entries overwrite earlier ones. */
  function MapGet(found: seq<Category>, id: Id): (r: Option<string>)
    ensures r.None? <==> forall c :: c in found ==> c.id != id
    ensures r.Some? ==> exists c :: c in found && c.id == id && c.name == r.value
  {
    if found == [] then None
    else if found[|found| - 1].id == id then Some(found[|found| - 1].name)
    else
      var r := MapGet(found[..|found| - 1], id);
      assert found == found[..|found| - 1] + [found[|found| - 1]];
      r
  }

  /** `catMap.get(x.categoryId) ?? "(Unknown)"`. */
  function ResolveName(cats: seq<Category>, user: Id, ids: set<Id>, id: Id): (name: string)
    ensures id !in ids || (forall c :: c in cats && c.userId == user ==> c.id != id) ==> name == UnknownName
    ensures id in ids && (exists c :: c in cats && c.userId == user && c.id == id) ==>
              exists c :: c in cats && c.userId == user && c.id == id && c.name == name
  {
    MapGet(NamedCategories(cats, user, ids), id).GetOr(UnknownName)
  }

  /** In a valid table ids are unique, so the name is that of the user's
      category with that id, or "(Unknown)" when the user has none; other
      users' categories never supply a name. */
  lemma ResolveNameIsOwnCategory(cats: seq<Category>, user: Id, ids: set<Id>, id: Id)
    requires CategoriesOk(cats) && id in ids
    ensures ResolveName(cats, user, ids, id)
            == match FindCategory(cats, id, user)
               case Some(c) => c.name
               case None => UnknownName
  {
    var f := FindCategory(cats, id, user);
    if f.Some? {
      var c :| c in cats && c.userId == user && c.id == id && c.name == ResolveName(cats, user, ids, id);
      var i :| 0 <= i < |cats| && cats[i] == c;
      FindCategoryUnique(cats, i, user);
    }
  }

  // ---------------------------------------------------------------------
  // The summary.
  // ---------------------------------------------------------------------

  function ToTopCategories(top: seq<Group>, cats: seq<Category>, user: Id): (r: seq<TopCategory>)
    ensures |r| == |top|
    ensures forall i :: 0 <= i < |r| ==> r[i].categoryId == top[i].categoryId && r[i].total == top[i].total
                                         && r[i].name == ResolveName(cats, user, GroupIds(top), top[i].categoryId)
  {
    var ids := GroupIds(top);
    seq(|top|, i requires 0 <= i < |top| =>
      TopCategory(top[i].categoryId, ResolveName(cats, user, ids, top[i].categoryId), top[i].total))
  }

  /** The expense groups of the user's rows in `r`, ranked and cut to five. */
  function TopExpenseGroups(txs: seq<Transaction>, user: Id, r: Range): seq<Group> {
    TopGroups(GroupByCategory(Select(txs, user, Expense, r)))
  }

  /** What the route computes once the user and the month range are known. */
  function Summarize(txs: seq<Transaction>, cats: seq<Category>, user: Id, month: string, r: Range): Summary {
    var totalIncome := AggregateSum(Select(txs, user, Income, r)).GetOr(0);
    var totalExpense := AggregateSum(Select(txs, user, Expense, r)).GetOr(0);
    var top := TopExpenseGroups(txs, user, r);
    Summary(month, r, totalIncome, totalExpense, totalIncome - totalExpense, ToTopCategories(top, cats, user))
  }

  ghost predicate TopIdsDistinct(top: seq<TopCategory>) {
    forall i, j :: 0 <= i < j < |top| ==> top[i].categoryId != top[j].categoryId
  }

  ghost predicate TopTotalsCorrect(top: seq<TopCategory>, txs: seq<Transaction>, user: Id, r: Range) {
    forall i :: 0 <= i < |top| ==> top[i].total == CategoryExpenseOf(txs, user, r, top[i].categoryId)
  }

  ghost predicate TopNamesCorrect(top: seq<TopCategory>, cats: seq<Category>, user: Id) {
    forall i :: 0 <= i < |top| ==>
      top[i].name == match FindCategory(cats, top[i].categoryId, user)
                     case Some(c) => c.name
                     case None => UnknownName
  }

  ghost predicate TopOrdered(top: seq<TopCategory>) {
    forall i, j :: 0 <= i < j < |top| ==> top[i].total >= top[j].total
  }

  /** No category left out has spent more than the last entry; when fewer
      than five are listed, no category left out has spent anything. */
  ghost predicate NoneLeftOutLarger(top: seq<TopCategory>, txs: seq<Transaction>, user: Id, r: Range) {
    forall cid :: (forall i :: 0 <= i < |top| ==> top[i].categoryId != cid) ==>
      if |top| == TopCount then CategoryExpenseOf(txs, user, r, cid) <= top[TopCount - 1].total
      else CategoryExpenseOf(txs, user, r, cid) == 0
  }

  /** What `topCategories` promises: at most five entries with distinct ids,
      each with the total of that category's expenses in the range and the
      name of the user's category of that id (or "(Unknown)"), totals not
      increasing, and no category left out that spent more. */
  ghost predicate RankedTopCategories(top: seq<TopCategory>, txs: seq<Transaction>, cats: seq<Category>, user: Id, r: Range) {
    && |top| <= TopCount
    && TopIdsDistinct(top)
    && TopTotalsCorrect(top, txs, user, r)
    && TopNamesCorrect(top, cats, user)
    && TopOrdered(top)
    && NoneLeftOutLarger(top, txs, user, r)
  }

  /** The per-category sums of the selected expense rows are the reference
      per-category totals. */
  lemma {:induction false} CategorySumIsCategoryExpense(txs: seq<Transaction>, user: Id, r: Range, cid: Id)
    ensures CategorySum(Select(txs, user, Expense, r), cid) == CategoryExpenseOf(txs, user, r, cid)
  {
    if txs != [] {
      CategorySumIsCategoryExpense(txs[1..], user, r, cid);
      var rest := Select(txs[1..], user, Expense, r);
      if Selected(txs[0], user, Expense, r) {
        assert Select(txs, user, Expense, r) == [txs[0]] + rest;
        assert ([txs[0]] + rest)[1..] == rest;
      } else {
        assert Select(txs, user, Expense, r) == rest;
      }
    }
  }

  /** A category absent from the rows has nothing booked on it. */
  lemma {:induction false} AbsentCategorySumIsZero(rows: seq<Transaction>, cid: Id)
    requires cid !in RowCategoryIds(rows)
    ensures CategorySum(rows, cid) == 0
  {
    if rows != [] {
      AbsentCategorySumIsZero(rows[1..], cid);
    }
  }

  /** With positive amounts a category that occurs has a positive sum. */
  lemma {:induction false} PositiveCategorySum(rows: seq<Transaction>, cid: Id)
    requires forall t :: t in rows ==> t.amount > 0
    requires cid in RowCategoryIds(rows)
    ensures CategorySum(rows, cid) > 0
  {
    assert rows[0] in rows;
    assert forall t :: t in rows[1..] ==> t in rows;
    if rows[0].categoryId != cid {
      PositiveCategorySum(rows[1..], cid);
    } else {
      NonNegativeCategorySum(rows[1..], cid);
    }
  }

  lemma {:induction false} NonNegativeCategorySum(rows: seq<Transaction>, cid: Id)
    requires forall t :: t in rows ==> t.amount > 0
    ensures CategorySum(rows, cid) >= 0
  {
    if rows != [] {
      assert rows[0] in rows;
      assert forall t :: t in rows[1..] ==> t in rows;
      NonNegativeCategorySum(rows[1..], cid);
    }
  }

  /** Each of the top expense groups carries its category's reference total. */
  lemma TopExpenseGroupsTotals(txs: seq<Transaction>, user: Id, r: Range)
    ensures var top := TopExpenseGroups(txs, user, r);
            forall i :: 0 <= i < |top| ==> top[i].total == CategoryExpenseOf(txs, user, r, top[i].categoryId)
  {
    var groups := GroupByCategory(Select(txs, user, Expense, r));
    var top := TopExpenseGroups(txs, user, r);
    TopGroupsRanked(groups);
    forall i | 0 <= i < |top| ensures top[i].total == CategoryExpenseOf(txs, user, r, top[i].categoryId) {
      assert top[i] in top;
      var k :| 0 <= k < |groups| && groups[k] == top[i];
      GroupTotalOfMember(groups, k);
      CategorySumIsCategoryExpense(txs, user, r, top[i].categoryId);
    }
  }

  /** A category left out of the top expense groups spent no more than the
      fifth, and nothing at all when fewer than five are listed. */
  lemma TopExpenseGroupsLeaveOutSmaller(txs: seq<Transaction>, user: Id, r: Range, cid: Id)
    requires AllPositive(txs)
    requires cid !in GroupIds(TopExpenseGroups(txs, user, r))
    ensures var top := TopExpenseGroups(txs, user, r);
            if |top| == TopCount then CategoryExpenseOf(txs, user, r, cid) <= top[TopCount - 1].total
            else CategoryExpenseOf(txs, user, r, cid) == 0
  {
    var rows := Select(txs, user, Expense, r);
    var groups := GroupByCategory(rows);
    var top := TopExpenseGroups(txs, user, r);
    TopGroupsRanked(groups);
    CategorySumIsCategoryExpense(txs, user, r, cid);
    if cid in RowCategoryIds(rows) {
      GroupIdsMembers(groups, cid);
      var k :| 0 <= k < |groups| && groups[k].categoryId == cid;
      assert groups[k] in groups;
      GroupTotalOfMember(groups, k);
    } else {
      AbsentCategorySumIsZero(rows, cid);
      if |top| == TopCount {
        var last := top[TopCount - 1];
        assert last in top;
        var k :| 0 <= k < |groups| && groups[k] == last;
        GroupTotalOfMember(groups, k);
        GroupIdsMembers(groups, last.categoryId);
        assert forall t :: t in rows ==> t.amount > 0 by {
          forall t | t in rows ensures t.amount > 0 {
            var i :| 0 <= i < |txs| && txs[i] == t;
          }
        }
        PositiveCategorySum(rows, last.categoryId);
      }
    }
  }

  /** The names of the top entries are those of the user's categories. */
  lemma TopCategoriesNamed(top: seq<Group>, cats: seq<Category>, user: Id)
    requires CategoriesOk(cats)
    ensures TopNamesCorrect(ToTopCategories(top, cats, user), cats, user)
  {
    var entries := ToTopCategories(top, cats, user);
    forall i | 0 <= i < |entries|
      ensures entries[i].name == match FindCategory(cats, entries[i].categoryId, user)
                                 case Some(c) => c.name
                                 case None => UnknownName
    {
      GroupIdsMembers(top, top[i].categoryId);
      ResolveNameIsOwnCategory(cats, user, GroupIds(top), top[i].categoryId);
    }
  }

  /** The entries built from the top expense groups meet every promise of
      `topCategories`. */
  lemma TopCategoriesRanked(txs: seq<Transaction>, cats: seq<Category>, user: Id, r: Range)
    requires AllPositive(txs) && CategoriesOk(cats)
    ensures RankedTopCategories(ToTopCategories(TopExpenseGroups(txs, user, r), cats, user), txs, cats, user, r)
  {
    var groups := GroupByCategory(Select(txs, user, Expense, r));
    var top := TopExpenseGroups(txs, user, r);
    var entries := ToTopCategories(top, cats, user);
    TopGroupsRanked(groups);
    TopExpenseGroupsTotals(txs, user, r);
    TopCategoriesNamed(top, cats, user);
    assert TopIdsDistinct(entries);
    assert TopOrdered(entries);
    assert TopTotalsCorrect(entries, txs, user, r);
    forall cid | forall i :: 0 <= i < |entries| ==> entries[i].categoryId != cid
      ensures if |entries| == TopCount then CategoryExpenseOf(txs, user, r, cid) <= entries[TopCount - 1].total
              else CategoryExpenseOf(txs, user, r, cid) == 0
    {
      GroupIdsMembers(top, cid);
      TopExpenseGroupsLeaveOutSmaller(txs, user, r, cid);
    }
  }

  /** The summary's totals are the reference totals, the balance is their
      difference, and its top categories are ranked as promised. */
  lemma SummarizeIsCorrect(txs: seq<Transaction>, cats: seq<Category>, user: Id, month: string, r: Range)
    requires AllPositive(txs) && CategoriesOk(cats)
    ensures var s := Summarize(txs, cats, user, month, r);
            && s.month == month && s.range == r
            && s.totalIncome == TotalOf(txs, user, Income, r)
            && s.totalExpense == TotalOf(txs, user, Expense, r)
            && s.balance == s.totalIncome - s.totalExpense
            && RankedTopCategories(s.topCategories, txs, cats, user, r)
  {
    AggregateIsTotal(txs, user, Income, r);
    AggregateIsTotal(txs, user, Expense, r);
    TopCategoriesRanked(txs, cats, user, r);
  }

  /** `GET /api/summary`: 401 without a user, 422 (with the failing field)
      for a missing or malformed month, otherwise the summary of the
      current tables; only the success path reads the tables. */
  function Get(db: Database, session: Option<Id>, month: Option<string>): (resp: Response<Summary>)
    reads db
    requires db.Valid()
    ensures SessionUser(session).None? ==> resp == Fail(401, "Unauthorized", [])
    ensures SessionUser(session).Some? && ResolveMonth(month).None? ==>
              resp == Fail(422, "Validasi query gagal", ["month"])
    ensures resp.Ok? <==> SessionUser(session).Some? && ResolveMonth(month).Some?
    ensures resp.Ok? ==>
              var user, s := SessionUser(session).value, resp.value;
              && resp.status == 200
              && s.month == month.value && Some(s.range) == ResolveMonth(month)
              && s.totalIncome == TotalOf(db.transactions, user, Income, s.range)
              && s.totalExpense == TotalOf(db.transactions, user, Expense, s.range)
              && s.balance == s.totalIncome - s.totalExpense
              && RankedTopCategories(s.topCategories, db.transactions, db.categories, user, s.range)
  {
    match SessionUser(session)
    case None => Fail(401, "Unauthorized", [])
    case Some(user) =>
      match ResolveMonth(month)
      case None => Fail(422, "Validasi query gagal", ["month"])
      case Some(r) =>
        assert AllPositive(db.transactions);
        SummarizeIsCorrect(db.transactions, db.categories, user, month.value, r);
        Ok(200, Summarize(db.transactions, db.categories, user, month.value, r))
  }
}
