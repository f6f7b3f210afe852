/** The budget table's data access: the owner-scoped listing joined with
    each budget's category, lookup, create, amount update and delete, and
    the budget-versus-actual comparison of one month. */
module Budgets {
  import opened Basics
  import opened Seqs
  import opened Sorting
  import opened Schema

  // ---------------------------------------------------------------------
  // Listing

  /** A listed budget with its category's `category_name` and
      `category_type`. */
  datatype ListedBudget = ListedBudget(entry: Budget, categoryName: string, categoryType: string)

  /** A month or year filter applies only when given and non-zero
      (JavaScript truthiness). */
  predicate FilterActive(n: Option<int>)
  {
    n.Some? && n.value != 0
  }

  /** The inner join's condition: the budget references a category that
      exists. A budget with a NULL category joins with nothing. */
  predicate Joins(cats: seq<Category>, b: Budget)
  {
    b.categoryId.Some? && HasCategory(cats, b.categoryId.value)
  }

  /** The WHERE clause and the inner join of the listing. */
  predicate Selected(cats: seq<Category>, b: Budget, user: nat, month: Option<int>, year: Option<int>)
  {
    && b.owner == user
    && (FilterActive(month) ==> b.month == month.value)
    && (FilterActive(year) ==> b.year == year.value)
    && Joins(cats, b)
  }

  function SelectedBy(cats: seq<Category>, user: nat, month: Option<int>, year: Option<int>): Budget -> bool
  {
    (b: Budget) => Selected(cats, b, user, month, year)
  }

  /** The budget joined with its category; only called for budgets whose
      category exists. */
  function Joined(cats: seq<Category>, b: Budget): (r: ListedBudget)
    requires Joins(cats, b)
    ensures r.entry == b
    ensures exists i :: 0 <= i < |cats| && Some(cats[i].id) == b.categoryId
              && r.categoryName == cats[i].name && r.categoryType == cats[i].kind
  {
    var c := CategoryById(cats, b.categoryId.value).value;
    ListedBudget(b, c.name, c.kind)
  }

  function Entries(r: seq<ListedBudget>): seq<Budget>
  {
    seq(|r|, i requires 0 <= i < |r| => r[i].entry)
  }

  function ByCategoryName(r: ListedBudget): seq<int>
  {
    TextKey(r.categoryName)
  }

  /** A listed row is one of the user's budgets passing the filters,
      carrying the name and type of the category it references. */
  predicate ListingRow(s: Store, r: ListedBudget, user: nat, month: Option<int>, year: Option<int>)
  {
    && r.entry in s.budgets
    && Selected(s.categories, r.entry, user, month, year)
    && exists k :: 0 <= k < |s.categories| && Some(s.categories[k].id) == r.entry.categoryId
         && r.categoryName == s.categories[k].name && r.categoryType == s.categories[k].kind
  }

  function ListingRowBy(s: Store, user: nat, month: Option<int>, year: Option<int>): ListedBudget -> bool
  {
    (r: ListedBudget) => ListingRow(s, r, user, month, year)
  }

  /** The joined rows of the listing, before ORDER BY. */
  function ListingRows(s: Store, user: nat, month: Option<int>, year: Option<int>): (r: seq<ListedBudget>)
    ensures forall i :: 0 <= i < |r| ==> ListingRow(s, r[i], user, month, year)
    ensures Entries(r) == Filter(s.budgets, SelectedBy(s.categories, user, month, year))
  {
    var kept := Filter(s.budgets, SelectedBy(s.categories, user, month, year));
    seq(|kept|, i requires 0 <= i < |kept| => Joined(s.categories, kept[i]))
  }

  /** Budget.getByUser: the user's budgets, narrowed by month and year when
      those are given, each with its category's name and type, ordered by
      category name. */
  function GetByUser(s: Store, user: nat, month: Option<int>, year: Option<int>): (r: seq<ListedBudget>)
    ensures forall i :: 0 <= i < |r| ==> ListingRow(s, r[i], user, month, year)
    ensures forall k :: 0 <= k < |s.budgets| && Selected(s.categories, s.budgets[k], user, month, year)
              ==> s.budgets[k] in Entries(r)
    ensures multiset(Entries(r)) == multiset(Filter(s.budgets, SelectedBy(s.categories, user, month, year)))
    ensures SortedBy(r, ByCategoryName)
  {
    var rows := ListingRows(s, user, month, year);
    var r := SortBy(rows, ByCategoryName);
    PermutationKeepsAll(rows, r, ListingRowBy(s, user, month, year));
    ListingComplete(s, user, month, year, rows, r);
    SortedEntriesPermute(rows, r);
    r
  }

  /** Reordering the joined rows reorders their budgets alike. */
  lemma SortedEntriesPermute(rows: seq<ListedBudget>, r: seq<ListedBudget>)
    requires multiset(r) == multiset(rows)
    ensures multiset(Entries(r)) == multiset(Entries(rows))
  {
    var entry := (x: ListedBudget) => x.entry;
    ImagesPermute(r, rows, entry);
    assert Entries(r) == Images(r, entry);
    assert Entries(rows) == Images(rows, entry);
  }

  lemma ListingComplete(s: Store, user: nat, month: Option<int>, year: Option<int>,
                        rows: seq<ListedBudget>, r: seq<ListedBudget>)
    requires Entries(rows) == Filter(s.budgets, SelectedBy(s.categories, user, month, year))
    requires multiset(r) == multiset(rows)
    ensures forall k :: 0 <= k < |s.budgets| && Selected(s.categories, s.budgets[k], user, month, year)
              ==> s.budgets[k] in Entries(r)
  {
    PermutationLength(rows, r);
    forall k | 0 <= k < |s.budgets| && Selected(s.categories, s.budgets[k], user, month, year)
      ensures s.budgets[k] in Entries(r)
    {
      assert SelectedBy(s.categories, user, month, year)(s.budgets[k]);
      var q :| 0 <= q < |rows| && Entries(rows)[q] == s.budgets[k];
      assert rows[q] in r;
      var j :| 0 <= j < |r| && r[j] == rows[q];
      assert Entries(r)[j] == s.budgets[k];
    }
  }

  function IdAndOwner(cats: seq<Category>, id: nat, user: nat): Budget -> bool
  {
    (b: Budget) => b.id == id && b.owner == user && Joins(cats, b)
  }

  /** Budget.getById: the row with this id, only if the user owns it, joined
      with its category. */
  function GetById(s: Store, id: nat, user: nat): (r: Option<ListedBudget>)
    ensures r.Some? ==> && r.value.entry in s.budgets
                        && r.value.entry.id == id && r.value.entry.owner == user
                        && exists k :: 0 <= k < |s.categories| && Some(s.categories[k].id) == r.value.entry.categoryId
                             && r.value.categoryName == s.categories[k].name
    ensures r.None? <==> forall i :: 0 <= i < |s.budgets| ==>
              !(s.budgets[i].id == id && s.budgets[i].owner == user && Joins(s.categories, s.budgets[i]))
  {
    var b := FindFirst(s.budgets, IdAndOwner(s.categories, id, user));
    if b.Some? then Some(Joined(s.categories, b.value)) else None
  }

  // ---------------------------------------------------------------------
  // Writes

  /** Some budget already holds this (month, year, category, owner). A NULL
      category is never taken: NULL equals nothing under UNIQUE. */
  predicate KeyTaken(bs: seq<Budget>, month: int, year: int, categoryId: Option<nat>, user: nat)
  {
    categoryId.Some? && exists i :: 0 <= i < |bs| && BudgetKey(bs[i]) == Keyed(month, year, categoryId.value, user)
  }

  /** Budget.create: INSERT (amount, month, year, category_id, user_id)
      RETURNING *. The category may be NULL; then neither UNIQUE nor the
      foreign key can refuse the row. */
  function Create(s: Store, amount: int, month: int, year: int, categoryId: Option<nat>, user: nat)
    : (r: Result<Written<Budget>, DbError>)
    ensures r.Ok? ==>
              && r.value.row == Budget(s.nextBudgetId, amount, month, year, categoryId, user)
              && r.value.store == s.(budgets := s.budgets + [r.value.row], nextBudgetId := s.nextBudgetId + 1)
    ensures r.Ok? <==> && FitsDecimal(amount) && FitsInteger(year) && 1 <= month <= 12
                       && !KeyTaken(s.budgets, month, year, categoryId, user)
                       && (categoryId.Some? ==> HasCategory(s.categories, categoryId.value))
    ensures r == Err(NumericOutOfRange) <==> !(FitsDecimal(amount) && FitsInteger(month) && FitsInteger(year))
    ensures r == Err(CheckViolation) <==>
              FitsDecimal(amount) && FitsInteger(month) && FitsInteger(year) && !(1 <= month <= 12)
    ensures r == Err(UniqueViolation) <==>
              && FitsDecimal(amount) && FitsInteger(year) && 1 <= month <= 12
              && KeyTaken(s.budgets, month, year, categoryId, user)
    ensures r == Err(ForeignKeyViolation) <==>
              && FitsDecimal(amount) && FitsInteger(year) && 1 <= month <= 12
              && !KeyTaken(s.budgets, month, year, categoryId, user)
              && categoryId.Some? && !HasCategory(s.categories, categoryId.value)
  {
    if !FitsDecimal(amount) || !FitsInteger(month) || !FitsInteger(year) then Err(NumericOutOfRange)
    else if !(1 <= month <= 12) then Err(CheckViolation)
    else if KeyTaken(s.budgets, month, year, categoryId, user) then Err(UniqueViolation)
    else if categoryId.Some? && !HasCategory(s.categories, categoryId.value) then Err(ForeignKeyViolation)
    else
      var b := Budget(s.nextBudgetId, amount, month, year, categoryId, user);
      Ok(Written(s.(budgets := s.budgets + [b], nextBudgetId := s.nextBudgetId + 1), b))
  }

  function OwnedWithId(id: nat, user: nat): Budget -> bool
  {
    (b: Budget) => b.id == id && b.owner == user
  }

  /** Budget.update: SET amount WHERE id AND user_id RETURNING *. Only the
      amount changes; no matching row means no effect and no row. The
      amount's DECIMAL(12,2) coercion is folded when the statement is
      planned, so too wide an amount fails even if no row matches. */
  function Update(s: Store, id: nat, amount: int, user: nat): (r: Result<Written<Option<Budget>>, DbError>)
    ensures r.Ok? <==> FitsDecimal(amount)
    ensures r == Err(NumericOutOfRange) <==> !FitsDecimal(amount)
    ensures FitsDecimal(amount) && FindFirst(s.budgets, OwnedWithId(id, user)).None? ==> r == Ok(Written(s, None))
    ensures r.Ok? ==> (r.value.row.Some? <==> FindFirst(s.budgets, OwnedWithId(id, user)).Some?)
    ensures r.Ok? && r.value.row.Some? ==>
              var before := FindFirst(s.budgets, OwnedWithId(id, user)).value;
              r.value.row.value == before.(amount := amount)
    ensures r.Ok? ==>
              var bs' := r.value.store.budgets;
              && |bs'| == |s.budgets|
              && (forall i :: 0 <= i < |bs'| ==>
                    bs'[i] == if OwnedWithId(id, user)(s.budgets[i]) then s.budgets[i].(amount := amount) else s.budgets[i])
              && r.value.store == s.(budgets := bs')
  {
    var target := FindFirst(s.budgets, OwnedWithId(id, user));
    if !FitsDecimal(amount) then Err(NumericOutOfRange)
    else if target.None? then Ok(Written(s, None))
    else
      var bs' := seq(|s.budgets|, i requires 0 <= i < |s.budgets| =>
                   if OwnedWithId(id, user)(s.budgets[i]) then s.budgets[i].(amount := amount) else s.budgets[i]);
      Ok(Written(s.(budgets := bs'), Some(target.value.(amount := amount))))
  }

  function NotOwnedWithId(id: nat, user: nat): Budget -> bool
  {
    (b: Budget) => !(b.id == id && b.owner == user)
  }

  /** Budget.delete: DELETE WHERE id AND user_id. Always reports success. */
  function Delete(s: Store, id: nat, user: nat): (r: Written<bool>)
    ensures r.row
    ensures forall i :: 0 <= i < |r.store.budgets| ==> !OwnedWithId(id, user)(r.store.budgets[i])
    ensures forall i :: 0 <= i < |s.budgets| ==>
              (s.budgets[i] in r.store.budgets <==> !OwnedWithId(id, user)(s.budgets[i]))
    ensures forall i :: 0 <= i < |r.store.budgets| ==> r.store.budgets[i] in s.budgets
    ensures r.store == s.(budgets := r.store.budgets)
  {
    Written(s.(budgets := Filter(s.budgets, NotOwnedWithId(id, user))), true)
  }

  lemma {:induction false} FilterOfFiltered(bs: seq<Budget>, id: nat, user: nat)
    ensures Filter(Filter(bs, NotOwnedWithId(id, user)), NotOwnedWithId(id, user))
         == Filter(bs, NotOwnedWithId(id, user))
  {
    if |bs| > 0 {
      FilterOfFiltered(bs[1..], id, user);
    }
  }

  /** A repeated delete is a no-op. */
  lemma DeleteIdempotent(s: Store, id: nat, user: nat)
    ensures Delete(Delete(s, id, user).store, id, user).store == Delete(s, id, user).store
  {
    FilterOfFiltered(s.budgets, id, user);
  }

  /** A second budget for the same month, year, category and owner is
      refused, and the first one stays as it was. */
  lemma DuplicateRejected(s: Store, k: int, amount: int, user: nat)
    requires 0 <= k < |s.budgets| && s.budgets[k].owner == user && s.budgets[k].categoryId.Some?
    requires FitsDecimal(amount) && BudgetsOk(s.budgets, s.categories, s.nextBudgetId)
    ensures var b := s.budgets[k];
            Create(s, amount, b.month, b.year, b.categoryId, user) == Err(UniqueViolation)
  {
    var b := s.budgets[k];
    assert BudgetKey(b) == Keyed(b.month, b.year, b.categoryId.value, user);
  }

  /** Budgets without a category never collide: any number of them may
      share a month, a year and an owner. */
  lemma NullCategoryNeverDuplicate(s: Store, amount: int, month: int, year: int, user: nat)
    requires Valid(s) && FitsDecimal(amount) && FitsInteger(year) && 1 <= month <= 12
    ensures var r := Create(s, amount, month, year, None, user);
            && r.Ok?
            && var r2 := Create(r.value.store, amount, month, year, None, user);
               r2.Ok? && r2.value.row.id != r.value.row.id
  {
  }

  lemma CreateKeepsValid(s: Store, amount: int, month: int, year: int, categoryId: Option<nat>, user: nat)
    requires Valid(s) && Create(s, amount, month, year, categoryId, user).Ok?
    ensures Valid(Create(s, amount, month, year, categoryId, user).value.store)
  {
    var b := Create(s, amount, month, year, categoryId, user).value.row;
    assert forall i :: 0 <= i < |s.budgets| ==> BudgetKey(s.budgets[i]) != BudgetKey(b);
    KeysDistinctAppend(s.budgets, b, BudgetIdOf);
    KeysDistinctAppend(s.budgets, b, BudgetKey);
  }

  lemma UpdateKeepsValid(s: Store, id: nat, amount: int, user: nat)
    requires Valid(s) && Update(s, id, amount, user).Ok?
    ensures Valid(Update(s, id, amount, user).value.store)
  {
    var bs' := Update(s, id, amount, user).value.store.budgets;
    forall i, j | 0 <= i < j < |bs'|
      ensures bs'[i].id != bs'[j].id && BudgetKey(bs'[i]) != BudgetKey(bs'[j])
    {
      assert BudgetKey(bs'[i]) == BudgetKey(s.budgets[i]) && BudgetKey(bs'[j]) == BudgetKey(s.budgets[j]);
    }
  }

  lemma DeleteKeepsValid(s: Store, id: nat, user: nat)
    requires Valid(s)
    ensures Valid(Delete(s, id, user).store)
  {
    FilterKeysDistinct(s.budgets, NotOwnedWithId(id, user), BudgetIdOf);
    FilterKeysDistinct(s.budgets, NotOwnedWithId(id, user), BudgetKey);
  }

  // ---------------------------------------------------------------------
  // Budget against actual spending

  /** A comparison row. `budgetAmount` and `difference` are NULL (None) for
      a category without a budget in the month; `actualAmount` is 0 for one
      without spending. */
  datatype ComparisonRow = ComparisonRow(
    categoryId: nat, categoryName: string, budgetAmount: Option<int>,
    actualAmount: int, difference: Option<int>)

  /** The expense categories the comparison lists: the user's. */
  predicate IsUserExpenseCategory(c: Category, user: nat)
  {
    c.owner == user && c.kind == Expense
  }

  function UserExpenseCategory(user: nat): Category -> bool
  {
    (c: Category) => IsUserExpenseCategory(c, user)
  }

  /** The LEFT JOIN condition on budgets. */
  function BudgetOf(categoryId: nat, month: int, year: int, user: nat): Budget -> bool
  {
    (b: Budget) => BudgetKey(b) == Keyed(month, year, categoryId, user)
  }

  /** The budget amount the LEFT JOIN pairs the category with, if any. */
  function BudgetFor(bs: seq<Budget>, categoryId: nat, month: int, year: int, user: nat): (r: Option<int>)
    ensures r.Some? <==> KeyTaken(bs, month, year, Some(categoryId), user)
    ensures r.Some? ==> exists i :: 0 <= i < |bs| && BudgetKey(bs[i]) == Keyed(month, year, categoryId, user)
                          && bs[i].amount == r.value
  {
    var b := FindFirst(bs, BudgetOf(categoryId, month, year, user));
    if b.Some? then Some(b.value.amount) else None
  }

  /** The LEFT JOIN condition on transactions: the user's expenses in the
      category dated in the month. */
  predicate SpentIn(t: Transaction, categoryId: nat, month: int, year: int, user: nat)
  {
    && t.categoryId == Some(categoryId) && t.date.month == month && t.date.year == year
    && t.owner == user && t.kind == Expense
  }

  function SpentInBy(categoryId: nat, month: int, year: int, user: nat): Transaction -> bool
  {
    (t: Transaction) => SpentIn(t, categoryId, month, year, user)
  }

  /** What the user spent in the category in the month, straight from the
      table: COALESCE(SUM(amount), 0). */
  function Spent(txs: seq<Transaction>, categoryId: nat, month: int, year: int, user: nat): int
  {
    if |txs| == 0 then 0
    else (if SpentIn(txs[0], categoryId, month, year, user) then txs[0].amount else 0)
         + Spent(txs[1..], categoryId, month, year, user)
  }

  lemma {:induction false} FilterSpent(txs: seq<Transaction>, categoryId: nat, month: int, year: int, user: nat)
    ensures SumBy(Filter(txs, SpentInBy(categoryId, month, year, user)), AmountOf)
         == Spent(txs, categoryId, month, year, user)
  {
    if |txs| > 0 {
      FilterSpent(txs[1..], categoryId, month, year, user);
      var rest := Filter(txs[1..], SpentInBy(categoryId, month, year, user));
      if SpentIn(txs[0], categoryId, month, year, user) {
        assert ([txs[0]] + rest)[1..] == rest;
      }
    }
  }

  /** One category's row. */
  function CompareOne(s: Store, c: Category, month: int, year: int, user: nat): (r: ComparisonRow)
    ensures r.categoryId == c.id && r.categoryName == c.name
    ensures r.budgetAmount == BudgetFor(s.budgets, c.id, month, year, user)
    ensures r.actualAmount == Spent(s.transactions, c.id, month, year, user)
    ensures r.difference.Some? <==> r.budgetAmount.Some?
    ensures r.difference.Some? ==> r.difference.value == r.budgetAmount.value - r.actualAmount
  {
    var budget := BudgetFor(s.budgets, c.id, month, year, user);
    var actual := SumBy(Filter(s.transactions, SpentInBy(c.id, month, year, user)), AmountOf);
    FilterSpent(s.transactions, c.id, month, year, user);
    ComparisonRow(c.id, c.name, budget, actual, if budget.Some? then Some(budget.value - actual) else None)
  }

  function RowCategoryId(r: ComparisonRow): nat
  {
    r.categoryId
  }

  function RowNameKey(r: ComparisonRow): seq<int>
  {
    TextKey(r.categoryName)
  }

  /** The row is the comparison of one of the user's expense categories. */
  predicate IsComparison(s: Store, r: ComparisonRow, month: int, year: int, user: nat)
  {
    exists k :: 0 <= k < |s.categories| && IsUserExpenseCategory(s.categories[k], user)
      && r == CompareOne(s, s.categories[k], month, year, user)
  }

  function IsComparisonBy(s: Store, month: int, year: int, user: nat): ComparisonRow -> bool
  {
    (r: ComparisonRow) => IsComparison(s, r, month, year, user)
  }

  /** The ids of the user's expense categories. */
  function ExpenseCategoryIds(cats: seq<Category>, user: nat): set<nat>
  {
    set k | 0 <= k < |cats| && IsUserExpenseCategory(cats[k], user) :: cats[k].id
  }

  /** One comparison row per given category, in order. */
  function CompareAll(s: Store, cats: seq<Category>, month: int, year: int, user: nat): (rows: seq<ComparisonRow>)
    ensures |rows| == |cats| && forall i :: 0 <= i < |rows| ==> rows[i] == CompareOne(s, cats[i], month, year, user)
  {
    seq(|cats|, i requires 0 <= i < |cats| => CompareOne(s, cats[i], month, year, user))
  }

  /** The rows before ORDER BY, one per category, in table order. */
  function ComparisonRows(s: Store, month: int, year: int, user: nat): (r: seq<ComparisonRow>)
    ensures forall i :: 0 <= i < |r| ==> IsComparison(s, r[i], month, year, user)
    ensures KeySet(r, RowCategoryId) == ExpenseCategoryIds(s.categories, user)
    ensures KeysDistinct(s.categories, CategoryIdOf) ==> KeysDistinct(r, RowCategoryId)
  {
    var cats := Filter(s.categories, UserExpenseCategory(user));
    var rows := CompareAll(s, cats, month, year, user);
    RowsAreComparisons(s, month, year, user, cats, rows);
    RowIdsAreCategoryIds(s, user, cats, rows);
    ComparisonRowsDistinct(s, user, cats, rows);
    rows
  }

  lemma RowIdsAreCategoryIds(s: Store, user: nat, cats: seq<Category>, rows: seq<ComparisonRow>)
    requires cats == Filter(s.categories, UserExpenseCategory(user))
    requires |rows| == |cats| && forall i :: 0 <= i < |rows| ==> rows[i].categoryId == cats[i].id
    ensures KeySet(rows, RowCategoryId) == ExpenseCategoryIds(s.categories, user)
  {
    KeySetPointwise(rows, RowCategoryId, cats, CategoryIdOf);
    FilterKeySet(s.categories, UserExpenseCategory(user), CategoryIdOf);
  }

  /** Budget.getBudgetComparison: one row for every expense category of the
      user, budget or not, spending or not, ordered by category name. */
  function Comparison(s: Store, month: int, year: int, user: nat): (r: seq<ComparisonRow>)
    ensures forall i :: 0 <= i < |r| ==> IsComparison(s, r[i], month, year, user)
    ensures KeySet(r, RowCategoryId) == ExpenseCategoryIds(s.categories, user)
    ensures KeysDistinct(s.categories, CategoryIdOf) ==> KeysDistinct(r, RowCategoryId)
    ensures SortedBy(r, RowNameKey)
  {
    var rows := ComparisonRows(s, month, year, user);
    var r := SortBy(rows, RowNameKey);
    PermutationKeepsAll(rows, r, IsComparisonBy(s, month, year, user));
    PermutationKeepsKeySet(rows, r, RowCategoryId);
    if KeysDistinct(rows, RowCategoryId) then
      PermutationKeepsKeysDistinct(rows, r, RowCategoryId);
      r
    else r
  }

  lemma RowsAreComparisons(s: Store, month: int, year: int, user: nat, cats: seq<Category>, rows: seq<ComparisonRow>)
    requires cats == Filter(s.categories, UserExpenseCategory(user))
    requires |rows| == |cats| && forall i :: 0 <= i < |rows| ==> rows[i] == CompareOne(s, cats[i], month, year, user)
    ensures forall i :: 0 <= i < |rows| ==> IsComparison(s, rows[i], month, year, user)
  {
    forall i | 0 <= i < |rows| ensures IsComparison(s, rows[i], month, year, user) {
      var k :| 0 <= k < |s.categories| && s.categories[k] == cats[i];
    }
  }

  lemma ComparisonRowsDistinct(s: Store, user: nat, cats: seq<Category>, rows: seq<ComparisonRow>)
    requires cats == Filter(s.categories, UserExpenseCategory(user))
    requires |rows| == |cats| && forall i :: 0 <= i < |rows| ==> rows[i].categoryId == cats[i].id
    ensures KeysDistinct(s.categories, CategoryIdOf) ==> KeysDistinct(rows, RowCategoryId)
  {
    if KeysDistinct(s.categories, CategoryIdOf) {
      FilterKeysDistinct(s.categories, UserExpenseCategory(user), CategoryIdOf);
      forall i, j | 0 <= i < j < |rows| ensures RowCategoryId(rows[i]) != RowCategoryId(rows[j]) {
        assert RowCategoryId(rows[i]) == CategoryIdOf(cats[i]);
        assert RowCategoryId(rows[j]) == CategoryIdOf(cats[j]);
      }
    }
  }

  /** Under the UNIQUE constraint on budgets, the budget the comparison
      reports is the one budget of that category and month. */
  lemma BudgetForIsTheBudget(s: Store, k: int)
    requires Valid(s) && 0 <= k < |s.budgets| && s.budgets[k].categoryId.Some?
    ensures var b := s.budgets[k];
            BudgetFor(s.budgets, b.categoryId.value, b.month, b.year, b.owner) == Some(b.amount)
  {
    var b := s.budgets[k];
    var r := BudgetFor(s.budgets, b.categoryId.value, b.month, b.year, b.owner);
    var i :| 0 <= i < |s.budgets| && BudgetKey(s.budgets[i]) == BudgetKey(b) && s.budgets[i].amount == r.value;
    assert i == k;
  }

  /** A category with neither a budget nor spending in the month still gets
      a row: NULL budget and difference, zero actual. */
  lemma ComparisonWithoutBudgetOrSpending(s: Store, month: int, year: int, user: nat, k: int)
    requires 0 <= k < |s.categories| && IsUserExpenseCategory(s.categories[k], user)
    requires !KeyTaken(s.budgets, month, year, Some(s.categories[k].id), user)
    requires forall i :: 0 <= i < |s.transactions| ==> !SpentIn(s.transactions[i], s.categories[k].id, month, year, user)
    ensures CompareOne(s, s.categories[k], month, year, user)
         == ComparisonRow(s.categories[k].id, s.categories[k].name, None, 0, None)
    ensures exists i :: 0 <= i < |Comparison(s, month, year, user)|
              && Comparison(s, month, year, user)[i].categoryId == s.categories[k].id
  {
    NothingSpent(s.transactions, s.categories[k].id, month, year, user);
    var r := Comparison(s, month, year, user);
    assert s.categories[k].id in ExpenseCategoryIds(s.categories, user);
    assert s.categories[k].id in KeySet(r, RowCategoryId);
  }

  lemma {:induction false} NothingSpent(txs: seq<Transaction>, categoryId: nat, month: int, year: int, user: nat)
    requires forall i :: 0 <= i < |txs| ==> !SpentIn(txs[i], categoryId, month, year, user)
    ensures Spent(txs, categoryId, month, year, user) == 0
  {
    if |txs| > 0 {
      assert forall i :: 0 <= i < |txs[1..]| ==> txs[1..][i] == txs[i + 1];
      NothingSpent(txs[1..], categoryId, month, year, user);
    }
  }
}
