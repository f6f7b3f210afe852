/** The transaction table's data access: the filtered, newest-first listing,
    owner-scoped lookup, create, update and delete, and the two aggregate
    queries the dashboard draws on (the monthly summary grouped by month and
    type, and the per-category summary over a date range). */
module Transactions {
  import opened Basics
  import opened Seqs
  import opened Sorting
  import opened Grouping
  import opened Calendar
  import opened Schema

  // ---------------------------------------------------------------------
  // Listing

  /** The optional filters of the listing. An absent or empty date is None;
      a type of "" or a category or limit of 0 is present but falsy, and
      like an absent one imposes nothing. */
  datatype Filters = Filters(
    kind: Option<string>, categoryId: Option<nat>,
    startDate: Option<Date>, endDate: Option<Date>, limit: Option<nat>)

  predicate KindActive(kind: Option<string>) { kind.Some? && kind.value != "" }
  predicate CategoryActive(categoryId: Option<nat>) { categoryId.Some? && categoryId.value != 0 }
  predicate LimitActive(f: Filters) { f.limit.Some? && f.limit.value != 0 }

  /** The WHERE clause of the listing. */
  predicate Selected(t: Transaction, user: nat, kind: Option<string>, categoryId: Option<nat>,
                     startDate: Option<Date>, endDate: Option<Date>)
  {
    && t.owner == user
    && (KindActive(kind) ==> t.kind == kind.value)
    && (CategoryActive(categoryId) ==> t.categoryId == Some(categoryId.value))
    && (startDate.Some? ==> DateLe(startDate.value, t.date))
    && (endDate.Some? ==> DateLe(t.date, endDate.value))
  }

  function SelectedBy(user: nat, kind: Option<string>, categoryId: Option<nat>,
                      startDate: Option<Date>, endDate: Option<Date>): Transaction -> bool
  {
    (t: Transaction) => Selected(t, user, kind, categoryId, startDate, endDate)
  }

  /** The rows of the store the listing's WHERE clause keeps, in store order. */
  function Matching(s: Store, user: nat, f: Filters): seq<Transaction>
  {
    Filter(s.transactions, SelectedBy(user, f.kind, f.categoryId, f.startDate, f.endDate))
  }

  /** A listed row: the transaction and its joined `category_name`. */
  datatype ListedTransaction = Listed(entry: Transaction, categoryName: Option<string>)

  /** LEFT JOIN categories c ON t.category_id = c.id: the referenced
      category's name, NULL when the reference is NULL or dangling. */
  function CategoryName(cats: seq<Category>, ref: Option<nat>): (r: Option<string>)
    ensures r.Some? ==> exists i :: 0 <= i < |cats| && Some(cats[i].id) == ref && cats[i].name == r.value
    ensures r.None? <==> ref.None? || !HasCategory(cats, ref.value)
  {
    if ref.None? then None
    else
      var c := CategoryById(cats, ref.value);
      if c.Some? then Some(c.value.name) else None
  }

  /** With distinct primary keys the join is a lookup: the name is that of
      the one category carrying the referenced id. */
  lemma CategoryNameIsLookup(cats: seq<Category>, i: int)
    requires KeysDistinct(cats, CategoryIdOf) && 0 <= i < |cats|
    ensures CategoryName(cats, Some(cats[i].id)) == Some(cats[i].name)
  {
    CategoryByIdIsLookup(cats, i);
  }

  function Entries(r: seq<ListedTransaction>): seq<Transaction>
  {
    seq(|r|, i requires 0 <= i < |r| => r[i].entry)
  }

  function NewestFirst(t: Transaction): seq<int>
  {
    NewestFirstKey(t.date)
  }

  function Join(cats: seq<Category>, txs: seq<Transaction>): (r: seq<ListedTransaction>)
    ensures Entries(r) == txs
  {
    seq(|txs|, i requires 0 <= i < |txs| => Listed(txs[i], CategoryName(cats, txs[i].categoryId)))
  }

  lemma NewestFirstOrder()
    ensures forall a: Transaction, b: Transaction ::
              LexLe(NewestFirst(a), NewestFirst(b)) <==> DateLe(b.date, a.date)
  {
    forall a: Transaction, b: Transaction
      ensures LexLe(NewestFirst(a), NewestFirst(b)) <==> DateLe(b.date, a.date)
    {
      NewestFirstKeyOrder(a.date, b.date);
    }
  }

  /** The selected rows in ORDER BY date DESC, before any LIMIT. */
  function Ordered(s: Store, user: nat, f: Filters): (r: seq<Transaction>)
    ensures forall i :: 0 <= i < |r| ==>
              r[i] in s.transactions && Selected(r[i], user, f.kind, f.categoryId, f.startDate, f.endDate)
    ensures forall i, j :: 0 <= i < j < |r| ==> DateLe(r[j].date, r[i].date)
    ensures multiset(r) == multiset(Matching(s, user, f))
    ensures forall k :: 0 <= k < |s.transactions|
              && Selected(s.transactions[k], user, f.kind, f.categoryId, f.startDate, f.endDate)
              ==> s.transactions[k] in r
  {
    var selected := Matching(s, user, f);
    var ordered := SortBy(selected, NewestFirst);
    PermutationLength(ordered, selected);
    PermutationLength(selected, ordered);
    NewestFirstOrder();
    ordered
  }

  /** The start and end dates, when given, are dates the DATE type accepts. */
  predicate DatesValid(f: Filters)
  {
    (f.startDate.Some? ==> ValidDate(f.startDate.value)) && (f.endDate.Some? ==> ValidDate(f.endDate.value))
  }

  /** Transaction.getByUser: the user's transactions passing every present
      filter, newest first, at most `limit` of them when a limit is given.
      A start or end date the DATE type refuses fails the statement. */
  function GetByUser(s: Store, user: nat, f: Filters): (r: Result<seq<ListedTransaction>, DbError>)
    ensures r.Ok? <==> DatesValid(f)
    ensures r.Err? ==> r.error == InvalidDate
    ensures r.Ok? ==> forall i :: 0 <= i < |r.value| ==>
              && r.value[i].entry in s.transactions
              && Selected(r.value[i].entry, user, f.kind, f.categoryId, f.startDate, f.endDate)
              && r.value[i].categoryName == CategoryName(s.categories, r.value[i].entry.categoryId)
    ensures r.Ok? ==> forall i, j :: 0 <= i < j < |r.value| ==> DateLe(r.value[j].entry.date, r.value[i].entry.date)
    ensures r.Ok? && LimitActive(f) ==> |r.value| <= f.limit.value
    ensures r.Ok? && !LimitActive(f) ==> multiset(Entries(r.value)) == multiset(Matching(s, user, f))
  {
    if DatesValid(f) then Ok(Listing(s, user, f)) else Err(InvalidDate)
  }

  /** The rows the listing returns once its dates are accepted. */
  function Listing(s: Store, user: nat, f: Filters): (r: seq<ListedTransaction>)
    ensures forall i :: 0 <= i < |r| ==>
              && r[i].entry in s.transactions
              && r[i].entry.owner == user
              && Selected(r[i].entry, user, f.kind, f.categoryId, f.startDate, f.endDate)
              && r[i].categoryName == CategoryName(s.categories, r[i].entry.categoryId)
    ensures forall i, j :: 0 <= i < j < |r| ==> DateLe(r[j].entry.date, r[i].entry.date)
    ensures LimitActive(f) ==> |r| <= f.limit.value
    ensures !LimitActive(f) ==> multiset(Entries(r)) == multiset(Matching(s, user, f))
    ensures !LimitActive(f) ==>
              forall k :: 0 <= k < |s.transactions|
                && Selected(s.transactions[k], user, f.kind, f.categoryId, f.startDate, f.endDate)
                ==> s.transactions[k] in Entries(r)
  {
    var ordered := Ordered(s, user, f);
    var shown := if LimitActive(f) && f.limit.value < |ordered| then ordered[..f.limit.value] else ordered;
    assert forall i :: 0 <= i < |shown| ==> shown[i] == ordered[i];
    Join(s.categories, shown)
  }

  /** With a limit, the listing is a prefix of the unlimited listing: LIMIT
      cuts the ordered result and never reorders or reselects it. */
  lemma LimitIsPrefix(s: Store, user: nat, f: Filters)
    requires LimitActive(f)
    ensures var all := Listing(s, user, f.(limit := None));
            var n := if f.limit.value < |all| then f.limit.value else |all|;
            Listing(s, user, f) == all[..n]
  {
  }

  /** A limit no smaller than the number of selected rows cuts nothing. */
  lemma LimitAboveCount(s: Store, user: nat, f: Filters)
    requires LimitActive(f) && |Matching(s, user, f)| <= f.limit.value
    ensures Entries(Listing(s, user, f)) == Ordered(s, user, f)
  {
    var ordered := Ordered(s, user, f);
    assert |ordered| == |multiset(ordered)| == |multiset(Matching(s, user, f))|;
  }

  /** Transaction.getById: the row with this id, only if the user owns it. */
  function GetById(s: Store, id: nat, user: nat): (r: Option<ListedTransaction>)
    ensures r.Some? ==> && r.value.entry in s.transactions
                        && r.value.entry.id == id && r.value.entry.owner == user
                        && r.value.categoryName == CategoryName(s.categories, r.value.entry.categoryId)
    ensures r.None? <==> forall i :: 0 <= i < |s.transactions| ==>
              !(s.transactions[i].id == id && s.transactions[i].owner == user)
  {
    var t := FindFirst(s.transactions, IdAndOwner(id, user));
    if t.Some? then Some(Listed(t.value, CategoryName(s.categories, t.value.categoryId))) else None
  }

  function IdAndOwner(id: nat, user: nat): Transaction -> bool
  {
    (t: Transaction) => t.id == id && t.owner == user
  }

  // ---------------------------------------------------------------------
  // Writes

  /** Transaction.create: INSERT (amount, description, date, type,
      category_id, user_id) RETURNING *. */
  function Create(s: Store, amount: int, description: string, date: Date, kind: string,
                  categoryId: Option<nat>, user: nat): (r: Result<Written<Transaction>, DbError>)
    ensures r.Ok? ==>
              && r.value.row == Transaction(s.nextTransactionId, amount, description, date, kind, categoryId, user)
              && r.value.store == s.(transactions := s.transactions + [r.value.row],
                                     nextTransactionId := s.nextTransactionId + 1)
    ensures r.Ok? <==> && ValidDate(date) && FitsDecimal(amount) && IsEntryType(kind)
                       && (categoryId.Some? ==> HasCategory(s.categories, categoryId.value))
    ensures r == Err(InvalidDate) <==> !ValidDate(date)
    ensures r == Err(NumericOutOfRange) <==> ValidDate(date) && !FitsDecimal(amount)
    ensures r == Err(ValueTooLong) <==> ValidDate(date) && FitsDecimal(amount) && !FitsVarchar(kind, TypeLength)
    ensures r == Err(CheckViolation) <==>
              ValidDate(date) && FitsDecimal(amount) && FitsVarchar(kind, TypeLength) && !IsEntryType(kind)
    ensures r == Err(ForeignKeyViolation) <==>
              && ValidDate(date) && FitsDecimal(amount) && IsEntryType(kind)
              && categoryId.Some? && !HasCategory(s.categories, categoryId.value)
  {
    if !ValidDate(date) then Err(InvalidDate)
    else if !FitsDecimal(amount) then Err(NumericOutOfRange)
    else if !FitsVarchar(kind, TypeLength) then Err(ValueTooLong)
    else if !IsEntryType(Varchar(kind, TypeLength)) then Err(CheckViolation)
    else if categoryId.Some? && !HasCategory(s.categories, categoryId.value) then Err(ForeignKeyViolation)
    else
      StoredTypeCheck(kind);
      var t := Transaction(s.nextTransactionId, amount, description, date, kind, categoryId, user);
      Ok(Written(s.(transactions := s.transactions + [t], nextTransactionId := s.nextTransactionId + 1), t))
  }

  /** The row as the update writes it: new amount, description, date and
      category; id, type and owner as before. */
  function Revised(t: Transaction, amount: int, description: string, date: Date, categoryId: Option<nat>): Transaction
  {
    t.(amount := amount, description := description, date := date, categoryId := categoryId)
  }

  /** Transaction.update: SET amount, description, date, category_id WHERE
      id AND user_id RETURNING *. The date is read when the statement is
      bound and the amount's DECIMAL(12,2) coercion is folded when it is
      planned, so a bad date or too wide an amount fails even if no row
      matches. */
  function Update(s: Store, id: nat, amount: int, description: string, date: Date,
                  categoryId: Option<nat>, user: nat): (r: Result<Written<Option<Transaction>>, DbError>)
    ensures r == Err(InvalidDate) <==> !ValidDate(date)
    ensures r == Err(NumericOutOfRange) <==> ValidDate(date) && !FitsDecimal(amount)
    ensures ValidDate(date) && FitsDecimal(amount) && GetById(s, id, user).None? ==> r == Ok(Written(s, None))
    ensures r.Ok? <==> && ValidDate(date) && FitsDecimal(amount)
                       && (|| GetById(s, id, user).None?
                           || (categoryId.Some? ==> HasCategory(s.categories, categoryId.value)))
    ensures r.Ok? ==> (r.value.row.Some? <==> GetById(s, id, user).Some?)
    ensures r.Ok? && r.value.row.Some? ==>
              var before := GetById(s, id, user).value.entry;
              && r.value.row.value.id == id && r.value.row.value.owner == user
              && r.value.row.value.kind == before.kind
              && r.value.row.value.amount == amount && r.value.row.value.description == description
              && r.value.row.value.date == date && r.value.row.value.categoryId == categoryId
    ensures r.Ok? ==>
              var txs' := r.value.store.transactions;
              && |txs'| == |s.transactions|
              && (forall i :: 0 <= i < |txs'| ==>
                    && txs'[i].id == s.transactions[i].id
                    && txs'[i].kind == s.transactions[i].kind
                    && txs'[i].owner == s.transactions[i].owner
                    && txs'[i] == (if IdAndOwner(id, user)(s.transactions[i])
                                   then Revised(s.transactions[i], amount, description, date, categoryId)
                                   else s.transactions[i]))
              && r.value.store == s.(transactions := txs')
    ensures r == Err(ForeignKeyViolation) <==>
              && ValidDate(date) && GetById(s, id, user).Some? && FitsDecimal(amount)
              && categoryId.Some? && !HasCategory(s.categories, categoryId.value)
  {
    if !ValidDate(date) then Err(InvalidDate)
    else if !FitsDecimal(amount) then Err(NumericOutOfRange)
    else
      var target := GetById(s, id, user);
      if target.None? then Ok(Written(s, None))
      else if categoryId.Some? && !HasCategory(s.categories, categoryId.value) then Err(ForeignKeyViolation)
      else
        var txs' := seq(|s.transactions|, i requires 0 <= i < |s.transactions| =>
                      if IdAndOwner(id, user)(s.transactions[i])
                      then Revised(s.transactions[i], amount, description, date, categoryId)
                      else s.transactions[i]);
        Ok(Written(s.(transactions := txs'),
                   Some(Revised(target.value.entry, amount, description, date, categoryId))))
  }

  function NotIdAndOwner(id: nat, user: nat): Transaction -> bool
  {
    (t: Transaction) => !(t.id == id && t.owner == user)
  }

  /** Transaction.delete: DELETE WHERE id AND user_id. Always reports
      success, whether or not a row matched. */
  function Delete(s: Store, id: nat, user: nat): (r: Written<bool>)
    ensures r.row
    ensures GetById(r.store, id, user).None?
    ensures forall i :: 0 <= i < |s.transactions| ==>
              (s.transactions[i] in r.store.transactions <==> !IdAndOwner(id, user)(s.transactions[i]))
    ensures forall i :: 0 <= i < |r.store.transactions| ==> r.store.transactions[i] in s.transactions
    ensures r.store == s.(transactions := r.store.transactions)
  {
    Written(s.(transactions := Filter(s.transactions, NotIdAndOwner(id, user))), true)
  }

  /** A repeated delete is a no-op. */
  lemma DeleteIdempotent(s: Store, id: nat, user: nat)
    ensures Delete(Delete(s, id, user).store, id, user).store == Delete(s, id, user).store
  {
    var once := Delete(s, id, user).store;
    var twice := Delete(once, id, user).store;
    assert once.transactions == Filter(s.transactions, NotIdAndOwner(id, user));
    FilterOfFiltered(s.transactions, id, user);
  }

  lemma {:induction false} FilterOfFiltered(txs: seq<Transaction>, id: nat, user: nat)
    ensures Filter(Filter(txs, NotIdAndOwner(id, user)), NotIdAndOwner(id, user))
         == Filter(txs, NotIdAndOwner(id, user))
  {
    if |txs| > 0 {
      FilterOfFiltered(txs[1..], id, user);
    }
  }

  lemma CreateKeepsValid(s: Store, amount: int, description: string, date: Date, kind: string,
                         categoryId: Option<nat>, user: nat)
    requires Valid(s) && Create(s, amount, description, date, kind, categoryId, user).Ok?
    ensures Valid(Create(s, amount, description, date, kind, categoryId, user).value.store)
  {
    var t := Create(s, amount, description, date, kind, categoryId, user).value.row;
    KeysDistinctAppend(s.transactions, t, TransactionIdOf);
  }

  lemma UpdateKeepsValid(s: Store, id: nat, amount: int, description: string, date: Date,
                         categoryId: Option<nat>, user: nat)
    requires Valid(s) && Update(s, id, amount, description, date, categoryId, user).Ok?
    ensures Valid(Update(s, id, amount, description, date, categoryId, user).value.store)
  {
    var txs' := Update(s, id, amount, description, date, categoryId, user).value.store.transactions;
    assert KeysDistinct(txs', TransactionIdOf) by {
      forall i, j | 0 <= i < j < |txs'| ensures txs'[i].id != txs'[j].id {
        assert txs'[i].id == s.transactions[i].id && txs'[j].id == s.transactions[j].id;
      }
    }
  }

  lemma DeleteKeepsValid(s: Store, id: nat, user: nat)
    requires Valid(s)
    ensures Valid(Delete(s, id, user).store)
  {
    FilterKeysDistinct(s.transactions, NotIdAndOwner(id, user), TransactionIdOf);
  }

  // ---------------------------------------------------------------------
  // Monthly summary: SUM(amount) GROUP BY month, type for one user and year

  datatype MonthlyRow = MonthlyRow(month: int, kind: string, total: int)

  predicate InYearOf(t: Transaction, user: nat, year: int)
  {
    t.owner == user && t.date.year == year
  }

  function InYear(user: nat, year: int): Transaction -> bool
  {
    (t: Transaction) => InYearOf(t, user, year)
  }

  /** Sum of the amounts of `user`'s transactions dated in (year, month)
      with type `kind`, straight from the table. */
  function PeriodTotal(txs: seq<Transaction>, user: nat, year: int, month: int, kind: string): int
  {
    if |txs| == 0 then 0
    else
      var t := txs[0];
      (if InYearOf(t, user, year) && t.date.month == month && t.kind == kind then t.amount else 0)
      + PeriodTotal(txs[1..], user, year, month, kind)
  }

  /** Sum of the amounts of `user`'s transactions dated in `year`. */
  function YearTotal(txs: seq<Transaction>, user: nat, year: int): int
  {
    if |txs| == 0 then 0
    else (if InYearOf(txs[0], user, year) then txs[0].amount else 0) + YearTotal(txs[1..], user, year)
  }

  function MonthAndKind(t: Transaction): (int, string)
  {
    (t.date.month, t.kind)
  }

  function MonthlyKey(r: MonthlyRow): (int, string)
  {
    (r.month, r.kind)
  }

  function MonthlyTotalOf(r: MonthlyRow): int
  {
    r.total
  }

  function ByMonth(r: MonthlyRow): seq<int>
  {
    [r.month]
  }

  /** Every row's total is the period total of its (month, type). */
  predicate TotalsArePeriodTotals(rows: seq<MonthlyRow>, txs: seq<Transaction>, user: nat, year: int)
  {
    forall i :: 0 <= i < |rows| ==> rows[i].total == PeriodTotal(txs, user, year, rows[i].month, rows[i].kind)
  }

  /** The (month, type) pairs of the user's transactions of the year. */
  function YearKeys(txs: seq<Transaction>, user: nat, year: int): set<(int, string)>
  {
    set k | 0 <= k < |txs| && InYearOf(txs[k], user, year) :: MonthAndKind(txs[k])
  }

  /** The grouped rows of the year, before ORDER BY. */
  function MonthlyGroups(s: Store, user: nat, year: int): seq<MonthlyRow>
  {
    var g := Groups(Filter(s.transactions, InYear(user, year)), MonthAndKind, AmountOf);
    seq(|g|, i requires 0 <= i < |g| => MonthlyRow(g[i].0.0, g[i].0.1, g[i].1))
  }

  /** The group total over the year's rows is the period total over the
      whole table. */
  lemma {:induction false} GroupTotalIsPeriodTotal(txs: seq<Transaction>, user: nat, year: int, month: int, kind: string)
    ensures GroupTotal(Filter(txs, InYear(user, year)), MonthAndKind, AmountOf, (month, kind))
         == PeriodTotal(txs, user, year, month, kind)
  {
    if |txs| > 0 {
      GroupTotalIsPeriodTotal(txs[1..], user, year, month, kind);
      var rest := Filter(txs[1..], InYear(user, year));
      if InYearOf(txs[0], user, year) {
        assert ([txs[0]] + rest)[1..] == rest;
      }
    }
  }

  lemma MonthlyGroupsFacts(s: Store, user: nat, year: int)
    ensures KeysDistinct(MonthlyGroups(s, user, year), MonthlyKey)
    ensures TotalsArePeriodTotals(MonthlyGroups(s, user, year), s.transactions, user, year)
    ensures KeySet(MonthlyGroups(s, user, year), MonthlyKey) == YearKeys(s.transactions, user, year)
  {
    var inYear := Filter(s.transactions, InYear(user, year));
    var g := Groups(inYear, MonthAndKind, AmountOf);
    var rows := MonthlyGroups(s, user, year);
    assert forall i :: 0 <= i < |rows| ==> MonthlyKey(rows[i]) == GroupKey(g[i]);
    forall i | 0 <= i < |rows|
      ensures rows[i].total == PeriodTotal(s.transactions, user, year, rows[i].month, rows[i].kind)
    {
      GroupTotalIsPeriodTotal(s.transactions, user, year, rows[i].month, rows[i].kind);
    }
    KeySetPointwise(rows, MonthlyKey, g, GroupKey);
    FilterKeySet(s.transactions, InYear(user, year), MonthAndKind);
  }

  lemma {:induction false} SortedByMonth(r: seq<MonthlyRow>)
    requires SortedBy(r, ByMonth)
    ensures forall i, j :: 0 <= i < j < |r| ==> r[i].month <= r[j].month
  {
    forall i, j | 0 <= i < j < |r| ensures r[i].month <= r[j].month {
      assert LexLe(ByMonth(r[i]), ByMonth(r[j]));
      assert ByMonth(r[i])[1..] == [] && ByMonth(r[j])[1..] == [];
    }
  }

  /** Transaction.getMonthlySummary: for each (month, type) that occurs
      among the user's transactions of the year, one row with the sum of
      their amounts, in month order. */
  function MonthlySummary(s: Store, user: nat, year: int): (r: seq<MonthlyRow>)
    ensures TotalsArePeriodTotals(r, s.transactions, user, year)
    ensures KeysDistinct(r, MonthlyKey)
    ensures KeySet(r, MonthlyKey) == YearKeys(s.transactions, user, year)
    ensures forall i, j :: 0 <= i < j < |r| ==> r[i].month <= r[j].month
  {
    var rows := MonthlyGroups(s, user, year);
    MonthlyGroupsFacts(s, user, year);
    var r := SortBy(rows, ByMonth);
    PermutationLength(r, rows);
    PermutationKeepsKeySet(rows, r, MonthlyKey);
    PermutationKeepsKeysDistinct(rows, r, MonthlyKey);
    SortedByMonth(r);
    r
  }

  lemma {:induction false} FilterYearTotal(txs: seq<Transaction>, user: nat, year: int)
    ensures SumBy(Filter(txs, InYear(user, year)), AmountOf) == YearTotal(txs, user, year)
  {
    if |txs| > 0 {
      FilterYearTotal(txs[1..], user, year);
      var rest := Filter(txs[1..], InYear(user, year));
      if InYearOf(txs[0], user, year) {
        assert ([txs[0]] + rest)[1..] == rest;
      }
    }
  }

  /** The monthly totals add up to the year's total: every transaction of
      the year is counted in exactly one row. */
  lemma MonthlySummaryConserves(s: Store, user: nat, year: int)
    ensures SumBy(MonthlySummary(s, user, year), MonthlyTotalOf) == YearTotal(s.transactions, user, year)
  {
    var inYear := Filter(s.transactions, InYear(user, year));
    var g := Groups(inYear, MonthAndKind, AmountOf);
    var rows := MonthlyGroups(s, user, year);
    SumByPermutation(MonthlySummary(s, user, year), rows, MonthlyTotalOf);
    SumByPointwise(rows, MonthlyTotalOf, g, GroupSum);
    GroupsConserve(inYear, MonthAndKind, AmountOf);
    FilterYearTotal(s.transactions, user, year);
  }

  // ---------------------------------------------------------------------
  // Category summary: SUM(amount) per category name over a date range

  datatype CategoryTotal = CategoryTotal(categoryName: string, total: int)

  /** The name the inner join pairs a transaction with; only read for rows
      whose category resolves. */
  function JoinedName(cats: seq<Category>, t: Transaction): string
  {
    match CategoryName(cats, t.categoryId)
    case Some(name) => name
    case None => ""
  }

  function JoinedNameOf(cats: seq<Category>): Transaction -> string
  {
    (t: Transaction) => JoinedName(cats, t)
  }

  /** The rows the category summary reads: the user's transactions of type
      `kind` dated in [startDate, endDate] whose category resolves (the
      inner join drops the others). */
  predicate InPeriodJoined(cats: seq<Category>, t: Transaction, user: nat, kind: string,
                           startDate: Date, endDate: Date)
  {
    && t.owner == user && t.kind == kind
    && DateLe(startDate, t.date) && DateLe(t.date, endDate)
    && CategoryName(cats, t.categoryId).Some?
  }

  function InPeriodJoinedBy(cats: seq<Category>, user: nat, kind: string,
                            startDate: Date, endDate: Date): Transaction -> bool
  {
    (t: Transaction) => InPeriodJoined(cats, t, user, kind, startDate, endDate)
  }

  /** Sum of the amounts of the summary's rows whose category is named
      `name`, straight from the table. */
  function NamedTotal(cats: seq<Category>, txs: seq<Transaction>, user: nat, kind: string,
                      startDate: Date, endDate: Date, name: string): int
  {
    if |txs| == 0 then 0
    else
      (if InPeriodJoined(cats, txs[0], user, kind, startDate, endDate)
          && CategoryName(cats, txs[0].categoryId) == Some(name) then txs[0].amount else 0)
      + NamedTotal(cats, txs[1..], user, kind, startDate, endDate, name)
  }

  /** Sum of the amounts of all the summary's rows. */
  function CategorisedTotal(cats: seq<Category>, txs: seq<Transaction>, user: nat, kind: string,
                            startDate: Date, endDate: Date): int
  {
    if |txs| == 0 then 0
    else
      (if InPeriodJoined(cats, txs[0], user, kind, startDate, endDate) then txs[0].amount else 0)
      + CategorisedTotal(cats, txs[1..], user, kind, startDate, endDate)
  }

  /** The category names of the summary's rows. */
  function PeriodNames(cats: seq<Category>, txs: seq<Transaction>, user: nat, kind: string,
                       startDate: Date, endDate: Date): set<string>
  {
    set k | 0 <= k < |txs| && InPeriodJoined(cats, txs[k], user, kind, startDate, endDate)
      :: JoinedName(cats, txs[k])
  }

  function NameOfTotal(r: CategoryTotal): string
  {
    r.categoryName
  }

  function TotalOf(r: CategoryTotal): int
  {
    r.total
  }

  function LargestFirst(r: CategoryTotal): seq<int>
  {
    [-r.total]
  }

  /** Every row's total is the named total of its category name. */
  predicate TotalsAreNamedTotals(rows: seq<CategoryTotal>, cats: seq<Category>, txs: seq<Transaction>,
                                 user: nat, kind: string, startDate: Date, endDate: Date)
  {
    forall i :: 0 <= i < |rows| ==>
      rows[i].total == NamedTotal(cats, txs, user, kind, startDate, endDate, rows[i].categoryName)
  }

  /** The grouped rows, before ORDER BY. */
  function CategoryGroups(s: Store, user: nat, kind: string, startDate: Date, endDate: Date): seq<CategoryTotal>
  {
    var joined := Filter(s.transactions, InPeriodJoinedBy(s.categories, user, kind, startDate, endDate));
    var g := Groups(joined, JoinedNameOf(s.categories), AmountOf);
    seq(|g|, i requires 0 <= i < |g| => CategoryTotal(g[i].0, g[i].1))
  }

  lemma {:induction false} GroupTotalIsNamedTotal(cats: seq<Category>, txs: seq<Transaction>, user: nat,
                                                  kind: string, startDate: Date, endDate: Date, name: string)
    ensures GroupTotal(Filter(txs, InPeriodJoinedBy(cats, user, kind, startDate, endDate)),
                       JoinedNameOf(cats), AmountOf, name)
         == NamedTotal(cats, txs, user, kind, startDate, endDate, name)
  {
    if |txs| > 0 {
      GroupTotalIsNamedTotal(cats, txs[1..], user, kind, startDate, endDate, name);
      var rest := Filter(txs[1..], InPeriodJoinedBy(cats, user, kind, startDate, endDate));
      if InPeriodJoined(cats, txs[0], user, kind, startDate, endDate) {
        assert ([txs[0]] + rest)[1..] == rest;
      }
    }
  }

  lemma CategoryGroupsFacts(s: Store, user: nat, kind: string, startDate: Date, endDate: Date)
    ensures KeysDistinct(CategoryGroups(s, user, kind, startDate, endDate), NameOfTotal)
    ensures TotalsAreNamedTotals(CategoryGroups(s, user, kind, startDate, endDate),
                                 s.categories, s.transactions, user, kind, startDate, endDate)
    ensures KeySet(CategoryGroups(s, user, kind, startDate, endDate), NameOfTotal)
         == PeriodNames(s.categories, s.transactions, user, kind, startDate, endDate)
  {
    var joined := Filter(s.transactions, InPeriodJoinedBy(s.categories, user, kind, startDate, endDate));
    var g := Groups(joined, JoinedNameOf(s.categories), AmountOf);
    var rows := CategoryGroups(s, user, kind, startDate, endDate);
    assert forall i :: 0 <= i < |rows| ==> NameOfTotal(rows[i]) == GroupKey(g[i]);
    forall i | 0 <= i < |rows|
      ensures rows[i].total == NamedTotal(s.categories, s.transactions, user, kind, startDate, endDate, rows[i].categoryName)
    {
      GroupTotalIsNamedTotal(s.categories, s.transactions, user, kind, startDate, endDate, rows[i].categoryName);
    }
    KeySetPointwise(rows, NameOfTotal, g, GroupKey);
    FilterKeySet(s.transactions, InPeriodJoinedBy(s.categories, user, kind, startDate, endDate), JoinedNameOf(s.categories));
  }

  lemma {:induction false} SortedLargestFirst(r: seq<CategoryTotal>)
    requires SortedBy(r, LargestFirst)
    ensures forall i, j :: 0 <= i < j < |r| ==> r[i].total >= r[j].total
  {
    forall i, j | 0 <= i < j < |r| ensures r[i].total >= r[j].total {
      assert LexLe(LargestFirst(r[i]), LargestFirst(r[j]));
      assert LargestFirst(r[i])[1..] == [] && LargestFirst(r[j])[1..] == [];
    }
  }

  /** Transaction.getCategorySummary: for each category name among the
      user's transactions of the type in the inclusive date range (those
      without a category left out), one row with the sum of their amounts,
      largest total first. Categories that share a name share a row. */
  function CategorySummary(s: Store, user: nat, kind: string, startDate: Date, endDate: Date): (r: seq<CategoryTotal>)
    ensures TotalsAreNamedTotals(r, s.categories, s.transactions, user, kind, startDate, endDate)
    ensures KeysDistinct(r, NameOfTotal)
    ensures KeySet(r, NameOfTotal) == PeriodNames(s.categories, s.transactions, user, kind, startDate, endDate)
    ensures forall i, j :: 0 <= i < j < |r| ==> r[i].total >= r[j].total
  {
    var rows := CategoryGroups(s, user, kind, startDate, endDate);
    CategoryGroupsFacts(s, user, kind, startDate, endDate);
    var r := SortBy(rows, LargestFirst);
    PermutationLength(r, rows);
    PermutationKeepsKeySet(rows, r, NameOfTotal);
    PermutationKeepsKeysDistinct(rows, r, NameOfTotal);
    SortedLargestFirst(r);
    r
  }

  lemma {:induction false} FilterCategorisedTotal(cats: seq<Category>, txs: seq<Transaction>, user: nat,
                                                  kind: string, startDate: Date, endDate: Date)
    ensures SumBy(Filter(txs, InPeriodJoinedBy(cats, user, kind, startDate, endDate)), AmountOf)
         == CategorisedTotal(cats, txs, user, kind, startDate, endDate)
  {
    if |txs| > 0 {
      FilterCategorisedTotal(cats, txs[1..], user, kind, startDate, endDate);
      var rest := Filter(txs[1..], InPeriodJoinedBy(cats, user, kind, startDate, endDate));
      if InPeriodJoined(cats, txs[0], user, kind, startDate, endDate) {
        assert ([txs[0]] + rest)[1..] == rest;
      }
    }
  }

  /** The per-category totals add up to the total of the categorised
      transactions in the range. */
  lemma CategorySummaryConserves(s: Store, user: nat, kind: string, startDate: Date, endDate: Date)
    ensures SumBy(CategorySummary(s, user, kind, startDate, endDate), TotalOf)
         == CategorisedTotal(s.categories, s.transactions, user, kind, startDate, endDate)
  {
    var joined := Filter(s.transactions, InPeriodJoinedBy(s.categories, user, kind, startDate, endDate));
    var g := Groups(joined, JoinedNameOf(s.categories), AmountOf);
    var rows := CategoryGroups(s, user, kind, startDate, endDate);
    SumByPermutation(CategorySummary(s, user, kind, startDate, endDate), rows, TotalOf);
    SumByPointwise(rows, TotalOf, g, GroupSum);
    GroupsConserve(joined, JoinedNameOf(s.categories), AmountOf);
    FilterCategorisedTotal(s.categories, s.transactions, user, kind, startDate, endDate);
  }
}
