/** The relational schema of the finance store: the three user-owned tables
    (categories, transactions, budgets), their column types and the
    constraints the database enforces on them, stated as a store invariant.
    Users themselves are not a table of this model: an owner is an opaque
    user id. */
module Schema {
  import opened Basics
  import opened Seqs
  import opened Calendar

  /** The two values the `type` CHECK constraints admit. */
  const Income: string := "income"
  const Expense: string := "expense"

  predicate IsEntryType(kind: string)
  {
    kind == Income || kind == Expense
  }

  /** DECIMAL(12,2) keeps at most ten digits before the point: in cents the
      magnitude stays below 10^12. */
  const AmountLimit: int := 1_000_000_000_000

  predicate FitsDecimal(cents: int)
  {
    -AmountLimit < cents < AmountLimit
  }

  /** The value a number takes in a DECIMAL(12,2) column, in cents: rounded
      to two places, halves away from zero. */
  function DecimalCents(x: real): (cents: int)
    ensures x >= 0.0 ==> cents as real <= x * 100.0 + 0.5 < cents as real + 1.0
    ensures x < 0.0 ==> -cents as real <= -x * 100.0 + 0.5 < -cents as real + 1.0
  {
    if x >= 0.0 then (x * 100.0 + 0.5).Floor else -((-x * 100.0 + 0.5).Floor)
  }

  /** A value already in whole cents is stored exactly. */
  lemma CentsRoundTrip(c: int)
    ensures DecimalCents(c as real / 100.0) == c
  {
    var x := c as real / 100.0;
    assert x * 100.0 == c as real;
  }

  /** The range of an INTEGER column. */
  const IntegerMin: int := -0x8000_0000
  const IntegerMax: int := 0x7FFF_FFFF

  predicate FitsInteger(n: int)
  {
    IntegerMin <= n <= IntegerMax
  }

  /** VARCHAR(100) for names and VARCHAR(20) for types. */
  const NameLength: nat := 100
  const TypeLength: nat := 20

  /** A text a VARCHAR(n) column takes: it fits, or every character past
      the n-th is a space. */
  predicate FitsVarchar(text: string, n: nat)
  {
    forall i :: n <= i < |text| ==> text[i] == ' '
  }

  /** What a VARCHAR(n) column stores: the text, with the excess spaces of
      an over-long one cut off. */
  function Varchar(text: string, n: nat): (r: string)
    requires FitsVarchar(text, n)
    ensures |r| <= n && |r| <= |text| && r == text[..|r|]
    ensures |text| <= n <==> r == text
    ensures forall i :: |r| <= i < |text| ==> text[i] == ' '
  {
    if |text| <= n then text else text[..n]
  }

  /** A type over TypeLength characters is cut to TypeLength characters,
      which is no entry type: the CHECK sees an entry type exactly when it
      was given one. */
  lemma StoredTypeCheck(kind: string)
    requires FitsVarchar(kind, TypeLength)
    ensures IsEntryType(Varchar(kind, TypeLength)) <==> IsEntryType(kind)
  {
  }

  /** A row of `categories`; `kind` is the `type` column. */
  datatype Category = Category(id: nat, name: string, kind: string, owner: nat)

  /** A row of `transactions`; `amount` is in cents, `categoryId` is NULL
      (None) when the transaction has no category or its category was
      deleted. */
  datatype Transaction = Transaction(
    id: nat, amount: int, description: string, date: Date, kind: string,
    categoryId: Option<nat>, owner: nat)

  /** A row of `budgets`; `amount` is in cents, `categoryId` is NULL (None)
      when the budget was created without a category. */
  datatype Budget = Budget(id: nat, amount: int, month: int, year: int, categoryId: Option<nat>, owner: nat)

  /** The three tables and the next value of each SERIAL id sequence. */
  datatype Store = Store(
    categories: seq<Category>, transactions: seq<Transaction>, budgets: seq<Budget>,
    nextCategoryId: nat, nextTransactionId: nat, nextBudgetId: nat)

  /** The errors a single statement can raise on these tables. */
  datatype DbError =
    | InvalidDate          // a date literal that is not a calendar date
    | NumericOutOfRange    // a DECIMAL(12,2) or INTEGER value too large
    | ValueTooLong         // a string with more than spaces past its VARCHAR width
    | CheckViolation       // a CHECK constraint fails
    | UniqueViolation      // a UNIQUE constraint fails
    | ForeignKeyViolation  // a category reference to no category

  /** The new state after a committed statement and what it returned. */
  datatype Written<T> = Written(store: Store, row: T)

  /** Freshly created tables: empty, every sequence starting at 1. */
  function EmptyStore(): (s: Store)
    ensures |s.categories| == |s.transactions| == |s.budgets| == 0
  {
    Store([], [], [], 1, 1, 1)
  }

  function CategoryIdOf(c: Category): nat { c.id }
  function TransactionIdOf(t: Transaction): nat { t.id }
  function BudgetIdOf(b: Budget): nat { b.id }
  function AmountOf(t: Transaction): int { t.amount }

  /** UNIQUE(name, user_id, type) on categories. */
  function CategoryKey(c: Category): (string, nat, string) { (c.name, c.owner, c.kind) }

  /** UNIQUE(month, year, category_id, user_id) on budgets. A NULL never
      equals anything, so a budget without a category conflicts with no
      other row: it is keyed by its own primary key, distinct anyway. */
  datatype BudgetUniqueKey = Keyed(month: int, year: int, categoryId: nat, owner: nat) | Unkeyed(id: nat)

  function BudgetKey(b: Budget): BudgetUniqueKey
  {
    if b.categoryId.Some? then Keyed(b.month, b.year, b.categoryId.value, b.owner) else Unkeyed(b.id)
  }

  /** Some category row has primary key `id`. */
  predicate HasCategory(cats: seq<Category>, id: nat)
  {
    exists i :: 0 <= i < |cats| && cats[i].id == id
  }

  function IdIs(id: nat): Category -> bool
  {
    (c: Category) => c.id == id
  }

  /** The category row with primary key `id` (a join on categories.id). */
  function CategoryById(cats: seq<Category>, id: nat): (r: Option<Category>)
    ensures r.Some? ==> r.value in cats && r.value.id == id
    ensures r.None? <==> !HasCategory(cats, id)
  {
    FindFirst(cats, IdIs(id))
  }

  /** With distinct primary keys the join finds the one row carrying the id. */
  lemma CategoryByIdIsLookup(cats: seq<Category>, i: int)
    requires KeysDistinct(cats, CategoryIdOf) && 0 <= i < |cats|
    ensures CategoryById(cats, cats[i].id) == Some(cats[i])
  {
    var r := CategoryById(cats, cats[i].id);
    var j :| 0 <= j < |cats| && cats[j] == r.value;
    assert CategoryIdOf(cats[j]) == CategoryIdOf(cats[i]);
  }

  predicate CategoryRowOk(c: Category)
  {
    IsEntryType(c.kind) && |c.name| <= NameLength
  }

  predicate TransactionRowOk(cats: seq<Category>, t: Transaction)
  {
    && IsEntryType(t.kind)
    && ValidDate(t.date)
    && FitsDecimal(t.amount)
    && (t.categoryId.Some? ==> HasCategory(cats, t.categoryId.value))
  }

  predicate BudgetRowOk(cats: seq<Category>, b: Budget)
  {
    && 1 <= b.month <= 12
    && FitsInteger(b.year)
    && FitsDecimal(b.amount)
    && (b.categoryId.Some? ==> HasCategory(cats, b.categoryId.value))
  }

  predicate CategoriesOk(cats: seq<Category>, next: nat)
  {
    && 1 <= next
    && (forall i :: 0 <= i < |cats| ==> 1 <= cats[i].id < next && CategoryRowOk(cats[i]))
    && KeysDistinct(cats, CategoryIdOf)
    && KeysDistinct(cats, CategoryKey)
  }

  predicate TransactionsOk(txs: seq<Transaction>, cats: seq<Category>, next: nat)
  {
    && 1 <= next
    && (forall i :: 0 <= i < |txs| ==> 1 <= txs[i].id < next && TransactionRowOk(cats, txs[i]))
    && KeysDistinct(txs, TransactionIdOf)
  }

  predicate BudgetsOk(bs: seq<Budget>, cats: seq<Category>, next: nat)
  {
    && 1 <= next
    && (forall i :: 0 <= i < |bs| ==> 1 <= bs[i].id < next && BudgetRowOk(cats, bs[i]))
    && KeysDistinct(bs, BudgetIdOf)
    && KeysDistinct(bs, BudgetKey)
  }

  /** Every constraint of the schema holds: primary keys are distinct and
      below their sequence, CHECK and column-type constraints hold, both
      UNIQUE constraints hold and every category reference resolves. */
  predicate Valid(s: Store)
  {
    && CategoriesOk(s.categories, s.nextCategoryId)
    && TransactionsOk(s.transactions, s.categories, s.nextTransactionId)
    && BudgetsOk(s.budgets, s.categories, s.nextBudgetId)
  }

  lemma EmptyStoreValid()
    ensures Valid(EmptyStore())
  {
  }

  /** Adding categories keeps every existing reference resolvable. */
  lemma HasCategoryAppend(cats: seq<Category>, extra: seq<Category>, id: nat)
    requires HasCategory(cats, id)
    ensures HasCategory(cats + extra, id)
  {
    var i :| 0 <= i < |cats| && cats[i].id == id;
    assert (cats + extra)[i] == cats[i];
  }

  /** Distinct keys stay distinct when a row with a new key is appended. */
  lemma KeysDistinctAppend<T, K>(xs: seq<T>, x: T, key: T -> K)
    requires KeysDistinct(xs, key)
    requires forall i :: 0 <= i < |xs| ==> key(xs[i]) != key(x)
    ensures KeysDistinct(xs + [x], key)
  {
    var r := xs + [x];
    forall i, j | 0 <= i < j < |r| ensures key(r[i]) != key(r[j]) {
      assert r[i] == xs[i];
      if j < |xs| {
        assert r[j] == xs[j];
      }
    }
  }
}
