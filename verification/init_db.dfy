/** Database initialisation: the default categories seeded for the demo
    user, and what deleting a user sets off through the schema's ON DELETE
    rules. The users table itself is not part of the store; whether the demo
    user was newly inserted (and under which id) is a parameter. */
module InitDb {
  import opened Basics
  import opened Seqs
  import opened Schema
  import Categories

  const DefaultIncome: seq<string> := ["Salary", "Freelance", "Investments", "Gifts", "Other Income"]

  const DefaultExpense: seq<string> :=
    ["Housing", "Food", "Transportation", "Utilities", "Entertainment",
     "Healthcare", "Education", "Shopping", "Other Expense"]

  /** INSERT INTO categories ... ON CONFLICT (name, user_id, type) DO
      NOTHING. */
  function InsertIgnoring(s: Store, name: string, kind: string, user: nat): (r: Store)
    requires |name| <= NameLength && IsEntryType(kind)
    ensures Categories.KeyTaken(s.categories, name, user, kind, None) ==> r == s
    ensures !Categories.KeyTaken(s.categories, name, user, kind, None) ==>
              r == s.(categories := s.categories + [Category(s.nextCategoryId, name, kind, user)],
                      nextCategoryId := s.nextCategoryId + 1)
  {
    match Categories.Create(s, name, kind, user)
    case Ok(w) => w.store
    case Err(_) => s
  }

  predicate NamesFit(names: seq<string>)
  {
    forall i :: 0 <= i < |names| ==> |names[i]| <= NameLength
  }

  /** One ON CONFLICT DO NOTHING insert per name, in order. */
  function InsertAll(s: Store, names: seq<string>, kind: string, user: nat): Store
    requires NamesFit(names) && IsEntryType(kind)
    decreases |names|
  {
    if |names| == 0 then s
    else InsertAll(InsertIgnoring(s, names[0], kind, user), names[1..], kind, user)
  }

  /** createDefaultCategories: when the demo user was newly inserted (under
      id `inserted.value`), its five income and nine expense categories. */
  function Seed(s: Store, inserted: Option<nat>): Store
  {
    if inserted.None? then s
    else
      DefaultsFit();
      InsertAll(InsertAll(s, DefaultIncome, Income, inserted.value), DefaultExpense, Expense, inserted.value)
  }

  // ---------------------------------------------------------------------
  // Seeding

  lemma {:induction false} InsertAllKeepsValid(s: Store, names: seq<string>, kind: string, user: nat)
    requires Valid(s) && NamesFit(names) && IsEntryType(kind)
    ensures Valid(InsertAll(s, names, kind, user))
    decreases |names|
  {
    if |names| > 0 {
      if !Categories.KeyTaken(s.categories, names[0], user, kind, None) {
        Categories.CreateKeepsValid(s, names[0], kind, user);
      }
      InsertAllKeepsValid(InsertIgnoring(s, names[0], kind, user), names[1..], kind, user);
    }
  }

  /** Both default lists fit the name column. */
  lemma DefaultsFit()
    ensures NamesFit(DefaultIncome) && NamesFit(DefaultExpense)
  {
  }

  lemma TwoRoundsKeepValid(s: Store, income: seq<string>, expense: seq<string>, user: nat)
    requires Valid(s) && NamesFit(income) && NamesFit(expense)
    ensures Valid(InsertAll(InsertAll(s, income, Income, user), expense, Expense, user))
  {
    InsertAllKeepsValid(s, income, Income, user);
    InsertAllKeepsValid(InsertAll(s, income, Income, user), expense, Expense, user);
  }

  /** Seeding keeps every schema constraint. */
  lemma SeedKeepsValid(s: Store, inserted: Option<nat>)
    requires Valid(s)
    ensures Valid(Seed(s, inserted))
  {
    if inserted.Some? {
      DefaultsFit();
      TwoRoundsKeepValid(s, DefaultIncome, DefaultExpense, inserted.value);
    }
  }

  /** Every name is taken for the user and the type. */
  predicate AllTaken(cats: seq<Category>, names: seq<string>, user: nat, kind: string)
  {
    forall i :: 0 <= i < |names| ==> Categories.KeyTaken(cats, names[i], user, kind, None)
  }

  /** Inserts only ever append categories. */
  lemma {:induction false} InsertAllExtends(s: Store, names: seq<string>, kind: string, user: nat)
    requires NamesFit(names) && IsEntryType(kind)
    ensures var s' := InsertAll(s, names, kind, user);
            && |s'.categories| >= |s.categories| && s'.categories[..|s.categories|] == s.categories
            && s' == s.(categories := s'.categories, nextCategoryId := s'.nextCategoryId)
    decreases |names|
  {
    if |names| > 0 {
      InsertAllExtends(InsertIgnoring(s, names[0], kind, user), names[1..], kind, user);
    }
  }

  lemma KeyTakenExtends(cats: seq<Category>, cats': seq<Category>, name: string, user: nat, kind: string)
    requires |cats'| >= |cats| && cats'[..|cats|] == cats
    requires Categories.KeyTaken(cats, name, user, kind, None)
    ensures Categories.KeyTaken(cats', name, user, kind, None)
  {
    var i :| 0 <= i < |cats| && CategoryKey(cats[i]) == (name, user, kind);
    assert cats'[i] == cats[i];
  }

  /** After the inserts, every name is taken for the user and type. */
  lemma {:induction false} InsertAllProvides(s: Store, names: seq<string>, kind: string, user: nat)
    requires NamesFit(names) && IsEntryType(kind)
    ensures AllTaken(InsertAll(s, names, kind, user).categories, names, user, kind)
    decreases |names|
  {
    if |names| > 0 {
      var s1 := InsertIgnoring(s, names[0], kind, user);
      InsertAllProvides(s1, names[1..], kind, user);
      InsertAllExtends(s1, names[1..], kind, user);
      var last := InsertAll(s, names, kind, user);
      if !Categories.KeyTaken(s.categories, names[0], user, kind, None) {
        assert CategoryKey(s1.categories[|s.categories|]) == (names[0], user, kind);
      }
      KeyTakenExtends(s1.categories, last.categories, names[0], user, kind);
      forall i | 1 <= i < |names|
        ensures Categories.KeyTaken(last.categories, names[i], user, kind, None)
      {
        assert names[1..][i - 1] == names[i];
      }
    }
  }

  /** Inserting names that are all taken changes nothing. */
  lemma {:induction false} InsertAllOfTaken(s: Store, names: seq<string>, kind: string, user: nat)
    requires NamesFit(names) && IsEntryType(kind)
    requires AllTaken(s.categories, names, user, kind)
    ensures InsertAll(s, names, kind, user) == s
    decreases |names|
  {
    if |names| > 0 {
      assert forall i :: 0 <= i < |names[1..]| ==> names[1..][i] == names[i + 1];
      InsertAllOfTaken(s, names[1..], kind, user);
    }
  }

  lemma AllTakenExtends(cats: seq<Category>, cats': seq<Category>, names: seq<string>, user: nat, kind: string)
    requires |cats'| >= |cats| && cats'[..|cats|] == cats
    requires AllTaken(cats, names, user, kind)
    ensures AllTaken(cats', names, user, kind)
  {
    forall i | 0 <= i < |names| ensures Categories.KeyTaken(cats', names[i], user, kind, None) {
      KeyTakenExtends(cats, cats', names[i], user, kind);
    }
  }

  lemma TwoRoundsProvide(s: Store, income: seq<string>, expense: seq<string>, user: nat)
    requires NamesFit(income) && NamesFit(expense)
    ensures var last := InsertAll(InsertAll(s, income, Income, user), expense, Expense, user);
            AllTaken(last.categories, income, user, Income) && AllTaken(last.categories, expense, user, Expense)
  {
    var mid := InsertAll(s, income, Income, user);
    var last := InsertAll(mid, expense, Expense, user);
    InsertAllProvides(s, income, Income, user);
    InsertAllProvides(mid, expense, Expense, user);
    InsertAllExtends(mid, expense, Expense, user);
    AllTakenExtends(mid.categories, last.categories, income, user, Income);
  }

  /** After seeding, the demo user has every default category. */
  lemma SeedProvidesDefaults(s: Store, user: nat)
    ensures AllTaken(Seed(s, Some(user)).categories, DefaultIncome, user, Income)
    ensures AllTaken(Seed(s, Some(user)).categories, DefaultExpense, user, Expense)
  {
    DefaultsFit();
    TwoRoundsProvide(s, DefaultIncome, DefaultExpense, user);
  }

  lemma TwoRoundsOfTaken(s: Store, income: seq<string>, expense: seq<string>, user: nat)
    requires NamesFit(income) && NamesFit(expense)
    requires AllTaken(s.categories, income, user, Income) && AllTaken(s.categories, expense, user, Expense)
    ensures InsertAll(InsertAll(s, income, Income, user), expense, Expense, user) == s
  {
    InsertAllOfTaken(s, income, Income, user);
    InsertAllOfTaken(s, expense, Expense, user);
  }

  /** A store that already holds every default category of the user is
      left as it is by seeding. */
  lemma SeedOfSeeded(s: Store, user: nat)
    requires AllTaken(s.categories, DefaultIncome, user, Income)
    requires AllTaken(s.categories, DefaultExpense, user, Expense)
    ensures Seed(s, Some(user)) == s
  {
    DefaultsFit();
    TwoRoundsOfTaken(s, DefaultIncome, DefaultExpense, user);
  }

  /** Seeding twice is seeding once: every insert of the second round hits
      its own conflict. */
  lemma SeedIdempotent(s: Store, inserted: Option<nat>)
    ensures Seed(Seed(s, inserted), inserted) == Seed(s, inserted)
  {
    if inserted.Some? {
      SeedProvidesDefaults(s, inserted.value);
      SeedOfSeeded(Seed(s, inserted), inserted.value);
    }
  }

  /** No demo user inserted, no categories. */
  lemma SeedWithoutNewUser(s: Store)
    ensures Seed(s, None) == s
  {
  }

  /** A newly created demo user, who owns nothing yet, gets exactly
      fourteen new categories. */
  lemma SeedOfFreshUser(s: Store, user: nat)
    requires forall i :: 0 <= i < |s.categories| ==> s.categories[i].owner != user
    ensures |Seed(s, Some(user)).categories| == |s.categories| + 14
  {
    DefaultsFit();
    DefaultsDistinct();
    TwoFreshRounds(s, DefaultIncome, DefaultExpense, user);
  }

  lemma TwoFreshRounds(s: Store, income: seq<string>, expense: seq<string>, user: nat)
    requires NamesFit(income) && NamesFit(expense) && Distinct(income) && Distinct(expense)
    requires forall i :: 0 <= i < |s.categories| ==> s.categories[i].owner != user
    ensures |InsertAll(InsertAll(s, income, Income, user), expense, Expense, user).categories|
            == |s.categories| + |income| + |expense|
  {
    var mid := InsertAll(s, income, Income, user);
    InsertAllFresh(s, income, Income, user);
    assert forall i :: 0 <= i < |s.categories| ==> mid.categories[i] == mid.categories[..|s.categories|][i];
    InsertAllFresh(mid, expense, Expense, user);
  }

  /** The default names of each type are distinct. */
  lemma DefaultsDistinct()
    ensures Distinct(DefaultIncome) && Distinct(DefaultExpense)
  {
  }

  /** One appended category followed by more: the combined extension. */
  lemma {:induction false} InsertAllFresh1(s: Store, s1: Store, rest: seq<string>, kind: string, user: nat)
    requires NamesFit(rest) && IsEntryType(kind)
    requires |s1.categories| == |s.categories| + 1 && s1.categories[..|s.categories|] == s.categories
    requires s1.categories[|s.categories|].owner == user && s1.categories[|s.categories|].kind == kind
    requires var s' := InsertAll(s1, rest, kind, user);
             && |s'.categories| == |s1.categories| + |rest|
             && s'.categories[..|s1.categories|] == s1.categories
             && forall i :: |s1.categories| <= i < |s'.categories| ==>
                  s'.categories[i].owner == user && s'.categories[i].kind == kind
    ensures var s' := InsertAll(s1, rest, kind, user);
            && |s'.categories| == |s.categories| + 1 + |rest|
            && s'.categories[..|s.categories|] == s.categories
            && forall i :: |s.categories| <= i < |s'.categories| ==>
                 s'.categories[i].owner == user && s'.categories[i].kind == kind
  {
    var s' := InsertAll(s1, rest, kind, user);
    assert s'.categories[..|s.categories|] == s'.categories[..|s1.categories|][..|s.categories|];
    assert s'.categories[|s.categories|] == s'.categories[..|s1.categories|][|s.categories|];
  }

  /** Distinct names none of which the user holds under the type are all
      inserted, each as a new category of the user and the type. */
  lemma {:induction false} InsertAllFresh(s: Store, names: seq<string>, kind: string, user: nat)
    requires NamesFit(names) && IsEntryType(kind) && Distinct(names)
    requires forall i :: 0 <= i < |s.categories| && s.categories[i].owner == user && s.categories[i].kind == kind
               ==> !(s.categories[i].name in names)
    ensures var s' := InsertAll(s, names, kind, user);
            && |s'.categories| == |s.categories| + |names|
            && s'.categories[..|s.categories|] == s.categories
            && forall i :: |s.categories| <= i < |s'.categories| ==>
                 s'.categories[i].owner == user && s'.categories[i].kind == kind
    decreases |names|
  {
    if |names| > 0 {
      var s1 := InsertIgnoring(s, names[0], kind, user);
      if Categories.KeyTaken(s.categories, names[0], user, kind, None) {
        assert false;
      }
      var rest := names[1..];
      assert Distinct(rest) by {
        forall i, j | 0 <= i < j < |rest| ensures rest[i] != rest[j] {
          assert rest[i] == names[i + 1] && rest[j] == names[j + 1];
        }
      }
      forall i | 0 <= i < |s1.categories| && s1.categories[i].owner == user && s1.categories[i].kind == kind
        ensures !(s1.categories[i].name in rest)
      {
        if i < |s.categories| {
          assert s1.categories[i] == s.categories[i];
          forall j | 0 <= j < |rest| ensures rest[j] != s1.categories[i].name {
            assert rest[j] == names[j + 1];
          }
        } else {
          forall j | 0 <= j < |rest| ensures rest[j] != names[0] {
            assert rest[j] == names[j + 1];
          }
        }
      }
      InsertAllFresh(s1, rest, kind, user);
      InsertAllFresh1(s, s1, rest, kind, user);
    }
  }

  // ---------------------------------------------------------------------
  // Deleting a user

  /** `id` is the id of one of the user's categories. */
  predicate OwnedCategory(cats: seq<Category>, user: nat, id: nat)
  {
    exists i :: 0 <= i < |cats| && cats[i].id == id && cats[i].owner == user
  }

  function NotOwnedBy(user: nat): Category -> bool
  {
    (c: Category) => c.owner != user
  }

  function TransactionNotOwnedBy(user: nat): Transaction -> bool
  {
    (t: Transaction) => t.owner != user
  }

  /** The budget references one of the user's categories. */
  predicate InOwnedCategory(cats: seq<Category>, user: nat, b: Budget)
  {
    b.categoryId.Some? && OwnedCategory(cats, user, b.categoryId.value)
  }

  /** A budget survives when neither it nor its category belongs to the user. */
  function BudgetSurvives(cats: seq<Category>, user: nat): Budget -> bool
  {
    (b: Budget) => b.owner != user && !InOwnedCategory(cats, user, b)
  }

  /** ON DELETE SET NULL for the user's categories. */
  function Detach(cats: seq<Category>, user: nat, t: Transaction): (r: Transaction)
  {
    if t.categoryId.Some? && OwnedCategory(cats, user, t.categoryId.value) then t.(categoryId := None) else t
  }

  function DetachAll(cats: seq<Category>, user: nat, txs: seq<Transaction>): (r: seq<Transaction>)
    ensures |r| == |txs| && forall i :: 0 <= i < |r| ==> r[i] == Detach(cats, user, txs[i])
  {
    seq(|txs|, i requires 0 <= i < |txs| => Detach(cats, user, txs[i]))
  }

  /** DELETE FROM users WHERE id = user, through the ON DELETE rules: the
      user's categories, transactions and budgets go; other users' rows that
      reference a deleted category lose that reference (transactions) or go
      with it (budgets). */
  function DeleteUser(s: Store, user: nat): (r: Store)
    ensures forall i :: 0 <= i < |r.categories| ==> r.categories[i].owner != user
    ensures forall i :: 0 <= i < |r.transactions| ==>
              && r.transactions[i].owner != user
              && (r.transactions[i].categoryId.Some? ==> !OwnedCategory(s.categories, user, r.transactions[i].categoryId.value))
    ensures forall i :: 0 <= i < |r.budgets| ==>
              r.budgets[i].owner != user && !InOwnedCategory(s.categories, user, r.budgets[i])
    ensures forall i :: 0 <= i < |s.categories| && s.categories[i].owner != user ==> s.categories[i] in r.categories
    ensures forall i :: 0 <= i < |s.transactions| && s.transactions[i].owner != user
              ==> Detach(s.categories, user, s.transactions[i]) in r.transactions
    ensures forall i :: 0 <= i < |s.budgets| && BudgetSurvives(s.categories, user)(s.budgets[i])
              ==> s.budgets[i] in r.budgets
    ensures forall i :: 0 <= i < |r.categories| ==> r.categories[i] in s.categories
    ensures forall i :: 0 <= i < |r.transactions| ==>
              exists j :: 0 <= j < |s.transactions| && r.transactions[i] == Detach(s.categories, user, s.transactions[j])
    ensures forall i :: 0 <= i < |r.budgets| ==> r.budgets[i] in s.budgets
    ensures |r.categories| <= |s.categories| && |r.transactions| <= |s.transactions| && |r.budgets| <= |s.budgets|
    ensures r.nextCategoryId == s.nextCategoryId && r.nextTransactionId == s.nextTransactionId
            && r.nextBudgetId == s.nextBudgetId
  {
    var kept := Filter(s.transactions, TransactionNotOwnedBy(user));
    var txs := DetachAll(s.categories, user, kept);
    forall i | 0 <= i < |s.transactions| && s.transactions[i].owner != user
      ensures Detach(s.categories, user, s.transactions[i]) in txs
    {
      var j :| 0 <= j < |kept| && kept[j] == s.transactions[i];
      assert txs[j] == Detach(s.categories, user, s.transactions[i]);
    }
    forall i | 0 <= i < |txs|
      ensures exists j :: 0 <= j < |s.transactions| && txs[i] == Detach(s.categories, user, s.transactions[j])
    {
      assert kept[i] in s.transactions;
    }
    s.(categories := Filter(s.categories, NotOwnedBy(user)),
       transactions := txs,
       budgets := Filter(s.budgets, BudgetSurvives(s.categories, user)))
  }

  /** A reference to a category the user does not own resolves among the
      categories that survive. */
  lemma SurvivingReference(cats: seq<Category>, user: nat, id: nat)
    requires HasCategory(cats, id) && !OwnedCategory(cats, user, id)
    ensures HasCategory(Filter(cats, NotOwnedBy(user)), id)
  {
    var i :| 0 <= i < |cats| && cats[i].id == id;
    assert cats[i].owner != user;
    assert cats[i] in Filter(cats, NotOwnedBy(user));
  }

  lemma DeleteUserKeepsCategoriesOk(s: Store, user: nat)
    requires Valid(s)
    ensures CategoriesOk(DeleteUser(s, user).categories, s.nextCategoryId)
  {
    FilterKeysDistinct(s.categories, NotOwnedBy(user), CategoryIdOf);
    FilterKeysDistinct(s.categories, NotOwnedBy(user), CategoryKey);
  }

  /** Detaching keeps ids and leaves only references that survive. */
  lemma DetachedRowsOk(s: Store, user: nat, kept: seq<Transaction>)
    requires Valid(s)
    requires forall i :: 0 <= i < |kept| ==> kept[i] in s.transactions
    requires KeysDistinct(kept, TransactionIdOf)
    ensures TransactionsOk(DetachAll(s.categories, user, kept), Filter(s.categories, NotOwnedBy(user)), s.nextTransactionId)
  {
    var txs := DetachAll(s.categories, user, kept);
    var cats' := Filter(s.categories, NotOwnedBy(user));
    forall i | 0 <= i < |txs|
      ensures 1 <= txs[i].id < s.nextTransactionId && TransactionRowOk(cats', txs[i])
    {
      if txs[i].categoryId.Some? {
        SurvivingReference(s.categories, user, txs[i].categoryId.value);
      }
    }
    forall i, j | 0 <= i < j < |txs| ensures TransactionIdOf(txs[i]) != TransactionIdOf(txs[j]) {
      assert TransactionIdOf(kept[i]) != TransactionIdOf(kept[j]);
    }
  }

  lemma DeleteUserKeepsTransactionsOk(s: Store, user: nat)
    requires Valid(s)
    ensures var r := DeleteUser(s, user);
            TransactionsOk(r.transactions, r.categories, s.nextTransactionId)
  {
    FilterKeysDistinct(s.transactions, TransactionNotOwnedBy(user), TransactionIdOf);
    DetachedRowsOk(s, user, Filter(s.transactions, TransactionNotOwnedBy(user)));
  }

  lemma DeleteUserKeepsBudgetsOk(s: Store, user: nat)
    requires Valid(s)
    ensures var r := DeleteUser(s, user);
            BudgetsOk(r.budgets, r.categories, s.nextBudgetId)
  {
    var r := DeleteUser(s, user);
    FilterKeysDistinct(s.budgets, BudgetSurvives(s.categories, user), BudgetIdOf);
    FilterKeysDistinct(s.budgets, BudgetSurvives(s.categories, user), BudgetKey);
    forall i | 0 <= i < |r.budgets| ensures BudgetRowOk(r.categories, r.budgets[i]) {
      assert r.budgets[i] in s.budgets;
      if r.budgets[i].categoryId.Some? {
        SurvivingReference(s.categories, user, r.budgets[i].categoryId.value);
      }
    }
  }

  /** Deleting a user keeps every schema constraint. */
  lemma DeleteUserKeepsValid(s: Store, user: nat)
    requires Valid(s)
    ensures Valid(DeleteUser(s, user))
  {
    DeleteUserKeepsCategoriesOk(s, user);
    DeleteUserKeepsTransactionsOk(s, user);
    DeleteUserKeepsBudgetsOk(s, user);
  }
}
