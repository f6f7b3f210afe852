/** The request-body validation rule arrays. Each array is a list of rules,
    each a check and the message reported when the check fails; a request
    is accepted when no rule fails. The string checks the validator library
    performs (e-mail, date, float and integer recognition) are parameters. */
module Validation {
  import opened Basics
  import opened Calendar
  import opened Schema
  import Transactions
  import Categories
  import Budgets

  /** A request field: absent, or the submitted text. */
  type Field = Option<string>

  /** The text a check reads: an absent field reads as "". */
  function Text(f: Field): string
  {
    if f.Some? then f.value else ""
  }

  /** The library's recognisers: `isEmail`, `isDate`, the numeric value
      `isFloat` and `isInt` read from a text (None when the text is not
      such a number), and the character count `isLength` compares (which
      leaves out Unicode variation selectors). */
  datatype Checkers = Checkers(
    isEmail: string -> bool, isDate: string -> bool,
    floatValue: string -> Option<real>, intValue: string -> Option<int>,
    length: string -> nat)

  datatype Rule = Rule(passes: bool, message: string)

  /** The messages of the failing rules, in rule order. */
  function Failures(rules: seq<Rule>): (r: seq<string>)
    ensures |r| <= |rules|
    ensures r == [] <==> forall i :: 0 <= i < |rules| ==> rules[i].passes
    ensures forall i :: 0 <= i < |r| ==> exists j :: 0 <= j < |rules| && !rules[j].passes && rules[j].message == r[i]
  {
    if |rules| == 0 then []
    else
      var rest := Failures(rules[1..]);
      assert forall j :: 0 <= j < |rules[1..]| ==> rules[1..][j] == rules[j + 1];
      if rules[0].passes then rest else [rules[0].message] + rest
  }

  predicate Accepted(rules: seq<Rule>)
  {
    Failures(rules) == []
  }

  /** isFloat({ min: 0.01 }). */
  predicate FloatAtLeastCent(v: Option<real>)
  {
    v.Some? && v.value >= 0.01
  }

  /** isInt({ min, max }), with an absent bound as None. */
  predicate IntWithin(v: Option<int>, min: int, max: Option<int>)
  {
    v.Some? && min <= v.value && (max.Some? ==> v.value <= max.value)
  }

  // ---------------------------------------------------------------------
  // The rule arrays

  datatype RegisterForm = RegisterForm(name: Field, email: Field, password: Field, password2: Field)

  function RegisterRules(c: Checkers, f: RegisterForm): seq<Rule>
  {
    [ Rule(Text(f.name) != "", "Name is required"),
      Rule(c.isEmail(Text(f.email)), "Please include a valid email"),
      Rule(c.length(Text(f.password)) >= 6, "Password must be at least 6 characters"),
      Rule(f.password2 == f.password, "Passwords do not match") ]
  }

  datatype LoginForm = LoginForm(email: Field, password: Field)

  function LoginRules(c: Checkers, f: LoginForm): seq<Rule>
  {
    [ Rule(c.isEmail(Text(f.email)), "Please include a valid email"),
      Rule(f.password.Some?, "Password is required") ]
  }

  datatype TransactionForm = TransactionForm(
    amount: Field, description: Field, date: Field, kind: Field, category: Field)

  function TransactionRules(c: Checkers, f: TransactionForm): seq<Rule>
  {
    [ Rule(Text(f.amount) != "", "Amount is required"),
      Rule(FloatAtLeastCent(c.floatValue(Text(f.amount))), "Amount must be a positive number"),
      Rule(Text(f.description) != "", "Description is required"),
      Rule(Text(f.date) != "", "Date is required"),
      Rule(c.isDate(Text(f.date)), "Date must be valid"),
      Rule(IsEntryType(Text(f.kind)), "Type must be either income or expense"),
      Rule(Text(f.category) != "", "Category is required") ]
  }

  /** The update rules: the create rules without the type rule. */
  function TransactionUpdateRules(c: Checkers, f: TransactionForm): seq<Rule>
  {
    [ Rule(Text(f.amount) != "", "Amount is required"),
      Rule(FloatAtLeastCent(c.floatValue(Text(f.amount))), "Amount must be a positive number"),
      Rule(Text(f.description) != "", "Description is required"),
      Rule(Text(f.date) != "", "Date is required"),
      Rule(c.isDate(Text(f.date)), "Date must be valid"),
      Rule(Text(f.category) != "", "Category is required") ]
  }

  datatype CategoryForm = CategoryForm(name: Field, kind: Field)

  function CategoryRules(f: CategoryForm): seq<Rule>
  {
    [ Rule(Text(f.name) != "", "Name is required"),
      Rule(IsEntryType(Text(f.kind)), "Type must be either income or expense") ]
  }

  datatype BudgetForm = BudgetForm(amount: Field, month: Field, year: Field, category: Field)

  function BudgetRules(c: Checkers, f: BudgetForm): seq<Rule>
  {
    [ Rule(Text(f.amount) != "", "Amount is required"),
      Rule(FloatAtLeastCent(c.floatValue(Text(f.amount))), "Amount must be a positive number"),
      Rule(IntWithin(c.intValue(Text(f.month)), 1, Some(12)), "Month is required"),
      Rule(IntWithin(c.intValue(Text(f.year)), 2000, None), "Year is required"),
      Rule(Text(f.category) != "", "Category is required") ]
  }

  // ---------------------------------------------------------------------
  // What an accepted request guarantees

  /** An accepted registration has a name, a recognised e-mail, a password
      of at least six characters and a matching confirmation. */
  lemma AcceptedRegistration(c: Checkers, f: RegisterForm)
    requires Accepted(RegisterRules(c, f))
    ensures Text(f.name) != "" && c.isEmail(Text(f.email))
    ensures c.length(Text(f.password)) >= 6 && f.password2 == f.password
  {
    var rules := RegisterRules(c, f);
    assert rules[0].passes && rules[1].passes && rules[2].passes && rules[3].passes;
  }

  /** A registration whose confirmation differs is refused with exactly
      that message when everything else is right. */
  lemma MismatchedConfirmation(c: Checkers, f: RegisterForm)
    requires Text(f.name) != "" && c.isEmail(Text(f.email)) && c.length(Text(f.password)) >= 6
    requires f.password2 != f.password
    ensures Failures(RegisterRules(c, f)) == ["Passwords do not match"]
  {
    var rules := RegisterRules(c, f);
    assert rules[3..][1..] == [];
    assert Failures(rules[3..]) == ["Passwords do not match"];
    assert rules[2..][1..] == rules[3..];
    assert Failures(rules[2..]) == Failures(rules[3..]);
    assert rules[1..][1..] == rules[2..];
    assert Failures(rules[1..]) == Failures(rules[2..]);
  }

  /** A password too short by the library's count and a mismatched
      confirmation are both reported, in rule order. */
  lemma ShortAndMismatched(c: Checkers, f: RegisterForm)
    requires Text(f.name) != "" && c.isEmail(Text(f.email)) && c.length(Text(f.password)) < 6
    requires f.password2 != f.password
    ensures Failures(RegisterRules(c, f)) == ["Password must be at least 6 characters", "Passwords do not match"]
  {
    var rules := RegisterRules(c, f);
    assert rules[3..][1..] == [];
    assert Failures(rules[3..]) == ["Passwords do not match"];
    assert rules[2..][1..] == rules[3..];
    assert Failures(rules[2..]) == ["Password must be at least 6 characters"] + Failures(rules[3..]);
    assert rules[1..][1..] == rules[2..];
    assert Failures(rules[1..]) == Failures(rules[2..]);
  }

  /** A login is accepted exactly when the e-mail is recognised and a
      password field is present (an empty password is present). */
  lemma AcceptedLogin(c: Checkers, f: LoginForm)
    ensures Accepted(LoginRules(c, f)) <==> c.isEmail(Text(f.email)) && f.password.Some?
  {
    var rules := LoginRules(c, f);
    if Accepted(rules) {
      assert rules[0].passes && rules[1].passes;
    }
  }

  /** A category form is accepted exactly when it names the category and
      gives one of the two types. */
  lemma AcceptedCategory(f: CategoryForm)
    ensures Accepted(CategoryRules(f)) <==> Text(f.name) != "" && IsEntryType(Text(f.kind))
  {
    var rules := CategoryRules(f);
    if Accepted(rules) {
      assert rules[0].passes && rules[1].passes;
    }
  }

  /** An accepted transaction has a positive amount, at least one cent once
      stored, and one of the two types. */
  lemma AcceptedTransaction(c: Checkers, f: TransactionForm)
    requires Accepted(TransactionRules(c, f))
    ensures IsEntryType(Text(f.kind))
    ensures c.floatValue(Text(f.amount)).Some? && DecimalCents(c.floatValue(Text(f.amount)).value) >= 1
  {
    assert TransactionRules(c, f)[1].passes && TransactionRules(c, f)[5].passes;
  }

  /** An accepted transaction never meets the type CHECK constraint, nor
      the type column's length, when it is stored. */
  lemma AcceptedTransactionPassesTypeCheck(s: Store, c: Checkers, f: TransactionForm, date: Date,
                                           categoryId: Option<nat>, user: nat)
    requires Accepted(TransactionRules(c, f)) && c.floatValue(Text(f.amount)).Some?
    ensures var amount := DecimalCents(c.floatValue(Text(f.amount)).value);
            var r := Transactions.Create(s, amount, Text(f.description), date, Text(f.kind), categoryId, user);
            r != Err(CheckViolation) && r != Err(ValueTooLong)
  {
    AcceptedTransaction(c, f);
  }

  /** Whatever passes the create rules passes the update rules. */
  lemma CreateRulesImplyUpdateRules(c: Checkers, f: TransactionForm)
    requires Accepted(TransactionRules(c, f))
    ensures Accepted(TransactionUpdateRules(c, f))
  {
    var rules := TransactionRules(c, f);
    assert rules[0].passes && rules[1].passes && rules[2].passes && rules[3].passes;
    assert rules[4].passes && rules[6].passes;
  }

  /** The update rules do not look at the type: a form with any type
      passes them as long as the other fields do. That is sound because
      an update never writes the type (Transactions.Update keeps it). */
  lemma UpdateRulesIgnoreType(c: Checkers, f: TransactionForm, kind: Field)
    ensures TransactionUpdateRules(c, f.(kind := kind)) == TransactionUpdateRules(c, f)
    ensures Accepted(TransactionUpdateRules(c, f)) && !IsEntryType(Text(kind))
            ==> !Accepted(TransactionRules(c, f.(kind := kind)))
  {
    if Accepted(TransactionUpdateRules(c, f)) && !IsEntryType(Text(kind)) {
      assert !TransactionRules(c, f.(kind := kind))[5].passes;
    }
  }

  /** An accepted category never meets the type CHECK constraint. */
  lemma AcceptedCategoryPassesTypeCheck(s: Store, f: CategoryForm, user: nat)
    requires Accepted(CategoryRules(f))
    ensures Text(f.name) != ""
    ensures Categories.Create(s, Text(f.name), Text(f.kind), user) != Err(CheckViolation)
  {
    assert CategoryRules(f)[0].passes && CategoryRules(f)[1].passes;
  }

  /** An accepted budget has a month in 1..12, so it never meets the month
      CHECK constraint, and a year from 2000 on. */
  lemma AcceptedBudgetPassesMonthCheck(s: Store, c: Checkers, f: BudgetForm, categoryId: Option<nat>, user: nat)
    requires Accepted(BudgetRules(c, f))
    ensures c.intValue(Text(f.month)).Some? && 1 <= c.intValue(Text(f.month)).value <= 12
    ensures c.intValue(Text(f.year)).Some? && c.intValue(Text(f.year)).value >= 2000
    ensures c.floatValue(Text(f.amount)).Some? &&
            var r := Budgets.Create(s, DecimalCents(c.floatValue(Text(f.amount)).value),
                                    c.intValue(Text(f.month)).value, c.intValue(Text(f.year)).value,
                                    categoryId, user);
            r != Err(CheckViolation)
  {
    var rules := BudgetRules(c, f);
    assert rules[1].passes && rules[2].passes && rules[3].passes;
  }

  /** The year rule has no upper bound: a year past the INTEGER range is
      accepted and then refused by the database. */
  lemma YearRuleHasNoUpperBound(s: Store, categoryId: Option<nat>, user: nat)
    ensures var c := Checkers(_ => true, _ => true, _ => Some(1.0), (t: string) => if t == "1" then Some(1) else Some(IntegerMax + 1), (t: string) => |t|);
            var f := BudgetForm(Some("1"), Some("1"), Some("2147483648"), Some("1"));
            && Accepted(BudgetRules(c, f))
            && Budgets.Create(s, 100, 1, IntegerMax + 1, categoryId, user) == Err(NumericOutOfRange)
  {
    var c := Checkers(_ => true, _ => true, _ => Some(1.0), (t: string) => if t == "1" then Some(1) else Some(IntegerMax + 1), (t: string) => |t|);
    var f := BudgetForm(Some("1"), Some("1"), Some("2147483648"), Some("1"));
    assert forall i :: 0 <= i < |BudgetRules(c, f)| ==> BudgetRules(c, f)[i].passes;
  }
}
