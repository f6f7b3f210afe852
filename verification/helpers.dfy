/** The income/expense/savings reducer over a list of transactions: exactly
    "income" is income, every other type string counts as expense. */
module Helpers {
  import opened Seqs
  import opened Schema

  /** Sum of the amounts of the transactions typed exactly "income". */
  function IncomeSum(txs: seq<Transaction>): int
  {
    if |txs| == 0 then 0
    else IncomeSum(txs[..|txs| - 1]) + (if txs[|txs| - 1].kind == Income then txs[|txs| - 1].amount else 0)
  }

  /** Sum of the amounts of all other transactions, whatever their type. */
  function OtherSum(txs: seq<Transaction>): int
  {
    if |txs| == 0 then 0
    else OtherSum(txs[..|txs| - 1]) + (if txs[|txs| - 1].kind == Income then 0 else txs[|txs| - 1].amount)
  }

  datatype Totals = Totals(totalIncome: int, totalExpense: int, totalSavings: int)

  /** calculateTotals. */
  method CalculateTotals(txs: seq<Transaction>) returns (r: Totals)
    ensures r.totalIncome == IncomeSum(txs)
    ensures r.totalExpense == OtherSum(txs)
    ensures r.totalSavings == r.totalIncome - r.totalExpense
    ensures |txs| == 0 ==> r == Totals(0, 0, 0)
  {
    var totalIncome, totalExpense := 0, 0;
    var i := 0;
    while i < |txs|
      invariant 0 <= i <= |txs|
      invariant totalIncome == IncomeSum(txs[..i])
      invariant totalExpense == OtherSum(txs[..i])
    {
      assert txs[..i + 1][..i] == txs[..i];
      if txs[i].kind == Income {
        totalIncome := totalIncome + txs[i].amount;
      } else {
        totalExpense := totalExpense + txs[i].amount;
      }
      i := i + 1;
    }
    assert txs[..|txs|] == txs;
    r := Totals(totalIncome, totalExpense, totalIncome - totalExpense);
  }

  /** Every transaction is counted once: income plus expense is the sum of
      all amounts. */
  lemma {:induction false} SplitIsComplete(txs: seq<Transaction>)
    ensures IncomeSum(txs) + OtherSum(txs) == SumBy(txs, AmountOf)
  {
    if |txs| > 0 {
      var init := txs[..|txs| - 1];
      SplitIsComplete(init);
      SumByConcat(init, [txs[|txs| - 1]], AmountOf);
      assert init + [txs[|txs| - 1]] == txs;
    }
  }

  /** Only a transaction typed exactly "income" adds to income; any other
      type, "expense" or not, adds to expense. */
  lemma OneTransaction(t: Transaction)
    ensures IncomeSum([t]) == (if t.kind == Income then t.amount else 0)
    ensures OtherSum([t]) == (if t.kind == Income then 0 else t.amount)
  {
    assert [t][..0] == [];
  }
}
