// `calculateChartData` of client/src/components/StatisticsPage.jsx: the
// transactions of the selected account (or all of them) are grouped by
// month name, quarter or year into income and expense sums, and summed by
// category, each by a `reduce` that updates a dictionary in place; the
// dictionaries' entries then become the chart rows. The local calendar
// (`getMonth`, the short month name, `getFullYear().toString()`) is a
// parameter.

module StatisticsPage {
  import opened Wrappers
  import opened Seqs
  import opened UserSchema

  datatype Timeframe = Monthly | Quarterly | Yearly

  /** `getMonth()` of a valid date. */
  type MonthIndex = m: int | 0 <= m < 12

  /** The local-time readings of a timestamp that the keys are made of. */
  datatype Calendar = Calendar(month: Millis -> MonthIndex, monthName: Millis -> string, yearText: Millis -> string)

  /** StatisticsPage.jsx:23-27: every transaction for 'all', else those of the selected account. */
  function Filtered(txs: seq<Transaction>, selected: string): (r: seq<Transaction>)
    ensures selected == "all" ==> r == txs
    ensures forall t :: t in r <==> t in txs && (selected == "all" || t.accountId == selected)
  {
    if selected != "all" then OwnedBy(txs, TxOwner, selected) else txs
  }

  /** `Q${Math.floor(month / 3) + 1}`. */
  function QuarterKey(m: MonthIndex): string {
    ['Q', (('0' as int) + m / 3 + 1) as char]
  }

  /** The quarter keys are Q1 to Q4, three months to each, in calendar order. */
  lemma QuarterKeys(m: MonthIndex)
    ensures QuarterKey(m) in ["Q1", "Q2", "Q3", "Q4"]
    ensures QuarterKey(m) == "Q1" <==> m < 3
    ensures QuarterKey(m) == "Q2" <==> 3 <= m < 6
    ensures QuarterKey(m) == "Q3" <==> 6 <= m < 9
    ensures QuarterKey(m) == "Q4" <==> 9 <= m
  {
  }

  /** StatisticsPage.jsx:30-35: the group key of a transaction. */
  function KeyOf(timeframe: Timeframe, cal: Calendar): Transaction -> string {
    (t: Transaction) =>
      match timeframe
      case Monthly => cal.monthName(t.date)
      case Quarterly => QuarterKey(cal.month(t.date))
      case Yearly => cal.yearText(t.date)
  }

  function Abs(x: int): nat { if x < 0 then -x else x }

  /** What a transaction adds to its group's income: its amount when it is income. */
  function IncomeShare(t: Transaction): int { if t.kind == "income" then t.amount else 0 }

  /** What it adds to its group's expenses: `Math.abs(amount)` for every type but income. */
  function ExpenseShare(t: Transaction): int { if t.kind == "income" then 0 else Abs(t.amount) }

  function CategoryOf(t: Transaction): string { t.category }

  function AbsAmount(t: Transaction): int { Abs(t.amount) }

  /** The keys in the order they are first met, each once (the order the dictionary's entries come in). */
  function FirstKeys<K(==,!new)>(txs: seq<Transaction>, key: Transaction -> K): (ks: seq<K>)
    ensures Distinct(ks)
    ensures forall k :: k in ks <==> exists t :: t in txs && key(t) == k
  {
    if |txs| == 0 then []
    else
      var p := txs[..|txs| - 1];
      var last := txs[|txs| - 1];
      assert forall t :: t in txs <==> t in p || t == last by {
        assert txs == p + [last];
      }
      var ks := FirstKeys(p, key);
      if key(last) in ks then ks else ks + [key(last)]
  }

  /** A transaction adds its key at the end when the key is new, and nothing otherwise. */
  lemma FirstKeysSnoc<K(!new)>(p: seq<Transaction>, t: Transaction, key: Transaction -> K)
    ensures FirstKeys(p + [t], key) == if key(t) in FirstKeys(p, key) then FirstKeys(p, key) else FirstKeys(p, key) + [key(t)]
  {
    assert (p + [t])[..|p + [t]| - 1] == p;
  }

  /** One group's running sums, as the dictionary holds them. */
  datatype Sums = Sums(income: int, expenses: int)

  /** `keys` and `acc` hold the groups of `txs`: the keys first met, each with its income and expense sums. */
  ghost predicate Grouped(txs: seq<Transaction>, key: Transaction -> string, keys: seq<string>, acc: map<string, Sums>) {
    && keys == FirstKeys(txs, key)
    && (forall k :: k in acc <==> k in keys)
    && forall k :: k in acc ==>
         acc[k] == Sums(GroupSum(txs, key, IncomeShare, k), GroupSum(txs, key, ExpenseShare, k))
  }

  /** One step of the grouping reduce: open the transaction's group at zero if new, then add its shares. */
  lemma GroupStep(p: seq<Transaction>, t: Transaction, q: seq<Transaction>, key: Transaction -> string,
                  keys0: seq<string>, acc0: map<string, Sums>, keys: seq<string>, acc: map<string, Sums>)
    requires q == p + [t] && Grouped(p, key, keys0, acc0)
    requires keys == if key(t) in acc0 then keys0 else keys0 + [key(t)]
    requires forall x :: x in acc <==> x in acc0 || x == key(t)
    requires forall x :: x in acc && x != key(t) ==> acc[x] == acc0[x]
    requires var start := if key(t) in acc0 then acc0[key(t)] else Sums(0, 0);
      acc[key(t)] == Sums(start.income + IncomeShare(t), start.expenses + ExpenseShare(t))
    ensures Grouped(q, key, keys, acc)
  {
    FirstKeysSnoc(p, t, key);
    if key(t) !in acc0 {
      GroupSumAbsent(p, key, IncomeShare, key(t));
      GroupSumAbsent(p, key, ExpenseShare, key(t));
    }
    forall k | k in acc
      ensures acc[k] == Sums(GroupSum(p + [t], key, IncomeShare, k), GroupSum(p + [t], key, ExpenseShare, k))
    {
      GroupSumSnoc(p, t, key, IncomeShare, k);
      GroupSumSnoc(p, t, key, ExpenseShare, k);
    }
  }

  /** The callback of the grouping reduce (StatisticsPage.jsx:29-50), applied to one more transaction `t`. */
  method AddToGroup(p: seq<Transaction>, t: Transaction, q: seq<Transaction>, key: Transaction -> string,
                    keys: seq<string>, acc: map<string, Sums>)
    returns (keys': seq<string>, acc': map<string, Sums>)
    requires q == p + [t] && Grouped(p, key, keys, acc)
    ensures Grouped(q, key, keys', acc')
  {
    var k := key(t);
    keys', acc' := keys, acc;
    if k !in acc' {
      acc' := acc'[k := Sums(0, 0)];
      keys' := keys' + [k];
    }
    if t.kind == "income" {
      acc' := acc'[k := acc'[k].(income := acc'[k].income + t.amount)];
    } else {
      acc' := acc'[k := acc'[k].(expenses := acc'[k].expenses + Abs(t.amount))];
    }
    GroupStep(p, t, q, key, keys, acc, keys', acc');
  }

  /** StatisticsPage.jsx:29-51: one pass that opens a group at its first transaction and adds to it. */
  method GroupTotals(txs: seq<Transaction>, key: Transaction -> string) returns (keys: seq<string>, acc: map<string, Sums>)
    ensures keys == FirstKeys(txs, key)
    ensures forall k :: k in acc <==> k in keys
    ensures forall k :: k in acc ==>
      acc[k] == Sums(GroupSum(txs, key, IncomeShare, k), GroupSum(txs, key, ExpenseShare, k))
  {
    keys, acc := [], map[];
    var i := 0;
    while i < |txs|
      invariant 0 <= i <= |txs|
      invariant Grouped(txs[..i], key, keys, acc)
    {
      assert txs[..i + 1] == txs[..i] + [txs[i]];
      keys, acc := AddToGroup(txs[..i], txs[i], txs[..i + 1], key, keys, acc);
      i := i + 1;
    }
    assert txs[..i] == txs;
  }

  /** `names` and `acc` hold the categories of `txs`: the names first met, each with its sum of absolute amounts. */
  ghost predicate Categorised(txs: seq<Transaction>, names: seq<string>, acc: map<string, int>) {
    && names == FirstKeys(txs, CategoryOf)
    && (forall c :: c in acc <==> c in names)
    && forall c :: c in acc ==> acc[c] == GroupSum(txs, CategoryOf, AbsAmount, c)
  }

  /** One step of the category reduce: the category's sum, zero if new, grows by the absolute amount. */
  lemma CategoryStep(p: seq<Transaction>, t: Transaction, q: seq<Transaction>,
                     names0: seq<string>, acc0: map<string, int>, names: seq<string>, acc: map<string, int>)
    requires q == p + [t] && Categorised(p, names0, acc0)
    requires names == if t.category in acc0 then names0 else names0 + [t.category]
    requires forall x :: x in acc <==> x in acc0 || x == t.category
    requires forall x :: x in acc && x != t.category ==> acc[x] == acc0[x]
    requires acc[t.category] == (if t.category in acc0 then acc0[t.category] else 0) + AbsAmount(t)
    ensures Categorised(q, names, acc)
  {
    FirstKeysSnoc(p, t, CategoryOf);
    if t.category !in acc0 {
      GroupSumAbsent(p, CategoryOf, AbsAmount, t.category);
    }
    forall c | c in acc ensures acc[c] == GroupSum(p + [t], CategoryOf, AbsAmount, c) {
      GroupSumSnoc(p, t, CategoryOf, AbsAmount, c);
    }
  }

  /** The callback of the category reduce (StatisticsPage.jsx:54-58), applied to one more transaction `t`. */
  method AddToCategory(p: seq<Transaction>, t: Transaction, q: seq<Transaction>, names: seq<string>, acc: map<string, int>)
    returns (names': seq<string>, acc': map<string, int>)
    requires q == p + [t] && Categorised(p, names, acc)
    ensures Categorised(q, names', acc')
  {
    names', acc' := names, acc;
    // `if (!acc[category])`: a sum still at 0 is set to 0 again, which changes nothing
    if t.category !in acc' || acc'[t.category] == 0 {
      if t.category !in acc' {
        names' := names' + [t.category];
      }
      acc' := acc'[t.category := 0];
    }
    acc' := acc'[t.category := acc'[t.category] + Abs(t.amount)];
    CategoryStep(p, t, q, names, acc, names', acc');
  }

  /** StatisticsPage.jsx:53-59: one pass summing `Math.abs(amount)` per category, income included. */
  method CategoryTotals(txs: seq<Transaction>) returns (names: seq<string>, acc: map<string, int>)
    ensures names == FirstKeys(txs, CategoryOf)
    ensures forall c :: c in acc <==> c in names
    ensures forall c :: c in acc ==> acc[c] == GroupSum(txs, CategoryOf, AbsAmount, c)
  {
    names, acc := [], map[];
    var i := 0;
    while i < |txs|
      invariant 0 <= i <= |txs|
      invariant Categorised(txs[..i], names, acc)
    {
      assert txs[..i + 1] == txs[..i] + [txs[i]];
      names, acc := AddToCategory(txs[..i], txs[i], txs[..i + 1], names, acc);
      i := i + 1;
    }
    assert txs[..i] == txs;
  }

  /** A row of the balance chart. */
  datatype Row = Row(date: string, income: int, expenses: int, balance: int)

  /** A slice of the category chart. */
  datatype Slice = Slice(name: string, value: int)

  /** StatisticsPage.jsx:61-66: one row per group, its balance the income less the expenses. */
  function BalanceRows(keys: seq<string>, acc: map<string, Sums>): (rows: seq<Row>)
    requires forall k :: k in keys ==> k in acc
    ensures |rows| == |keys|
  {
    seq(|keys|, i requires 0 <= i < |keys| =>
      Row(keys[i], acc[keys[i]].income, acc[keys[i]].expenses, acc[keys[i]].income - acc[keys[i]].expenses))
  }

  /** StatisticsPage.jsx:68-71. */
  function CategorySlices(names: seq<string>, acc: map<string, int>): (slices: seq<Slice>)
    requires forall c :: c in names ==> c in acc
    ensures |slices| == |names|
  {
    seq(|names|, i requires 0 <= i < |names| => Slice(names[i], acc[names[i]]))
  }

  /**
   * `calculateChartData`: one row per group key and one slice per category,
   * in the order first met; a row carries its group's income sum, its expense
   * sum and their difference, and a slice its category's sum of absolute
   * amounts.
   */
  method CalculateChartData(txs: seq<Transaction>, selected: string, timeframe: Timeframe, cal: Calendar)
    returns (balance: seq<Row>, categories: seq<Slice>)
    ensures var f := Filtered(txs, selected);
      var key := KeyOf(timeframe, cal);
      var keys := FirstKeys(f, key);
      && |balance| == |keys|
      && forall i :: 0 <= i < |balance| ==>
           var income := GroupSum(f, key, IncomeShare, keys[i]);
           var expenses := GroupSum(f, key, ExpenseShare, keys[i]);
           balance[i] == Row(keys[i], income, expenses, income - expenses)
    ensures var f := Filtered(txs, selected);
      var names := FirstKeys(f, CategoryOf);
      && |categories| == |names|
      && forall i :: 0 <= i < |categories| ==> categories[i] == Slice(names[i], GroupSum(f, CategoryOf, AbsAmount, names[i]))
  {
    var filtered := Filtered(txs, selected);
    var keys, grouped := GroupTotals(filtered, KeyOf(timeframe, cal));
    var names, categoryData := CategoryTotals(filtered);
    balance := BalanceRows(keys, grouped);
    categories := CategorySlices(names, categoryData);
  }

  /**
   * Every transaction lands in exactly one group: the group keys are
   * distinct and cover every transaction, so the groups' income sums add up to
   * the income of all of them and their expense sums to all the expenses.
   */
  lemma GroupsPartition(txs: seq<Transaction>, key: Transaction -> string)
    ensures var keys := FirstKeys(txs, key);
      && Distinct(keys)
      && (forall t :: t in txs ==> key(t) in keys)
      && SumGroups(keys, txs, key, IncomeShare) == Total(txs, IncomeShare)
      && SumGroups(keys, txs, key, ExpenseShare) == Total(txs, ExpenseShare)
  {
    var keys := FirstKeys(txs, key);
    PartitionTotal(keys, txs, key, IncomeShare);
    PartitionTotal(keys, txs, key, ExpenseShare);
  }

  /** Likewise every transaction lands in exactly one category, its absolute amount counted once. */
  lemma CategoriesPartition(txs: seq<Transaction>)
    ensures var names := FirstKeys(txs, CategoryOf);
      && Distinct(names)
      && (forall t :: t in txs ==> t.category in names)
      && SumGroups(names, txs, CategoryOf, AbsAmount) == Total(txs, AbsAmount)
  {
    var names := FirstKeys(txs, CategoryOf);
    PartitionTotal(names, txs, CategoryOf, AbsAmount);
  }

  /**
   * The shares split each absolute amount: an expense (or any type but
   * income) is all expense, an income with a non-negative amount all income;
   * so the category chart's total is the groups' income plus expenses.
   */
  lemma {:induction false} SharesSplitAbsolute(txs: seq<Transaction>)
    requires forall t :: t in txs && t.kind == "income" ==> t.amount >= 0
    ensures Total(txs, IncomeShare) + Total(txs, ExpenseShare) == Total(txs, AbsAmount)
    decreases |txs|
  {
    if |txs| > 0 {
      var p := txs[..|txs| - 1];
      assert forall t :: t in p ==> t in txs;
      assert txs[|txs| - 1] in txs;
      SharesSplitAbsolute(p);
    }
  }

  /** A group's expenses never go below zero, whatever the signs of the amounts. */
  lemma {:induction false} ExpensesNonNegative(txs: seq<Transaction>, key: Transaction -> string, k: string)
    ensures GroupSum(txs, key, ExpenseShare, k) >= 0
    decreases |txs|
  {
    if |txs| > 0 {
      ExpensesNonNegative(txs[..|txs| - 1], key, k);
    }
  }
}
