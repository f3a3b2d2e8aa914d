/** An account statement: the append-only list of transactions of one
    customer, the balance fold over it and the same-day filter. */
module Statements {

  /** A calendar day, the part of a timestamp that `toDateString` keeps. */
  datatype CalendarDay = CalendarDay(year: int, month: int, day: int)

  /** The moment a transaction is recorded. The clock is outside the model:
      callers pass the timestamp in. */
  datatype Timestamp = Timestamp(year: int, month: int, day: int, millisOfDay: nat)
  {
    function Day(): CalendarDay {
      CalendarDay(year, month, day)
    }
  }

  /** The `type` field: deposits are stored as 'credit', withdrawals as 'withdraw'. */
  datatype TxType = Credit | Withdraw

  datatype Transaction = Transaction(description: string, amount: int, createdAt: Timestamp, kind: TxType)

  // ---------------------------------------------------------------------
  // Balance

  /** Sum of the amounts of the credit entries (reference definition). */
  function Credits(s: seq<Transaction>): (sum: int)
    decreases |s|
  {
    if s == [] then 0 else (if s[0].kind == Credit then s[0].amount else 0) + Credits(s[1..])
  }

  /** Sum of the amounts of all other entries (reference definition). */
  function Debits(s: seq<Transaction>): (sum: int)
    decreases |s|
  {
    if s == [] then 0 else (if s[0].kind == Credit then 0 else s[0].amount) + Debits(s[1..])
  }

  /** One step of the reducer: add the amount of a credit, subtract the
      amount of any other entry. */
  function Step(acc: int, t: Transaction): (next: int)
    ensures next == acc + Credits([t]) - Debits([t])
  {
    assert [t][1..] == [];
    if t.kind == Credit then acc + t.amount else acc - t.amount
  }

  /** The left fold `statement.reduce(step, acc)`: the start value plus the
      credits minus everything else. */
  function Fold(acc: int, s: seq<Transaction>): (result: int)
    ensures result == acc + Credits(s) - Debits(s)
    decreases |s|
  {
    if s == [] then acc else Fold(Step(acc, s[0]), s[1..])
  }

  /** The balance of a statement: the fold started at 0, that is the sum of
      the credits minus the sum of all other amounts. */
  function GetBalance(s: seq<Transaction>): (balance: int)
    ensures balance == Credits(s) - Debits(s)
    ensures s == [] ==> balance == 0
  {
    Fold(0, s)
  }

  /** Appending one entry to the folded sequence applies one more step. */
  lemma {:induction false} FoldAppend(acc: int, s: seq<Transaction>, t: Transaction)
    ensures Fold(acc, s + [t]) == Step(Fold(acc, s), t)
    decreases |s|
  {
    if s == [] {
      assert [t][1..] == [];
    } else {
      assert (s + [t])[0] == s[0];
      assert (s + [t])[1..] == s[1..] + [t];
      FoldAppend(Step(acc, s[0]), s[1..], t);
    }
  }

  /** The balance after appending an entry: up by its amount for a credit,
      down by its amount for anything else. */
  lemma GetBalanceAppend(s: seq<Transaction>, t: Transaction)
    ensures t.kind == Credit ==> GetBalance(s + [t]) == GetBalance(s) + t.amount
    ensures t.kind != Credit ==> GetBalance(s + [t]) == GetBalance(s) - t.amount
  {
    FoldAppend(0, s, t);
  }

  // ---------------------------------------------------------------------
  // Same-day filter

  /** `r` can be obtained from `s` by deleting entries, keeping the order. */
  ghost predicate IsSubsequence<T>(r: seq<T>, s: seq<T>)
    decreases |s|
  {
    if s == [] then r == []
    else (r != [] && r[0] == s[0] && IsSubsequence(r[1..], s[1..])) || IsSubsequence(r, s[1..])
  }

  /** Deleting every entry leaves a subsequence. */
  lemma {:induction false} EmptyIsSubsequence<T>(s: seq<T>)
    ensures IsSubsequence([], s)
    decreases |s|
  {
    if s != [] {
      EmptyIsSubsequence(s[1..]);
    }
  }

  /** The entries recorded on `day`, in statement order (`statement.filter`). */
  function FilterByDay(s: seq<Transaction>, day: CalendarDay): (r: seq<Transaction>)
    ensures |r| <= |s|
    ensures IsSubsequence(r, s)
    ensures forall t :: t in r <==> t in s && t.createdAt.Day() == day
    decreases |s|
  {
    if s == [] then []
    else if s[0].createdAt.Day() == day then [s[0]] + FilterByDay(s[1..], day)
    else FilterByDay(s[1..], day)
  }

  /** Every entry recorded on `day` is kept as often as it occurs in the
      statement; no other entry is kept. */
  lemma {:induction false} FilterByDayCounts(s: seq<Transaction>, day: CalendarDay)
    ensures forall u :: multiset(FilterByDay(s, day))[u] ==
                          if u.createdAt.Day() == day then multiset(s)[u] else 0
    decreases |s|
  {
    if s != [] {
      FilterByDayCounts(s[1..], day);
      assert s == [s[0]] + s[1..];
    }
  }

  /** The filter distributes over concatenation: it keeps the order of the
      statement and decides each entry on its own. */
  lemma {:induction false} FilterByDayAppend(s1: seq<Transaction>, s2: seq<Transaction>, day: CalendarDay)
    ensures FilterByDay(s1 + s2, day) == FilterByDay(s1, day) + FilterByDay(s2, day)
    decreases |s1|
  {
    if s1 != [] {
      assert (s1 + s2)[0] == s1[0];
      assert (s1 + s2)[1..] == s1[1..] + s2;
      FilterByDayAppend(s1[1..], s2, day);
    } else {
      assert s1 + s2 == s2;
    }
  }

  /** A single entry is kept exactly when it was recorded on `day`. */
  lemma FilterByDaySingle(t: Transaction, day: CalendarDay)
    ensures FilterByDay([t], day) == if t.createdAt.Day() == day then [t] else []
  {
  }

  /** Recording one more entry extends the day's list by that entry when it
      falls on that day, and leaves it as it was otherwise. */
  lemma FilterByDayAfterAppend(s: seq<Transaction>, t: Transaction, day: CalendarDay)
    ensures FilterByDay(s + [t], day) ==
              FilterByDay(s, day) + (if t.createdAt.Day() == day then [t] else [])
  {
    FilterByDayAppend(s, [t], day);
    FilterByDaySingle(t, day);
  }
}
