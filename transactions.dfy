/** Transactions: immutable records of one posting against a category name. */
module Transactions {

  /** A posting of `amount` against the category called `name`; `isExpense` is
      the transaction's declared kind. The fields are set once and never change,
      and the destructors `name`, `amount` and `isExpense` are the getters. */
  datatype Transaction = Transaction(name: string, amount: int, isExpense: bool)

  /** The effect of a transaction on the wallet balance: an expense lowers it,
      an income raises it. */
  function Signed(t: Transaction): int
  {
    if t.isExpense then -t.amount else t.amount
  }

  /** The signed sum of a transaction log, read from the oldest entry. */
  function SignedSum(log: seq<Transaction>): int
  {
    if log == [] then 0 else Signed(log[0]) + SignedSum(log[1..])
  }

  /** Appending a transaction to the log adds exactly its signed amount. */
  lemma {:induction false} SignedSumAppend(log: seq<Transaction>, t: Transaction)
    ensures SignedSum(log + [t]) == SignedSum(log) + Signed(t)
  {
    if log != [] {
      assert (log + [t])[1..] == log[1..] + [t];
      SignedSumAppend(log[1..], t);
    }
  }

  /** The total amount of the logged transactions posted under `name`,
      whatever their declared kind. */
  function NamedSum(log: seq<Transaction>, name: string): int
  {
    if log == [] then 0 else (if log[0].name == name then log[0].amount else 0) + NamedSum(log[1..], name)
  }

  /** Appending a transaction adds its amount to the total of its own name
      and leaves the totals of all other names unchanged. */
  lemma {:induction false} NamedSumAppend(log: seq<Transaction>, t: Transaction, name: string)
    ensures NamedSum(log + [t], name) == NamedSum(log, name) + (if t.name == name then t.amount else 0)
  {
    if log != [] {
      assert (log + [t])[1..] == log[1..] + [t];
      NamedSumAppend(log[1..], t, name);
    }
  }

  /** A name that no logged transaction carries has total 0. */
  lemma {:induction false} NamedSumAbsent(log: seq<Transaction>, name: string)
    requires forall i | 0 <= i < |log| :: log[i].name != name
    ensures NamedSum(log, name) == 0
  {
    if log != [] {
      assert forall i | 0 <= i < |log[1..]| :: log[1..][i] == log[i + 1];
      NamedSumAbsent(log[1..], name);
    }
  }
}
