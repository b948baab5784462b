/**
 `BankAccount` of Advanced/OOP/class_object.py: a balance behind private
 attributes, changed only by `deposit` and read by `get_balance`, which also
 prints the account holder's name.
 */
module BankAccounts {
  import Builtins

  /** `BankAccount(name, balance)`; the constructor stores both as given. */
  datatype BankAccount = BankAccount(name: string, balance: int)

  /** `deposit(amount)`: adds the amount, whatever its sign; nothing is validated. */
  function Deposit(a: BankAccount, amount: int): (r: BankAccount)
    ensures r.balance - a.balance == amount
    ensures r.name == a.name
  {
    a.(balance := a.balance + amount)
  }

  /**
   `get_balance()`: the balance, together with the line the private
   `__get_bank_name` prints; the account itself is not touched.
   */
  function GetBalance(a: BankAccount): (r: (int, string))
    ensures r.0 == a.balance && r.1 == a.name
  {
    (a.balance, a.name)
  }

  /** Depositing a list of amounts one after the other. */
  function DepositAll(a: BankAccount, amounts: seq<int>): BankAccount
    decreases |amounts|
  {
    if amounts == [] then a else DepositAll(Deposit(a, amounts[0]), amounts[1..])
  }

  /** A run of deposits adds exactly their sum and leaves the name alone. */
  lemma {:induction false} DepositAllAddsSum(a: BankAccount, amounts: seq<int>)
    ensures DepositAll(a, amounts).balance == a.balance + Builtins.Sum(amounts)
    ensures DepositAll(a, amounts).name == a.name
    decreases |amounts|
  {
    if amounts != [] {
      DepositAllAddsSum(Deposit(a, amounts[0]), amounts[1..]);
    }
  }

  /** The order of two deposits does not matter. */
  lemma DepositsCommute(a: BankAccount, x: int, y: int)
    ensures Deposit(Deposit(a, x), y) == Deposit(Deposit(a, y), x)
  {
  }

  /** `BankAccount("Dilip", 1000)`, then `deposit(500)`: `get_balance()` is 1500. */
  lemma BankAccountExample()
    ensures GetBalance(Deposit(BankAccount("Dilip", 1000), 500)) == (1500, "Dilip")
  {
  }
}
