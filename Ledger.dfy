/**
  * The account ledger: a bank account holds a balance and an append-only
  * log of transactions, and supports deposit, withdraw and transfer.
  * The savings variant (`SavingsAccount`) is the kind `Savings(rate)`:
  * it credits interest on every accepted deposit and reports annual interest.
  * Amounts and rates are exact reals; the wall-clock timestamp of a log
  * entry is passed in as `now`.
  */
module Ledger {
  import opened Wrappers

  datatype AccountKind = Basic | Savings(rate: real)

  /** The `interest_rate` default of `SavingsAccount`: a savings account
      created without a rate has kind `Savings(DefaultInterestRate)`. */
  const DefaultInterestRate: real := 0.03

  /** Deposits below this amount are refused, by both kinds of account. */
  const MinDeposit: real := 200.0

  /** One entry of the log (the dict `_log_transaction` builds). */
  datatype Transaction = Transaction(transactionType: string, category: string, amount: real, date: string, accountId: string)

  datatype SavingsInfo = SavingsInfo(interestRate: real, annualInterest: real)

  /** What `get_account_info` returns; `savings` holds the two keys only savings accounts add. */
  datatype AccountInfo = AccountInfo(
    accountId: string, customerId: string, branchCode: string,
    balance: real, transactionCount: nat, savings: Option<SavingsInfo>)

  /** What an accepted deposit of `amount` adds to the balance. */
  function Credit(kind: AccountKind, amount: real): real {
    match kind
    case Basic => amount
    case Savings(rate) => amount + amount * rate
  }

  predicate RateNonNegative(kind: AccountKind) { kind.Savings? ==> kind.rate >= 0.0 }

  /** An accepted deposit never lowers the balance when the rate is not negative. */
  lemma CreditAtLeastAmount(kind: AccountKind, amount: real)
    requires RateNonNegative(kind) && amount >= MinDeposit
    ensures Credit(kind, amount) >= amount > 0.0
  {
    if kind.Savings? {
      assert amount * kind.rate >= 0.0;
    }
  }

  class BankAccount {
    const accountId: string
    const customerId: string
    const branchCode: string
    const kind: AccountKind
    var balance: real
    var transactions: seq<Transaction>

    /** The invariant deposits and withdrawals keep: a balance that is not negative. */
    predicate NonNegative()
      reads this
    {
      balance >= 0.0 && RateNonNegative(kind)
    }

    /** The entry `withdraw` logs. */
    function DebitEntry(amount: real, date: string): Transaction {
      Transaction("DEBIT", "withdrawal", amount, date, accountId)
    }

    constructor (accountId: string, customerId: string, branchCode: string, kind: AccountKind, initialBalance: real := 0.0)
      ensures this.accountId == accountId && this.customerId == customerId && this.branchCode == branchCode
      ensures this.kind == kind && balance == initialBalance && transactions == []
    {
      this.accountId := accountId;
      this.customerId := customerId;
      this.branchCode := branchCode;
      this.kind := kind;
      balance := initialBalance;
      transactions := [];
    }

    /** `BankAccount.deposit`, which the savings deposit calls first. */
    method BaseDeposit(amount: real) returns (ok: bool)
      modifies this
      ensures ok <==> amount >= MinDeposit
      ensures balance == if ok then old(balance) + amount else old(balance)
      ensures transactions == old(transactions)
    {
      if amount < MinDeposit {
        return false;
      }
      balance := balance + amount;
      return true;
    }

    /** `deposit`, dispatched on the kind of account. Never logs a transaction. */
    method Deposit(amount: real) returns (ok: bool)
      modifies this
      ensures ok <==> amount >= MinDeposit
      ensures balance == if ok then old(balance) + Credit(kind, amount) else old(balance)
      ensures transactions == old(transactions)
      ensures old(NonNegative()) ==> NonNegative() && balance >= old(balance)
    {
      match kind {
        case Basic =>
          ok := BaseDeposit(amount);
        case Savings(rate) =>
          ok := BaseDeposit(amount);
          if ok {
            var interest := amount * rate;
            balance := balance + interest;
          }
      }
      if ok && old(NonNegative()) {
        CreditAtLeastAmount(kind, amount);
      }
    }

    /** `_log_transaction`: appends one entry and touches nothing else. */
    method LogTransaction(transactionType: string, category: string, amount: real, now: string)
      modifies this
      ensures transactions == old(transactions) + [Transaction(transactionType, category, amount, now, accountId)]
      ensures balance == old(balance)
    {
      transactions := transactions + [Transaction(transactionType, category, amount, now, accountId)];
    }

    /** `withdraw`: succeeds iff `0 < amount <= balance`, and then logs exactly one debit. */
    method Withdraw(amount: real, now: string) returns (ok: bool)
      modifies this
      ensures ok <==> 0.0 < amount <= old(balance)
      ensures balance == if ok then old(balance) - amount else old(balance)
      ensures transactions == if ok then old(transactions) + [DebitEntry(amount, now)] else old(transactions)
      ensures old(NonNegative()) ==> NonNegative()
    {
      if amount > 0.0 && amount <= balance {
        balance := balance - amount;
        LogTransaction("DEBIT", "withdrawal", amount, now);
        return true;
      }
      return false;
    }

    /** `transfer`: withdraw here, deposit there; if the deposit is refused the
        withdrawn amount is put back, but the debit entry already logged stays.
        `other` may be this very account. */
    method Transfer(other: BankAccount, amount: real, now: string) returns (ok: bool)
      modifies this, other
      ensures ok <==> 0.0 < amount <= old(balance) && amount >= MinDeposit
      ensures transactions ==
        if 0.0 < amount <= old(balance) then old(transactions) + [DebitEntry(amount, now)] else old(transactions)
      ensures other != this ==>
        && balance == (if ok then old(balance) - amount else old(balance))
        && other.balance == (if ok then old(other.balance) + Credit(other.kind, amount) else old(other.balance))
        && other.transactions == old(other.transactions)
      ensures other == this ==>
        balance == if ok then old(balance) - amount + Credit(kind, amount) else old(balance)
      ensures old(NonNegative()) && old(other.NonNegative()) ==> NonNegative() && other.NonNegative()
    {
      var withdrawn := Withdraw(amount, now);
      if withdrawn {
        var deposited := other.Deposit(amount);
        if deposited {
          return true;
        } else {
          balance := balance + amount;
        }
      }
      return false;
    }

    /** `get_balance` */
    method GetBalance() returns (b: real)
      ensures b == balance
    {
      return balance;
    }

    /** `SavingsAccount.calculate_annual_interest`: one year of interest on the current balance. */
    method CalculateAnnualInterest() returns (interest: real)
      requires kind.Savings?
      ensures interest == balance * kind.rate
      ensures NonNegative() ==> interest >= 0.0
    {
      interest := balance * kind.rate;
    }

    /** `get_account_info`, with the two savings keys when the account is a savings account. */
    method GetAccountInfo() returns (info: AccountInfo)
      ensures info.accountId == accountId && info.customerId == customerId && info.branchCode == branchCode
      ensures info.balance == balance && info.transactionCount == |transactions|
      ensures info.savings.Some? <==> kind.Savings?
      ensures kind.Savings? ==> info.savings.value == SavingsInfo(kind.rate, balance * kind.rate)
    {
      var savings: Option<SavingsInfo> := None;
      if kind.Savings? {
        var annual := CalculateAnnualInterest();
        savings := Some(SavingsInfo(kind.rate, annual));
      }
      info := AccountInfo(accountId, customerId, branchCode, balance, |transactions|, savings);
    }
  }

  /** The hard-coded session of `quick_demo`, run against the contracts above:
      a basic account at 1000 and a savings account at 5000 with 5% interest. */
  method QuickDemo(customerId: string, branchCode: string)
    returns (basicBalance: real, savingsBalance: real, basicLog: nat, savingsLog: nat, annual: real)
    ensures basicBalance == 850.0 && savingsBalance == 6365.0
    ensures basicLog == 2 && savingsLog == 0
    ensures annual == 302.5
  {
    var basic := new BankAccount("ACC001", customerId, branchCode, Basic, 1000.0);
    var savings := new BankAccount("SAV001", customerId, branchCode, Savings(0.05), 5000.0);
    var ok := basic.Deposit(200.0);
    ok := basic.Withdraw(50.0, "t1");
    ok := savings.Deposit(1000.0);
    annual := savings.CalculateAnnualInterest();
    ok := basic.Transfer(savings, 300.0, "t2");
    ok := basic.Deposit(100.0);
    ok := savings.Deposit(100.0);
    basicBalance, savingsBalance := basic.balance, savings.balance;
    basicLog, savingsLog := |basic.transactions|, |savings.transactions|;
  }

  /** A basic-to-basic transfer below the deposit minimum is refused, both
      balances are as before, and the source's log still gains the debit. */
  method SmallTransferLeavesDebit(fromBalance: real, toBalance: real)
    returns (ok: bool, fromAfter: real, toAfter: real, fromLog: nat, toLog: nat)
    requires fromBalance >= 50.0
    ensures !ok && fromAfter == fromBalance && toAfter == toBalance
    ensures fromLog == 1 && toLog == 0
  {
    var from := new BankAccount("A", "C1", "BR001", Basic, fromBalance);
    var to := new BankAccount("B", "C2", "BR001", Basic, toBalance);
    ok := from.Transfer(to, 50.0, "t");
    fromAfter, toAfter := from.balance, to.balance;
    fromLog, toLog := |from.transactions|, |to.transactions|;
  }

  /** The menu lets "from" and "to" name the same account: a savings account
      that transfers to itself keeps the amount and gains its interest. */
  method SelfTransferEarnsInterest() returns (ok: bool, after: real, log: nat)
    ensures ok && after == 5050.0 && log == 1
  {
    var savings := new BankAccount("SAV001", "C1", "BR001", Savings(0.05), 5000.0);
    ok := savings.Transfer(savings, 1000.0, "t");
    after, log := savings.balance, |savings.transactions|;
  }

  /** A savings account opened without a rate and no initial balance earns
      3% on its first deposit and reports 3% annual interest. */
  method DefaultRateSavings() returns (ok: bool, balanceAfter: real, annual: real)
    ensures ok && balanceAfter == 1030.0 && annual == 30.9
  {
    var savings := new BankAccount("SAV002", "C1", "BR001", Savings(DefaultInterestRate));
    ok := savings.Deposit(1000.0);
    balanceAfter := savings.balance;
    annual := savings.CalculateAnnualInterest();
  }
}
