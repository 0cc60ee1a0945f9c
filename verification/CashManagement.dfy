/** The backtester's bank: cash in hand, a loan facility, and dollar loans once the facility is used up. */
module CashManagement {
  import opened Rounding

  datatype Bank = Bank(cash: real, loan: real, available: real, dollarLoans: bool)

  /** Lends what the facility covers; an empty facility is topped up by a dollar when those are allowed. */
  function GetLoan(b: Bank, desired: real): Bank
    requires desired > 0.0
    decreases if b.available == 0.0 then 1 else 0
  {
    var amount := Min(desired, b.available);
    var b' := b.(available := b.available - amount, loan := b.loan + amount, cash := b.cash + amount);
    if amount == 0.0 && b.dollarLoans then GetLoan(b'.(available := 1.0), desired) else b'
  }

  function Borrow(b: Bank, amount: real): Bank {
    if b.cash < amount then GetLoan(b, amount - b.cash) else b
  }

  function Withdrawn(b: Bank, amount: real): real {
    Min(amount, Borrow(b, amount).cash)
  }

  function Withdraw(b: Bank, amount: real): Bank {
    var b' := Borrow(b, amount);
    b'.(cash := b'.cash - Withdrawn(b, amount))
  }

  function PayIn(b: Bank, amount: real): Bank {
    b.(cash := b.cash + amount)
  }

  predicate Solvent(b: Bank) {
    b.cash >= 0.0 && b.available >= 0.0
  }

  /** A withdrawal that finds cash short and the facility empty takes one dollar of top-up. */
  predicate TopsUp(b: Bank, amount: real) {
    b.dollarLoans && b.cash < amount && b.available == 0.0
  }

  lemma LoanSize(b: Bank, desired: real)
    requires desired > 0.0 && b.available >= 0.0
    ensures var topped := b.dollarLoans && b.available == 0.0;
            var facility := if topped then 1.0 else b.available;
            var lent := Min(desired, facility);
            GetLoan(b, desired) == Bank(b.cash + lent, b.loan + lent, facility - lent, b.dollarLoans)
  {
    var b' := b.(available := 1.0);
    if b.dollarLoans && b.available == 0.0 {
      assert GetLoan(b, desired) == GetLoan(b', desired);
      assert Min(desired, b'.available) != 0.0;
    }
  }

  /**
   What one withdrawal yields: the whole request when cash and facility cover it, all there is when
   they do not, and never more than was asked for.
   */
  lemma WithdrawalSize(b: Bank, amount: real)
    requires Solvent(b) && amount >= 0.0
    ensures var reach := b.cash + if TopsUp(b, amount) then 1.0 else b.available;
            Withdrawn(b, amount) == Min(amount, reach)
    ensures 0.0 <= Withdrawn(b, amount) <= amount
    ensures b.dollarLoans && amount > 0.0 ==> Withdrawn(b, amount) > 0.0
  {
    if b.cash < amount { LoanSize(b, amount - b.cash); }
  }

  /** Nothing appears or disappears in one withdrawal but the loan taken and the dollar of top-up. */
  lemma WithdrawalBalances(b: Bank, amount: real)
    requires Solvent(b) && amount >= 0.0
    ensures var b' := Withdraw(b, amount);
            && Solvent(b') && b'.dollarLoans == b.dollarLoans
            && b'.cash - b'.loan == b.cash - b.loan - Withdrawn(b, amount)
            && b'.loan + b'.available == b.loan + b.available + (if TopsUp(b, amount) then 1.0 else 0.0)
            && b'.loan >= b.loan
  {
    if b.cash < amount { LoanSize(b, amount - b.cash); }
  }

  /** What a withdrawal has to lend: what cash is short by, as far as the facility or its top-up reaches. */
  function Lent(b: Bank, amount: real): real {
    var reach := if b.dollarLoans && b.cash < amount && b.available == 0.0 then 1.0 else b.available;
    Max(0.0, Min(amount - b.cash, reach))
  }

  /** The whole bank after a withdrawal: only the shortfall is lent, and then all the cash is taken. */
  lemma LendsTheShortfall(b: Bank, amount: real)
    requires Solvent(b) && amount >= 0.0
    ensures var lent := Lent(b, amount);
            var topUp := if b.dollarLoans && b.cash < amount && b.available == 0.0 then 1.0 else 0.0;
            Withdraw(b, amount) == Bank(
              Max(0.0, b.cash - amount), b.loan + lent, b.available + topUp - lent, b.dollarLoans)
    ensures Withdraw(b, amount).loan > b.loan ==> Withdraw(b, amount).cash == 0.0
  {
    if b.cash < amount { LoanSize(b, amount - b.cash); }
  }

  // ---------- Runs ----------

  datatype Transaction = Take(amount: real) | Deposit(amount: real)

  function Step(b: Bank, t: Transaction): Bank {
    match t
    case Take(amount) => Withdraw(b, amount)
    case Deposit(amount) => PayIn(b, amount)
  }

  function Run(b: Bank, ts: seq<Transaction>): Bank
    decreases |ts|
  {
    if ts == [] then b else Run(Step(b, ts[0]), ts[1..])
  }

  function TotalTaken(b: Bank, ts: seq<Transaction>): real
    decreases |ts|
  {
    if ts == [] then 0.0
    else (if ts[0].Take? then Withdrawn(b, ts[0].amount) else 0.0) + TotalTaken(Step(b, ts[0]), ts[1..])
  }

  function TotalDeposited(ts: seq<Transaction>): real {
    if ts == [] then 0.0
    else (if ts[0].Deposit? then ts[0].amount else 0.0) + TotalDeposited(ts[1..])
  }

  function TopUps(b: Bank, ts: seq<Transaction>): nat
    decreases |ts|
  {
    if ts == [] then 0
    else (if ts[0].Take? && TopsUp(b, ts[0].amount) then 1 else 0) + TopUps(Step(b, ts[0]), ts[1..])
  }

  /** Over any run of non-negative transactions the books balance and nothing goes below zero. */
  lemma {:induction false} BooksBalance(b: Bank, ts: seq<Transaction>)
    requires Solvent(b) && forall i :: 0 <= i < |ts| ==> ts[i].amount >= 0.0
    ensures var end := Run(b, ts);
            && Solvent(end)
            && end.cash == b.cash + (end.loan - b.loan) + TotalDeposited(ts) - TotalTaken(b, ts)
            && end.loan + end.available == b.loan + b.available + TopUps(b, ts) as real
    decreases |ts|
  {
    if ts != [] {
      if ts[0].Take? { WithdrawalBalances(b, ts[0].amount); }
      BooksBalance(Step(b, ts[0]), ts[1..]);
    }
  }

  function TotalLent(b: Bank, ts: seq<Transaction>): real
    decreases |ts|
  {
    if ts == [] then 0.0
    else (if ts[0].Take? then Lent(b, ts[0].amount) else 0.0) + TotalLent(Step(b, ts[0]), ts[1..])
  }

  /** The loan at the end of any run is what its withdrawals were short by, no more and no less. */
  lemma {:induction false} LoanIsShortfalls(b: Bank, ts: seq<Transaction>)
    requires Solvent(b) && forall i :: 0 <= i < |ts| ==> ts[i].amount >= 0.0
    ensures Run(b, ts).loan == b.loan + TotalLent(b, ts)
    decreases |ts|
  {
    if ts != [] {
      if ts[0].Take? {
        WithdrawalBalances(b, ts[0].amount);
        LendsTheShortfall(b, ts[0].amount);
      }
      LoanIsShortfalls(Step(b, ts[0]), ts[1..]);
    }
  }

  lemma {:induction false} RunOneMore(b: Bank, ts: seq<Transaction>, i: nat)
    requires i < |ts|
    ensures Run(b, ts[..i + 1]) == Step(Run(b, ts[..i]), ts[i])
    decreases i
  {
    var first := ts[..i + 1];
    assert first[0] == ts[0] && first[1..] == ts[1..][..i];
    if i == 0 {
      assert Run(b, first) == Run(Step(b, ts[0]), []);
    } else {
      RunOneMore(Step(b, ts[0]), ts[1..], i - 1);
      assert ts[..i][1..] == ts[1..][..i - 1];
    }
  }

  /** Anywhere in a run the loan only grows by emptying the cash. */
  lemma BorrowsLast(b: Bank, ts: seq<Transaction>, i: nat)
    requires Solvent(b) && (forall j :: 0 <= j < |ts| ==> ts[j].amount >= 0.0) && i < |ts|
    ensures var before, after := Run(b, ts[..i]), Run(b, ts[..i + 1]);
            && after.loan >= before.loan
            && (after.loan > before.loan ==> after.cash == 0.0 && ts[i].Take? && before.cash < ts[i].amount)
  {
    RunOneMore(b, ts, i);
    BooksBalance(b, ts[..i]);
    if ts[i].Take? { LendsTheShortfall(Run(b, ts[..i]), ts[i].amount); }
  }

  // ---------- The object ----------

  class BacktesterCashManagement {
    var cash: real
    var loan: real
    var loanAvailable: real
    const dollarLoans: bool

    function View(): Bank
      reads this
    {
      Bank(cash, loan, loanAvailable, dollarLoans)
    }

    constructor (startingCash: real, facility: real, dollarLoans: bool)
      ensures View() == Bank(startingCash, 0.0, facility, dollarLoans)
    {
      cash, loan, loanAvailable := startingCash, 0.0, facility;
      this.dollarLoans := dollarLoans;
    }

    method TakeLoan(desired: real)
      requires desired > 0.0
      modifies this`cash, this`loan, this`loanAvailable
      ensures View() == GetLoan(old(View()), desired)
      decreases if loanAvailable == 0.0 then 1 else 0
    {
      var amount := Min(desired, loanAvailable);
      loanAvailable := loanAvailable - amount;
      loan := loan + amount;
      cash := cash + amount;
      assert loanAvailable >= 0.0; // so the source's "bug in loans code" is never thrown
      if amount == 0.0 && dollarLoans {
        loanAvailable := 1.0;
        TakeLoan(desired);
      }
    }

    method WithdrawCash(amount: real) returns (withdrawal: real)
      modifies this`cash, this`loan, this`loanAvailable
      ensures View() == Withdraw(old(View()), amount) && withdrawal == Withdrawn(old(View()), amount)
    {
      if cash < amount {
        TakeLoan(amount - cash);
      }
      withdrawal := Min(amount, cash);
      cash := cash - withdrawal;
    }

    method PayInCash(amount: real)
      modifies this`cash
      ensures View() == PayIn(old(View()), amount)
    {
      cash := cash + amount;
    }
  }
}
