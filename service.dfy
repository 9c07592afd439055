/**
 * AccountServiceImpl: the read-modify-append cycle on accounts held in the
 * repository. The pure part (conversion and the effect of each operation on
 * an account's state) is given as functions; the class performs the same
 * steps on the shared Account objects and is proved against them.
 */
module Service {
  import opened Decimals
  import opened Results
  import opened Monetary
  import opened Rates
  import opened Ledger

  /** The note recorded on every CONVERT entry. */
  const ConversionNote: string := "Conversión total"

  /**
   * The service's private convert: multiply the amount by the rate, round
   * HALF_UP back to two digits and tag the result with the target currency.
   */
  function Convert(m: Money, to: Currency): (r: Result<Money>)
    ensures r.Ok? <==> Rate(m.currency, to).Ok?
    ensures r.Err? ==> r.error == UnsupportedPair
    ensures r.Ok? ==> r.value.currency == to
    ensures r.Ok? ==>
      var rate := Rate(m.currency, to).value;
      IsHalfUpRounding(m.cents * rate.unscaled, Pow10(rate.scale), r.value.cents)
  {
    match Rate(m.currency, to)
    case Err(e) => Err(e)
    case Ok(rate) =>
      var result := SetScale(Multiply(Amount(m), rate), Scale);
      Ok(MakeMoney(result, to))
  }

  /** Converting into the currency one already holds changes nothing. */
  lemma ConvertSameCurrency(m: Money)
    ensures Convert(m, m.currency) == Ok(m)
  {
  }

  /** USD to CLP is exact: 900 CLP per USD. */
  lemma ConvertUsdToClp(cents: int)
    ensures Convert(Money(cents, USD), CLP) == Ok(Money(900 * cents, CLP))
  {
  }

  /** CLP to USD multiplies by 0.0011111111 and rounds HALF_UP to cents. */
  lemma ConvertClpToUsd(cents: int)
    ensures Convert(Money(cents, CLP), USD) ==
      Ok(Money(RoundHalfUp(cents * 11111111, Pow10(10)), USD))
  {
  }

  /**
   * Converting USD to CLP and back returns the original amount up to
   * 500,000.00 USD in magnitude; the rate's rounding to ten digits loses a
   * cent just beyond that (ConvertRoundTripLimit).
   */
  lemma ConvertRoundTrip(cents: int)
    requires -50000000 <= cents <= 50000000
    ensures Convert(Money(cents, USD), CLP).Ok?
    ensures Convert(Convert(Money(cents, USD), CLP).value, USD) == Ok(Money(cents, USD))
  {
    ConvertUsdToClp(cents);
    ConvertClpToUsd(900 * cents);
    assert Pow10(10) == 10000000000;
    assert IsHalfUpRounding(900 * cents * 11111111, Pow10(10), cents);
    RoundHalfUpIff(900 * cents * 11111111, Pow10(10), cents);
  }

  lemma ConvertRoundTripLimit()
    ensures Convert(Convert(Money(50000001, USD), CLP).value, USD) == Ok(Money(50000000, USD))
  {
    ConvertUsdToClp(50000001);
    ConvertClpToUsd(900 * 50000001);
    assert Pow10(10) == 10000000000;
    assert IsHalfUpRounding(900 * 50000001 * 11111111, Pow10(10), 50000000);
    RoundHalfUpIff(900 * 50000001 * 11111111, Pow10(10), 50000000);
  }

  /** The amount a deposit adds, in the account's currency (converted when it differs). */
  function DepositAmount(amount: Money, into: Currency): (r: Result<Money>)
    ensures r.Ok? && r.value.currency == into
    ensures amount.currency == into ==> r == Ok(amount)
    ensures amount.currency != into ==> r == Convert(amount, into)
  {
    if amount.currency == into then Ok(amount) else Convert(amount, into)
  }

  /** How a logged entry moves the balance from `prev` to its `balanceAfter`. */
  ghost predicate Step(prev: Money, t: Transaction)
  {
    match t.kind
    case DEPOSIT => Add(prev, t.amount) == Ok(t.balanceAfter)
    case WITHDRAW => Subtract(prev, t.amount) == Ok(t.balanceAfter)
    case CONVERT =>
      && prev.currency != t.balanceAfter.currency
      && t.amount == t.balanceAfter
      && Convert(prev, t.balanceAfter.currency) == Ok(t.balanceAfter)
  }

  /** The other of the two currencies. */
  function OtherCurrency(c: Currency): (r: Currency)
    ensures r != c
  {
    if c == USD then CLP else USD
  }

  /**
   * The currency of the zero opening balance that a first log entry starts
   * from: its own currency for a deposit or withdrawal, the other currency for
   * a conversion.
   */
  function Opening(t: Transaction): (r: Currency)
  {
    if t.kind == CONVERT then OtherCurrency(t.balanceAfter.currency) else t.amount.currency
  }

  /**
   * The ledger invariant of an account: an empty log goes with a zero balance,
   * the first entry starts from a zero opening balance, the last entry records
   * the current balance, and each entry follows from its predecessor's
   * balanceAfter by its own amount. So replaying the log from zero gives the
   * balance.
   */
  ghost predicate Consistent(v: AccountView)
  {
    var log := v.transactions;
    && (|log| == 0 ==> v.balance.cents == 0)
    && (|log| > 0 ==> Step(Money(0, Opening(log[0])), log[0]))
    && (|log| > 0 ==> log[|log| - 1].balanceAfter == v.balance)
    && (forall i :: 0 < i < |log| ==> Step(log[i - 1].balanceAfter, log[i]))
  }

  /** Appending one entry that follows from the current balance keeps the invariant. */
  lemma AppendConsistent(v: AccountView, t: Transaction)
    requires Consistent(v) && Step(v.balance, t)
    ensures Consistent(AccountView(v.id, v.ownerName, t.balanceAfter, v.transactions + [t]))
  {
  }

  /**
   * A log whose first entry is a deposit that does not lead from zero to its
   * recorded balanceAfter is not consistent, whatever the rest of the view.
   */
  lemma UnaccountedBalanceRejected(v: AccountView)
    requires |v.transactions| > 0 && v.transactions[0].kind == DEPOSIT
    requires Add(Money(0, v.transactions[0].amount.currency), v.transactions[0].amount)
      != Ok(v.transactions[0].balanceAfter)
    ensures !Consistent(v)
  {
  }

  /** A freshly created account satisfies the invariant. */
  lemma NewAccountConsistent(id: string, owner: string, c: Currency)
    ensures Consistent(AccountView(id, owner, Money(0, c), []))
  {
  }

  /** The effect of deposit on an account's state. */
  function Deposited(v: AccountView, amount: Money, txId: string, at: int): (r: Result<AccountView>)
    ensures r.Ok?
    ensures r.value.id == v.id && r.value.ownerName == v.ownerName
    ensures var c := DepositAmount(amount, v.balance.currency).value;
      && r.value.balance == Money(v.balance.cents + c.cents, v.balance.currency)
      && r.value.transactions == v.transactions + [Transaction(txId, at, DEPOSIT, c, r.value.balance, None)]
  {
    var converted := DepositAmount(amount, v.balance.currency).value;
    var balance := Add(v.balance, converted).value;
    Ok(AccountView(v.id, v.ownerName, balance,
      v.transactions + [Transaction(txId, at, DEPOSIT, converted, balance, None)]))
  }

  /** A deposit in the account's own currency adds exactly the deposited amount. */
  lemma DepositSameCurrency(v: AccountView, amount: Money, txId: string, at: int)
    requires amount.currency == v.balance.currency
    ensures Deposited(v, amount, txId, at).value.balance == Money(v.balance.cents + amount.cents, amount.currency)
    ensures Last(Deposited(v, amount, txId, at).value.transactions).amount == amount
  {
  }

  /** Depositing 100.00 USD into a CLP account adds and records 90000.00 CLP. */
  lemma DepositConvertsExample(v: AccountView, txId: string, at: int)
    requires v.balance.currency == CLP
    ensures Deposited(v, Money(10000, USD), txId, at).value.balance == Money(v.balance.cents + 9000000, CLP)
    ensures Last(Deposited(v, Money(10000, USD), txId, at).value.transactions).amount == Money(9000000, CLP)
  {
  }

  lemma DepositedConsistent(v: AccountView, amount: Money, txId: string, at: int)
    requires Consistent(v)
    ensures Consistent(Deposited(v, amount, txId, at).value)
  {
  }

  /** The effect of withdraw on an account's state. */
  function Withdrawn(v: AccountView, amount: Decimal, txId: string, at: int): (r: Result<AccountView>)
    ensures r.Err? <==> Less(Amount(v.balance), amount)
    ensures r.Err? ==> r.error == InsufficientFunds
    ensures r.Ok? ==>
      var m := MakeMoney(amount, v.balance.currency);
      && r.value.id == v.id && r.value.ownerName == v.ownerName
      && r.value.balance == Money(v.balance.cents - m.cents, v.balance.currency)
      && r.value.transactions == v.transactions + [Transaction(txId, at, WITHDRAW, m, r.value.balance, None)]
  {
    var m := MakeMoney(amount, v.balance.currency);
    if Less(Amount(v.balance), amount) then Err(InsufficientFunds)
    else
      var balance := Subtract(v.balance, m).value;
      Ok(AccountView(v.id, v.ownerName, balance,
        v.transactions + [Transaction(txId, at, WITHDRAW, m, balance, None)]))
  }

  /**
   * An amount that is not above the balance never rounds to more than the
   * balance, so a successful withdrawal never leaves a negative balance.
   */
  lemma QuantisedNotAbove(cents: int, amount: Decimal, c: Currency)
    requires !Less(Decimal(cents, Scale), amount)
    ensures MakeMoney(amount, c).cents <= cents
  {
    var m := MakeMoney(amount, c);
    var s := amount.scale;
    if s > Scale {
      var p := Pow10(s - Scale);
      Pow10Add(Scale, s - Scale);
      assert amount.unscaled <= cents * p by {
        assert amount.unscaled * Pow10(Scale) <= (cents * p) * Pow10(Scale);
        MulLeCancel(amount.unscaled, cents * p, Pow10(Scale));
      }
      RoundHalfUpIff(amount.unscaled, p, m.cents);
      RoundHalfUpMonotonic(amount.unscaled, cents * p, p);
      RoundHalfUpExact(cents, p);
    } else {
      MulLeCancel(m.cents, cents, Pow10(s));
    }
  }

  lemma WithdrawnNonNegative(v: AccountView, amount: Decimal, txId: string, at: int)
    requires Withdrawn(v, amount, txId, at).Ok?
    ensures Withdrawn(v, amount, txId, at).value.balance.cents >= 0
  {
    QuantisedNotAbove(v.balance.cents, amount, v.balance.currency);
  }

  /** Withdrawing exactly the balance succeeds and leaves 0.00. */
  lemma WithdrawWholeBalance(v: AccountView, txId: string, at: int)
    ensures Withdrawn(v, Amount(v.balance), txId, at).Ok?
    ensures Withdrawn(v, Amount(v.balance), txId, at).value.balance == Money(0, v.balance.currency)
  {
  }

  /** Withdrawing one cent more than the balance fails. */
  lemma WithdrawAboveBalance(v: AccountView, txId: string, at: int)
    ensures Withdrawn(v, Decimal(v.balance.cents + 1, Scale), txId, at) == Err(InsufficientFunds)
  {
  }

  /**
   * The funds check uses the raw amount: 10.004 is refused on a balance of
   * 10.00 even though it would be withdrawn as 10.00.
   */
  lemma WithdrawComparesRawAmount(v: AccountView, txId: string, at: int)
    requires v.balance.cents == 1000
    ensures MakeMoney(Decimal(10004, 3), v.balance.currency).cents == 1000
    ensures Withdrawn(v, Decimal(10004, 3), txId, at) == Err(InsufficientFunds)
  {
  }

  lemma WithdrawnConsistent(v: AccountView, amount: Decimal, txId: string, at: int)
    requires Consistent(v) && Withdrawn(v, amount, txId, at).Ok?
    ensures Consistent(Withdrawn(v, amount, txId, at).value)
  {
  }

  /** The effect of convertAll on an account's state. */
  function ConvertedAll(v: AccountView, target: Currency, txId: string, at: int): (r: Result<AccountView>)
    ensures r.Ok?
    ensures v.balance.currency == target ==> r == Ok(v)
    ensures v.balance.currency != target ==>
      && r.value.id == v.id && r.value.ownerName == v.ownerName
      && Convert(v.balance, target) == Ok(r.value.balance)
      && r.value.balance.currency == target
      && r.value.transactions == v.transactions +
           [Transaction(txId, at, CONVERT, r.value.balance, r.value.balance, Some(ConversionNote))]
  {
    if v.balance.currency == target then Ok(v)
    else
      var after := Convert(v.balance, target).value;
      Ok(AccountView(v.id, v.ownerName, after,
        v.transactions + [Transaction(txId, at, CONVERT, after, after, Some(ConversionNote))]))
  }

  lemma ConvertedAllConsistent(v: AccountView, target: Currency, txId: string, at: int)
    requires Consistent(v)
    ensures Consistent(ConvertedAll(v, target, txId, at).value)
  {
    if v.balance.currency != target {
      var after := Convert(v.balance, target).value;
      var t := Transaction(txId, at, CONVERT, after, after, Some(ConversionNote));
      assert Step(v.balance, t);
      AppendConsistent(v, t);
    }
  }

  function Last<T>(s: seq<T>): (r: T)
    requires |s| > 0
  {
    s[|s| - 1]
  }

  /** The service: every operation looks the account up, then reads, modifies and appends. */
  class AccountService {
    const repo: InMemoryAccountRepository

    constructor (repo: InMemoryAccountRepository)
      ensures this.repo == repo
      ensures repo.data == map[] ==> Valid()
    {
      this.repo := repo;
    }

    /**
     * Every account is stored under its own id (so distinct ids are distinct
     * objects) and keeps the ledger invariant.
     */
    ghost predicate Valid()
      reads this, repo, repo.data.Values
    {
      forall id :: id in repo.data ==> repo.data[id].id == id && Consistent(repo.data[id].View())
    }

    /** The state of every stored account, by id. */
    ghost function Accounts(): map<string, AccountView>
      reads this, repo, repo.data.Values
    {
      map id | id in repo.data :: repo.data[id].View()
    }

    /**
     * Framing shared by the mutating operations: when only the account `a`
     * stored under its own id changed, the abstract state changed only at
     * that id, and the invariant holds again once `a` is consistent.
     */
    twostate lemma OnlyOneChanged(a: Account)
      requires old(Valid()) && a.id in old(repo.data) && old(repo.data[a.id]) == a
      requires unchanged(this, repo)
      requires forall id :: id in old(repo.data) && id != a.id ==> unchanged(old(repo.data[id]))
      ensures Accounts() == old(Accounts())[a.id := a.View()]
      ensures Consistent(a.View()) ==> Valid()
    {
      forall id | id in repo.data && id != a.id
        ensures repo.data[id].View() == old(repo.data[id].View())
      {
      }
      assert Accounts() == old(Accounts())[a.id := a.View()];
    }

    /** The private lookup `acc`: the stored account, or AccountNotFound. */
    method Acc(id: string) returns (r: Result<Account>)
      ensures r == if id in repo.data then Ok(repo.data[id]) else Err(AccountNotFound)
    {
      match repo.FindById(id)
      case None => r := Err(AccountNotFound);
      case Some(a) => r := Ok(a);
    }

    /** A new account with 0.00 in `currency` and an empty log, saved under `id`. */
    method CreateAccount(id: string, owner: string, currency: Currency) returns (a: Account)
      requires Valid()
      modifies repo
      ensures Valid() && fresh(a)
      ensures repo.data == old(repo.data)[id := a]
      ensures Accounts() == old(Accounts())[id := AccountView(id, owner, Money(0, currency), [])]
    {
      a := new Account(id, owner, currency);
      a := repo.Save(a);
      assert Accounts() == old(Accounts())[id := a.View()];
    }

    method GetBalance(id: string) returns (r: Result<Money>)
      ensures r == if id in Accounts() then Ok(Accounts()[id].balance) else Err(AccountNotFound)
    {
      var a := Acc(id);
      match a
      case Err(e) => r := Err(e);
      case Ok(acct) => r := Ok(acct.balance);
    }

    /** The whole log, oldest entry first. */
    method GetTransactions(id: string) returns (r: Result<seq<Transaction>>)
      ensures r == if id in Accounts() then Ok(Accounts()[id].transactions) else Err(AccountNotFound)
    {
      var a := Acc(id);
      match a
      case Err(e) => r := Err(e);
      case Ok(acct) => r := Ok(acct.transactions);
    }

    method Deposit(id: string, amount: Money, txId: string, at: int) returns (r: Result<Account>)
      requires Valid()
      modifies repo.data.Values
      ensures Valid()
      ensures id !in old(Accounts()) ==> r == Err(AccountNotFound) && Accounts() == old(Accounts())
      ensures id in old(Accounts()) ==>
        && r == Ok(repo.data[id])
        && Accounts() == old(Accounts())[id := Deposited(old(Accounts())[id], amount, txId, at).value]
    {
      var found := Acc(id);
      if found.Err? {
        return Err(found.error);
      }
      var a := found.value;
      ghost var before := a.View();
      DepositedConsistent(before, amount, txId, at);
      var converted := DepositAmount(amount, a.BalanceCurrency()).value;
      a.SetBalance(Add(a.balance, converted).value);
      a.AddTransaction(Transaction(txId, at, DEPOSIT, converted, a.balance, None));
      r := Ok(a);
      assert a.View() == Deposited(before, amount, txId, at).value;
      OnlyOneChanged(a);
    }

    method Withdraw(id: string, amount: Decimal, txId: string, at: int) returns (r: Result<Account>)
      requires Valid()
      modifies repo.data.Values
      ensures Valid()
      ensures id !in old(Accounts()) ==> r == Err(AccountNotFound) && Accounts() == old(Accounts())
      ensures id in old(Accounts()) ==>
        var w := Withdrawn(old(Accounts())[id], amount, txId, at);
        && (w.Err? ==> r == Err(w.error) && Accounts() == old(Accounts()))
        && (w.Ok? ==> r == Ok(repo.data[id]) && Accounts() == old(Accounts())[id := w.value])
    {
      var found := Acc(id);
      if found.Err? {
        return Err(found.error);
      }
      var a := found.value;
      var m := MakeMoney(amount, a.BalanceCurrency());
      if Less(Amount(a.balance), amount) {
        return Err(InsufficientFunds);
      }
      ghost var before := a.View();
      WithdrawnConsistent(before, amount, txId, at);
      a.SetBalance(Subtract(a.balance, m).value);
      a.AddTransaction(Transaction(txId, at, WITHDRAW, m, a.balance, None));
      r := Ok(a);
      assert a.View() == Withdrawn(before, amount, txId, at).value;
      OnlyOneChanged(a);
    }

    method ConvertAll(id: string, target: Currency, txId: string, at: int) returns (r: Result<Account>)
      requires Valid()
      modifies repo.data.Values
      ensures Valid()
      ensures id !in old(Accounts()) ==> r == Err(AccountNotFound) && Accounts() == old(Accounts())
      ensures id in old(Accounts()) ==>
        && r == Ok(repo.data[id])
        && Accounts() == old(Accounts())[id := ConvertedAll(old(Accounts())[id], target, txId, at).value]
    {
      var found := Acc(id);
      if found.Err? {
        return Err(found.error);
      }
      var a := found.value;
      if a.BalanceCurrency() == target {
        assert Accounts() == old(Accounts())[id := a.View()];
        return Ok(a);
      }
      ghost var before := a.View();
      ConvertedAllConsistent(before, target, txId, at);
      var after := Convert(a.balance, target).value;
      a.SetBalance(after);
      a.AddTransaction(Transaction(txId, at, CONVERT, after, after, Some(ConversionNote)));
      r := Ok(a);
      assert a.View() == ConvertedAll(before, target, txId, at).value;
      OnlyOneChanged(a);
    }
  }

  /** The scenario below on account states: the three steps and their outcome. */
  lemma AnaLedger(v0: AccountView, v1: AccountView, v2: AccountView, v3: AccountView)
    requires v0.balance == Money(0, CLP) && v0.transactions == []
    requires Deposited(v0, Money(5000, USD), "t1", 1) == Ok(v1)
    requires Withdrawn(v1, Decimal(10000, 0), "t2", 2) == Ok(v2)
    requires ConvertedAll(v2, USD, "t3", 3) == Ok(v3)
    ensures v1.balance == Money(4500000, CLP) && v2.balance == Money(3500000, CLP)
    ensures v3.balance == Money(3889, USD)
    ensures |v3.transactions| == 3
    ensures v3.transactions[0].kind == DEPOSIT && v3.transactions[1].kind == WITHDRAW
    ensures v3.transactions[2].kind == CONVERT
  {
    AnaDepositStep(v0, v1);
    AnaWithdrawStep(v1, v2);
    AnaConvertStep(v2, v3);
  }

  lemma AnaDepositStep(v0: AccountView, v1: AccountView)
    requires v0.balance == Money(0, CLP)
    requires Deposited(v0, Money(5000, USD), "t1", 1) == Ok(v1)
    ensures v1.balance == Money(4500000, CLP)
  {
    ConvertUsdToClp(5000);
  }

  lemma AnaWithdrawStep(v1: AccountView, v2: AccountView)
    requires v1.balance == Money(4500000, CLP)
    requires Withdrawn(v1, Decimal(10000, 0), "t2", 2) == Ok(v2)
    ensures v2.balance == Money(3500000, CLP)
  {
    assert Pow10(0) == 1 && Pow10(2) == 100;
    assert MakeMoney(Decimal(10000, 0), CLP).cents == 1000000;
  }

  lemma AnaConvertStep(v2: AccountView, v3: AccountView)
    requires v2.balance == Money(3500000, CLP)
    requires ConvertedAll(v2, USD, "t3", 3) == Ok(v3)
    ensures v3.balance == Money(3889, USD)
  {
    ConvertClpToUsd(3500000);
    assert Pow10(10) == 10000000000;
    assert RoundHalfUp(3500000 * 11111111, Pow10(10)) == 3889;
  }

  /** Withdrawing 10000 CLP from 45000.00 CLP succeeds. */
  lemma AnaWithdrawAllowed(v1: AccountView)
    requires v1.balance == Money(4500000, CLP)
    ensures Withdrawn(v1, Decimal(10000, 0), "t2", 2).Ok?
  {
  }

  /**
   * Ana's CLP account: deposit 50 USD (45000.00 CLP), withdraw 10000 CLP
   * (35000.00 CLP), convert everything to USD (38.89 USD); the log then holds a
   * DEPOSIT, a WITHDRAW and a CONVERT, in that order.
   */
  method AnaScenario() returns (balance: Result<Money>, kinds: seq<TransactionType>)
    ensures balance == Ok(Money(3889, USD))
    ensures kinds == [DEPOSIT, WITHDRAW, CONVERT]
  {
    var repo := new InMemoryAccountRepository();
    var service := new AccountService(repo);
    var ana := service.CreateAccount("ana", "Ana", CLP);
    ghost var v0 := service.Accounts()["ana"];
    var r := service.Deposit("ana", Money(5000, USD), "t1", 1);
    ghost var v1 := service.Accounts()["ana"];
    assert v1.balance == Money(4500000, CLP) by {
      ConvertUsdToClp(5000);
    }
    AnaWithdrawAllowed(v1);
    r := service.Withdraw("ana", Decimal(10000, 0), "t2", 2);
    ghost var v2 := service.Accounts()["ana"];
    r := service.ConvertAll("ana", USD, "t3", 3);
    ghost var v3 := service.Accounts()["ana"];
    AnaLedger(v0, v1, v2, v3);
    balance := service.GetBalance("ana");
    var log := service.GetTransactions("ana");
    kinds := [log.value[0].kind, log.value[1].kind, log.value[2].kind];
  }
}
