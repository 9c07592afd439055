/** Transactions, accounts and the in-memory account repository. */
module Ledger {
  import opened Results
  import opened Monetary

  datatype TransactionType = DEPOSIT | WITHDRAW | CONVERT

  /**
   * One immutable log entry. The id and timestamp that the Java code draws from
   * UUID.randomUUID and LocalDateTime.now are supplied by the caller; `amount`
   * is the delta (or the converted total) and `balanceAfter` the balance right
   * after the entry was applied.
   */
  datatype Transaction = Transaction(
    id: string,
    timestamp: int,
    kind: TransactionType,
    amount: Money,
    balanceAfter: Money,
    notes: Option<string>)

  /** A snapshot of an account's state, by value. */
  datatype AccountView = AccountView(
    id: string,
    ownerName: string,
    balance: Money,
    transactions: seq<Transaction>)

  /** An account: a mutable balance and an append-only transaction log. */
  class Account {
    const id: string
    const ownerName: string
    var balance: Money
    var transactions: seq<Transaction>

    /** A new account holds 0.00 in its currency and has an empty log. */
    constructor (id: string, owner: string, currency: Currency)
      ensures this.id == id && ownerName == owner
      ensures balance == Money(0, currency) && transactions == []
    {
      this.id := id;
      ownerName := owner;
      balance := MakeMoney(Decimals.Decimal(0, 0), currency);
      transactions := [];
    }

    /** The account's currency is that of its balance. */
    function BalanceCurrency(): (r: Currency)
      reads this
    {
      balance.currency
    }

    function View(): (r: AccountView)
      reads this
    {
      AccountView(id, ownerName, balance, transactions)
    }

    method SetBalance(m: Money)
      modifies this
      ensures balance == m && transactions == old(transactions)
    {
      balance := m;
    }

    method AddTransaction(t: Transaction)
      modifies this
      ensures transactions == old(transactions) + [t] && balance == old(balance)
    {
      transactions := transactions + [t];
    }
  }

  /** A map from account id to account, with upsert and lookup. */
  class InMemoryAccountRepository {
    var data: map<string, Account>

    constructor ()
      ensures data == map[]
    {
      data := map[];
    }

    /** Upsert by the account's own id; returns the account it was given. */
    method Save(a: Account) returns (r: Account)
      modifies this
      ensures data == old(data)[a.id := a]
      ensures r == a && FindById(a.id) == Some(a)
      ensures forall id :: id != a.id ==> FindById(id) == old(FindById(id))
    {
      data := data[a.id := a];
      r := a;
    }

    /** The account stored under `id`, or None when there is none. */
    function FindById(id: string): (r: Option<Account>)
      reads this
      ensures r.Some? <==> id in data
      ensures r.Some? ==> r.value == data[id]
    {
      if id in data then Some(data[id]) else None
    }
  }
}
