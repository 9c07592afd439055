# Alke Wallet core, modelled in Dafny

A model of the non-UI part of the Alke Wallet (`AlkeWalletApp.java`): a
single-user, in-memory ledger over two currencies, USD and CLP.

- `Decimals` (decimals.dfy): the `java.math.BigDecimal` operations the wallet uses.
  A decimal is `unscaled × 10^-scale`. `RoundHalfUp` computes `RoundingMode.HALF_UP`
  on integers. The predicate `IsHalfUpRounding` defines the same rounding
  independently: nearest integer, ties away from zero. The lemmas prove that the
  two agree and that the rounding is unique, monotonic and exact on multiples.
  `SetScale`, `Multiply`, `Divide` and `Less` model `setScale`, `multiply`,
  `divide(…, scale, HALF_UP)` and `compareTo(…) < 0`. The ghost function `Value` gives
  the number a decimal denotes, as a real; `Multiply` and `Less` are stated against it.
- `Monetary` (monetary.dfy): `Currency` and the `Money` value object. The amount is
  stored as an integer number of cents, so it always has exactly two
  fractional digits. `MakeMoney` is the constructor's HALF_UP quantisation.
  `Add` and `Subtract` fail with `CurrencyMismatch` across currencies and are
  exact otherwise.
- `Rates` (rates.dfy): `SimpleExchangeRateProvider.rate`. The rates are 1 for
  equal currencies, 900 for USD→CLP, and 1/900 rounded HALF_UP to ten digits
  (0.0011111111) for CLP→USD. Any other pair gives `UnsupportedPair`.
- `Ledger` (ledger.dfy): `TransactionType` and the immutable `Transaction`
  record. The `Account` class has a mutable `balance` and an append-only
  `transactions` sequence. `InMemoryAccountRepository` is a class holding a
  `map` from id to `Account`.
- `Service` (service.dfy): `AccountServiceImpl`. The function `Convert` is the
  shared conversion routine. `Deposited`, `Withdrawn` and `ConvertedAll` give
  the effect of each operation on an account's state, and their properties are
  proved as contracts and lemmas. The `AccountService` class runs `AccountServiceImpl`'s
  read-modify-append steps on the shared `Account` objects. Each of its methods
  is proved to change the abstract state `Accounts()` exactly as those
  functions say, for the one id it is given and for no other id. The class
  invariant `Valid()` says two things: every account is stored under its own
  id, and every account's log accounts for its balance (`Consistent`).
  A consistent log is empty with a zero balance. Otherwise its first entry
  starts from a zero opening balance, each later entry follows from its
  predecessor by its recorded amount, and the last entry records the balance.
  Every operation preserves `Valid()`.
- `Results` (results.dfy): the four error kinds, which replace the Java code's
  `RuntimeException`s, and the `Result`/`Option` types.

The random ids (`UUID.randomUUID`) and the clock (`LocalDateTime.now`) become
caller-supplied parameters. So `CreateAccount` takes the account id, and every
mutating operation takes the new transaction's id and timestamp.

Two details of the Java code that the model keeps:
- `withdraw` compares the balance with the raw amount (line 207). It then
  subtracts the amount quantised to cents (lines 205 and 210).
- The CLP→USD rate has exactly ten fractional digits (line 150).

## Model

| member | source | states |
|---|---|---|
| `Decimals.RoundHalfUpSound` | AlkeWalletApp.java:31 | the integer HALF_UP rounding meets the reference definition: nearest integer, ties away from zero, for negative values too |
| `Decimals.RoundingUnique` | AlkeWalletApp.java:31 | at most one integer satisfies the reference HALF_UP definition |
| `Decimals.RoundHalfUpIff` | AlkeWalletApp.java:31 | r is the HALF_UP rounding of n/d if and only if it meets the reference definition |
| `Decimals.RoundHalfUpExact` | AlkeWalletApp.java:31 | rounding an exact multiple k·d by d gives k |
| `Decimals.RoundHalfUpMonotonic` | AlkeWalletApp.java:31 | HALF_UP rounding is monotonic in the numerator |
| `Decimals.Pow10Add` | AlkeWalletApp.java:37 | 10^(a+b) = 10^a · 10^b, used to align scales |
| `Decimals.SetScale` | AlkeWalletApp.java:37 | setScale(s, HALF_UP) keeps the value exactly when the scale grows and rounds the dropped digits HALF_UP when it shrinks |
| `Decimals.Divide` | AlkeWalletApp.java:150 | divide(divisor, scale, HALF_UP) gives the quotient rounded HALF_UP at the requested scale, for a positive or a negative divisor |
| `Decimals.Multiply` | AlkeWalletApp.java:233 | multiply gives the exact product: the number it denotes is the product of the operands' numbers, and its scale is the sum of their scales |
| `Decimals.MultiplySameValue` | AlkeWalletApp.java:233 | the product denotes the same number whatever scales its operands are written at |
| `Decimals.LessValue` | AlkeWalletApp.java:207 | `compareTo(…) < 0` holds exactly when the number x denotes is smaller than the number y denotes |
| `Decimals.LessTransitive` | AlkeWalletApp.java:207 | the comparison is transitive |
| `Decimals.LessTrichotomy` | AlkeWalletApp.java:207 | exactly one of less, equal in value and greater holds |
| `Decimals.LessSameValue` | AlkeWalletApp.java:207 | the comparison depends only on the number the left operand denotes, not on its scale |
| `Decimals.LessSameValueRight` | AlkeWalletApp.java:207 | the comparison depends only on the number the right operand denotes, so a raw amount of 10.0 and one of 10.000 compare alike |
| `Decimals.SameValueIff` | AlkeWalletApp.java:207 | two decimals written at different scales are `SameValue` exactly when they denote the same number |
| `Monetary.MakeMoney` | AlkeWalletApp.java:36-39 | the constructor keeps the currency and quantises the amount to two digits: exact for at most two digits, otherwise the HALF_UP rounding |
| `Monetary.MakeMoneyOfAmount` | AlkeWalletApp.java:37 | re-quantising a Money's own amount changes nothing |
| `Monetary.MakeMoneyExamples` | AlkeWalletApp.java:36-38 | 10.004 becomes 10.00, 10.005 becomes 10.01, -10.005 becomes -10.01, and 0 becomes 0.00 |
| `Monetary.Add` | AlkeWalletApp.java:44-57 | fails with CurrencyMismatch exactly when the currencies differ; otherwise it gives the exact sum in the same currency |
| `Monetary.Subtract` | AlkeWalletApp.java:49-57 | fails with CurrencyMismatch exactly when the currencies differ; otherwise it gives the exact difference in the same currency |
| `Monetary.AddSubtractInverse` | AlkeWalletApp.java:44-52 | subtracting what was added gives back the original Money |
| `Rates.ClpToUsdValue` | AlkeWalletApp.java:150 | 1/900 rounded HALF_UP to ten digits is 0.0011111111 |
| `Rates.Rate` | AlkeWalletApp.java:152-157 | the rate is 1 for equal currencies, 900 for USD→CLP and 0.0011111111 for CLP→USD; every other pair gives UnsupportedPair |
| `Rates.RateTotal` | AlkeWalletApp.java:152-157 | with only USD and CLP, every pair has a rate |
| `Rates.RatesInverse` | AlkeWalletApp.java:149-150 | the product of the two rates is within 10^-8 of 1 |
| `Ledger.Account.constructor` | AlkeWalletApp.java:97-100 | a new account has the given id and owner, a 0.00 balance in its currency, and an empty log |
| `Ledger.Account.SetBalance` | AlkeWalletApp.java:106 | replaces the balance and leaves the log alone |
| `Ledger.Account.AddTransaction` | AlkeWalletApp.java:107 | appends one entry at the end of the log and leaves the balance alone |
| `Ledger.InMemoryAccountRepository.constructor` | AlkeWalletApp.java:126 | the repository starts empty |
| `Ledger.InMemoryAccountRepository.Save` | AlkeWalletApp.java:128-131 | upserts the account under its own id and returns that same account; lookups of other ids are unchanged |
| `Ledger.InMemoryAccountRepository.FindById` | AlkeWalletApp.java:133-135 | gives the stored account exactly when the id is present, and None otherwise |
| `Service.Convert` | AlkeWalletApp.java:231-235 | succeeds exactly when the pair has a rate; the result is in the target currency, and its cents are the HALF_UP rounding of amount × rate |
| `Service.ConvertSameCurrency` | AlkeWalletApp.java:231-235 | converting into the currency already held gives the same Money |
| `Service.ConvertUsdToClp` | AlkeWalletApp.java:231-235 | USD→CLP multiplies the cents by 900 exactly (100.00 USD becomes 90000.00 CLP) |
| `Service.ConvertClpToUsd` | AlkeWalletApp.java:231-235 | CLP→USD is cents × 0.0011111111, rounded HALF_UP to cents |
| `Service.ConvertRoundTrip` | AlkeWalletApp.java:149-150 | USD→CLP→USD returns the original amount when it is at most 500,000.00 USD in magnitude |
| `Service.ConvertRoundTripLimit` | AlkeWalletApp.java:149-150 | just past that bound, the round trip loses a cent: 500,000.01 USD comes back as 500,000.00 |
| `Service.DepositAmount` | AlkeWalletApp.java:194-196 | the deposited amount is in the account currency: unchanged when the currencies agree, converted otherwise |
| `Service.AppendConsistent` | AlkeWalletApp.java:198-199 | appending an entry that follows from the current balance, and setting the balance to its balanceAfter, keeps the ledger invariant |
| `Service.UnaccountedBalanceRejected` | AlkeWalletApp.java:198-199 | for every account view, a log whose first entry is a deposit that does not lead from a zero balance to its recorded balanceAfter breaks the ledger invariant |
| `Service.NewAccountConsistent` | AlkeWalletApp.java:97-100 | a new account (zero balance, empty log) satisfies the ledger invariant |
| `Service.Deposited` | AlkeWalletApp.java:191-201 | a deposit always succeeds, keeps id, owner and currency, adds the deposited amount to the balance, and appends exactly one DEPOSIT entry recording that amount and the new balance |
| `Service.DepositSameCurrency` | AlkeWalletApp.java:194-198 | in the account's own currency, a deposit adds exactly the given amount and records it unconverted |
| `Service.DepositConvertsExample` | AlkeWalletApp.java:194-199 | 100.00 USD into a CLP account adds and records 90000.00 CLP |
| `Service.DepositedConsistent` | AlkeWalletApp.java:191-201 | a deposit preserves the ledger invariant |
| `Service.Withdrawn` | AlkeWalletApp.java:203-213 | fails with InsufficientFunds exactly when the balance is below the raw amount; otherwise it subtracts the quantised amount and appends exactly one WITHDRAW entry recording it and the new balance |
| `Service.QuantisedNotAbove` | AlkeWalletApp.java:205-210 | an amount not above the balance never quantises to more than the balance |
| `Service.WithdrawnNonNegative` | AlkeWalletApp.java:203-213 | a successful withdrawal never leaves a negative balance |
| `Service.WithdrawWholeBalance` | AlkeWalletApp.java:207-210 | withdrawing exactly the balance succeeds and leaves 0.00 |
| `Service.WithdrawAboveBalance` | AlkeWalletApp.java:207-208 | withdrawing the balance plus 0.01 fails with InsufficientFunds |
| `Service.WithdrawComparesRawAmount` | AlkeWalletApp.java:205-208 | 10.004 is refused on a balance of 10.00 even though it would quantise to 10.00 |
| `Service.WithdrawnConsistent` | AlkeWalletApp.java:203-213 | a withdrawal preserves the ledger invariant |
| `Service.ConvertedAll` | AlkeWalletApp.java:215-225 | always succeeds; for the current currency it is a no-op; otherwise the balance becomes the converted balance in the target currency, and one CONVERT entry with amount = balanceAfter = that value and the fixed note is appended |
| `Service.ConvertedAllConsistent` | AlkeWalletApp.java:215-225 | convertAll preserves the ledger invariant |
| `Service.AnaLedger` | AlkeWalletApp.java:191-225 | the worked scenario on account states: 50 USD into a CLP account gives 45000.00 CLP, withdrawing 10000 gives 35000.00, converting to USD gives 38.89 USD, and the log is DEPOSIT, WITHDRAW, CONVERT |
| `Service.AccountService.constructor` | AlkeWalletApp.java:173-176 | the service uses the given repository; over an empty repository its invariant holds |
| `Service.AccountService.OnlyOneChanged` | AlkeWalletApp.java:191-225 | when only the account stored under its own id changed, the abstract state changes at that id alone, and the invariant holds again once that account is consistent |
| `Service.AccountService.Acc` | AlkeWalletApp.java:178-180 | gives the stored account, or AccountNotFound for an unknown id |
| `Service.AccountService.CreateAccount` | AlkeWalletApp.java:182-185 | stores a fresh account with a 0.00 balance and an empty log under the given id, leaves every other id unchanged, and keeps the invariant |
| `Service.AccountService.GetBalance` | AlkeWalletApp.java:187-189 | gives the stored balance, or AccountNotFound; changes nothing |
| `Service.AccountService.GetTransactions` | AlkeWalletApp.java:227-229 | gives the whole log of the account in append order, or AccountNotFound; changes nothing |
| `Service.AccountService.Deposit` | AlkeWalletApp.java:191-201 | for an unknown id, fails with AccountNotFound and changes nothing; otherwise the account's state becomes `Deposited` of its old state and no other account changes |
| `Service.AccountService.Withdraw` | AlkeWalletApp.java:203-213 | for an unknown id, fails with AccountNotFound and changes nothing; on insufficient funds, fails and changes nothing; otherwise the account becomes `Withdrawn` of its old state and no other account changes |
| `Service.AccountService.ConvertAll` | AlkeWalletApp.java:215-225 | for an unknown id, fails with AccountNotFound and changes nothing; otherwise the account becomes `ConvertedAll` of its old state and no other account changes |
| `Service.AnaScenario` | AlkeWalletApp.java:182-229 | running the scenario through the service ends with 38.89 USD and a log of DEPOSIT, WITHDRAW, CONVERT |

## Left out

- `Menu` and `main` (console input and output, input retry loops, and the positivity check of `readAmount`): they are the user interface, not the ledger.
- `toString` of `Money`, `Transaction` and `Account`: display formatting only.
- `UUID.randomUUID` and `LocalDateTime.now`: nondeterministic. Ids and timestamps are parameters supplied by the caller. An id collision overwrites the earlier account, as `HashMap.put` would.
- The `AccountRepository` and `ExchangeRateProvider` interfaces: only the concrete in-memory repository and the fixed rate provider are modelled. The rate provider is a pure function, not an object.
- The error path of `rate`: it is modelled in `Rate` and `Convert`. With only two currencies it is unreachable (`RateTotal`), so the service methods use the converted value directly.
- Negative BigDecimal scales (for example the exponent form `1E+3`): scales are natural numbers here.
- Aliasing of the returned list: `getTransactions` (lines 108 and 228) returns the account's live `ArrayList`, but `GetTransactions` returns the log as a value. A caller holding the Java list could mutate the log, and that list also shows the entries that later `deposit`, `withdraw` or `convertAll` calls append to the account; a `GetTransactions` value never changes. The model cannot express either.
- Null arguments and the exceptions they would raise: not modelled.
