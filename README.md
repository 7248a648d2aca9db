# Bank account ledger and customer record store, in Dafny

This project models the two small components of the Capstone repository's
`Python/` directory and proves properties of them.

* **Account ledger** (`Python/PythonOOP.py`). A `BankAccount` holds a balance and
  an append-only list of transactions. It supports `deposit`, `withdraw` and
  `transfer`, and `transfer` rolls back its withdrawal when the deposit is refused.
  `SavingsAccount` is modelled as the account kind `Savings(rate)` next to `Basic`:
  it credits `amount * rate` of interest on every accepted deposit and reports
  annual interest. `Ledger.dfy` has the class `Ledger.BankAccount`, whose methods
  change `balance` and `transactions` in place. `transfer` has `modifies this, other`
  because the interactive menu lets both sides be the same account.
* **Customer record store** (`Python/PythonScripts.py`). Customers are CSV rows
  (`map<string, string>`) in an ordered list. `Customers.CustomerStore` adds a row
  (the new id is `max(int ids) + 1`) and removes rows by id (refused for an unknown
  id or one a transaction refers to). `Customers.Search` is the case-insensitive
  substring search with its display limit of 10. `Customers.FilterCustomers` is the
  case-insensitive equality filter, stably sorted by name. `Customers.BranchTotals`
  is the per-branch balance aggregation loop. `Validators.dfy` holds the field
  validators of `add_customer`: name, city/state, gender, account type, date of
  birth (measured against the fixed day 2025-10-11), phone number, branch code,
  e-mail and balance.

Supporting modules: `Text.dfy` gives Python's string operations (ASCII `\d \w \s`,
`lower`, `strip`, `in`, `<` on strings, `int()`, `str()`), and `Seqs.dfy` gives the
list comprehension `[x for x in s if p(x)]` with its lemmas.

Some of the code's behaviour differs from what its own docstrings and messages suggest; the model follows what the code does:

* The base class's `deposit` (PythonOOP.py:26-42) enforces the 200 minimum itself,
  although its docstring calls it the "Overridden deposit" that "Adds interest on
  deposit", and its messages speak of savings accounts (lines 27, 29 and 34). So
  deposits below 200 are refused by both kinds of account, and, for example, a
  basic-to-basic transfer of 50 always fails (`Ledger.SmallTransferLeavesDebit`).
* A transfer whose deposit leg fails restores the source balance. It does not
  remove the `DEBIT` entry that `withdraw` already logged (PythonOOP.py:65, 70-73).
  So "either both legs happen or nothing changes" holds for balances only, not
  for the transaction log.
* A savings account that transfers to itself keeps the amount and gains its
  interest (`Ledger.SelfTransferEarnsInterest`).

Python's `re.match(r"^P$", s)` also accepts `s` followed by one final newline.
`Validators.MatchesToEnd` models that, and `Validators.MatchesToEndStripped` shows
the case cannot arise on the stripped input the validators receive.

## Model

| member | source | states |
|---|---|---|
| `Ledger.BankAccount.constructor` | Python/PythonOOP.py:12-21 | the account starts with the given ids, kind and `initial_balance` (default 0.0) and an empty transaction log |
| `Ledger.BankAccount.BaseDeposit` | Python/PythonOOP.py:25-42 | refused, with nothing changed, iff `amount < 200`; otherwise adds exactly `amount`; never logs |
| `Ledger.BankAccount.Deposit` | Python/PythonOOP.py:141-153 | refused with no change iff `amount < 200`; a basic account gains `amount`, a savings account `amount + amount*rate`; the log is unchanged; a non-negative balance (rate >= 0) stays non-negative and does not drop |
| `Ledger.CreditAtLeastAmount` | Python/PythonOOP.py:146-148 | with a non-negative rate an accepted deposit credits at least the amount deposited |
| `Ledger.BankAccount.LogTransaction` | Python/PythonOOP.py:83-97 | appends exactly one entry (type, category, amount, date, this account's id) and leaves the balance alone |
| `Ledger.BankAccount.Withdraw` | Python/PythonOOP.py:44-58 | succeeds iff `0 < amount <= balance`; then the balance drops by `amount` and exactly one `DEBIT`/`withdrawal` entry is logged; on failure balance and log are unchanged; never makes a non-negative balance negative |
| `Ledger.BankAccount.Transfer` | Python/PythonOOP.py:60-74 | true iff the withdrawal and the deposit are both accepted; a refused withdrawal changes nothing; a refused deposit restores the source balance, leaves the target untouched, and keeps the extra DEBIT entry; covers the target being the source itself |
| `Ledger.BankAccount.GetBalance` | Python/PythonOOP.py:76-81 | returns the current balance and changes nothing |
| `Ledger.BankAccount.CalculateAnnualInterest` | Python/PythonOOP.py:155-162 | returns `balance * rate` for a savings account, non-negative when balance and rate are |
| `Ledger.BankAccount.GetAccountInfo` | Python/PythonOOP.py:100-112 | read-only; reports the ids, the balance and `transaction_count = len(log)`; savings accounts (lines 164-172) add `interest_rate` and `annual_interest = balance * rate` |
| `Ledger.QuickDemo` | Python/PythonOOP.py:300-358 | the hard-coded demo session ends with balances 850 and 6365, logs of 2 and 0 entries, and annual interest 302.5 |
| `Ledger.DefaultRateSavings` | Python/PythonOOP.py:131-138 | a savings account created without `interest_rate` gets 3%: a deposit of 1000 leaves 1030 and annual interest 30.9 |
| `Ledger.SmallTransferLeavesDebit` | Python/PythonOOP.py:65-73 | a basic-to-basic transfer of 50 fails, both balances are as before, and the source log has one DEBIT entry |
| `Ledger.SelfTransferEarnsInterest` | Python/PythonOOP.py:276-285 | a savings account at 5000 (5%) transferring 1000 to itself succeeds and ends at 5050 with one log entry |
| `Text.StripShape` | Python/PythonScripts.py:358 | `strip()` removes only whitespace, only from the two ends, and leaves none there |
| `Text.ParseIntToString` | Python/PythonScripts.py:350-351 | `int(str(n)) == n` for every integer |
| `Text.IntToStringInjective` | Python/PythonScripts.py:351 | distinct ids get distinct decimal spellings |
| `Text.EmptyContainsOnlyEmpty` | Python/PythonScripts.py:460 | `q in ''` holds only for the empty `q` |
| `Text.StrLtTotal` | Python/PythonScripts.py:493 | any two names are equal or ordered one way by Python's string `<` |
| `Text.StrLtTransitive` | Python/PythonScripts.py:493 | Python's string `<` is transitive |
| `Text.StrLtIrreflexive` | Python/PythonScripts.py:493 | no name is smaller than itself |
| `Text.StrLeTransitive` | Python/PythonScripts.py:493 | "not greater than" on names is transitive |
| `Seqs.FilterMembership` | Python/PythonScripts.py:419 | a list comprehension keeps exactly the elements satisfying its condition |
| `Seqs.FilterConcat` | Python/PythonScripts.py:419 | a list comprehension keeps the original order |
| `Seqs.FilterSplit` | Python/PythonScripts.py:418-420 | kept and dropped elements add up to the whole list |
| `Seqs.FilterEmpty` | Python/PythonScripts.py:408 | the comprehension is empty iff no element satisfies its condition |
| `Seqs.FilterKeepsAll` | Python/PythonScripts.py:419 | when every element passes, the list is unchanged |
| `Validators.MatchesToEndStripped` | Python/PythonScripts.py:357-359 | on stripped input the trailing-newline case of `$` never matters |
| `Validators.ValidNameChars` | Python/PythonScripts.py:274-275 | a name is valid iff it is non-empty letters, whitespace, `'` and `-` (the digit test is implied) |
| `Validators.CityStateIsName` | Python/PythonScripts.py:277-278 | every valid city/state is also a valid name |
| `Validators.GenderLetters` | Python/PythonScripts.py:280-281 | gender is valid iff it is one of `m`, `M`, `f`, `F` |
| `Validators.AccountTypeExamples` | Python/PythonScripts.py:283-284 | `Savings`, `FIXED DEPOSIT` and `current` are accepted; `Fixed` alone is not |
| `Validators.AccountTypeIgnoresCase` | Python/PythonScripts.py:283-284 | the account-type test gives the same answer for a string and its lower-case form |
| `Validators.DateOfBirthCutoff` | Python/PythonScripts.py:286-310 | a birth date is accepted iff it is a calendar date (Gregorian Februaries) on or before 2006-10-11, i.e. age on 2025-10-11 above 18 |
| `Validators.ExactlyEighteenRejected` | Python/PythonScripts.py:295-308 | someone exactly 18 on 2025-10-11 is rejected |
| `Validators.LeapDay` | Python/PythonScripts.py:302-305 | 29 February is a valid day iff the year is a leap year |
| `Validators.PhoneNumberStripped` | Python/PythonScripts.py:312-313 | a stripped phone number is valid iff it is exactly 10 digits |
| `Validators.PhoneNumberTrailingNewline` | Python/PythonScripts.py:313 | the pattern also accepts ten digits followed by one newline |
| `Validators.BranchCodeStripped` | Python/PythonScripts.py:318-319 | a stripped branch code is valid iff it is `BR` followed by three digits |
| `Validators.LastIndexOf` | Python/PythonScripts.py:316 | the position returned holds the character and none after it does |
| `Validators.SplitIsLastDot` | Python/PythonScripts.py:315-316 | a dot at which the domain splits validly is its last dot, since only word characters follow it |
| `Validators.DomainAtLastDot` | Python/PythonScripts.py:315-316 | the domain part `[\w.-]+\.\w+` matches iff its last dot has a character before it, word characters after it, and only `[\w.-]` before it |
| `Validators.EmailAccepted` | Python/PythonScripts.py:315-316 | `user@example.com` is accepted |
| `Validators.EmailRejected` | Python/PythonScripts.py:315-316 | `user@example` is rejected: the domain needs a dot followed by word characters |
| `Validators.EmailSingleAt` | Python/PythonScripts.py:315-316 | an accepted e-mail has exactly one `@`, not at the start |
| `Validators.UnvalidatedFieldAcceptsAll` | Python/PythonScripts.py:356 | a field without a validator accepts any value |
| `Customers.ParseIds` | Python/PythonScripts.py:350 | succeeds iff every id parses with `int()`, and then yields each row's id in order |
| `Customers.Max` | Python/PythonScripts.py:350 | `max` returns an element of the list that no element exceeds |
| `Customers.NextIdFresh` | Python/PythonScripts.py:345-354 | the generated id `str(max + 1)` differs from every id in the store |
| `Customers.AddedIdUnique` | Python/PythonScripts.py:345-366 | after the append exactly one row carries the new id |
| `Customers.CustomerStore.constructor` | Python/PythonScripts.py:516 | the store holds exactly the rows it is given |
| `Customers.CustomerStore.Add` | Python/PythonScripts.py:259-366 | an empty store or an id that `int()` rejects adds nothing; otherwise exactly one row is appended, earlier rows unchanged, with the header's fields, the entered values and `customer_id = str(max + 1)` |
| `Customers.CustomerStore.Remove` | Python/PythonScripts.py:394-420 | unknown id, or an id some transaction refers to: nothing changes; otherwise every row with the id is dropped, the others stay in order, and `before - after` is reported |
| `Customers.WithoutMembership` | Python/PythonScripts.py:419 | removal keeps exactly the rows with another id |
| `Customers.WithoutConcat` | Python/PythonScripts.py:419 | removal keeps the remaining rows in their original order |
| `Customers.RemovedCount` | Python/PythonScripts.py:418-420 | the reported count equals the number of rows with the id, at least one when the id exists |
| `Customers.WithoutIdempotent` | Python/PythonScripts.py:419 | removing the same id again changes nothing |
| `Customers.Search` | Python/PythonScripts.py:427-470 | no rows, an empty query and a choice outside `1`-`5` are rejected in that order; otherwise the matches are the rows whose field contains the query ignoring case, the first 10 are shown and the rest counted |
| `Customers.SearchMatchesExactly` | Python/PythonScripts.py:460 | a row matches iff its chosen field contains the query, ignoring case |
| `Customers.SearchMatchesConcat` | Python/PythonScripts.py:460 | matches keep the order of the store |
| `Customers.MissingFieldNeverMatches` | Python/PythonScripts.py:460 | a row lacking the field never matches a non-empty query |
| `Customers.FilterCustomers` | Python/PythonScripts.py:476-497 | an empty list or an invalid choice returns the input unchanged; otherwise the result is a permutation of the rows whose city (1) or account type (2) equals the value ignoring case, sorted by name, and stable |
| `Customers.FilterMatchesExactly` | Python/PythonScripts.py:483-488 | a row is kept iff its field equals the value ignoring case |
| `Sorting.InsertByPermutes` | Python/PythonScripts.py:493 | inserting a row into the sorted list adds exactly that row |
| `Sorting.InsertBySorted` | Python/PythonScripts.py:493 | inserting into a key-sorted list keeps it sorted |
| `Sorting.InsertByStable` | Python/PythonScripts.py:493 | the inserted row goes after every earlier row with the same key |
| `Sorting.SortByPermutes` | Python/PythonScripts.py:493 | `sorted(..., key=...)` returns the same rows with the same multiplicities |
| `Sorting.SortBySorted` | Python/PythonScripts.py:493 | `sorted(..., key=...)` is ordered by key under Python string comparison |
| `Sorting.SortByStable` | Python/PythonScripts.py:493 | rows with equal keys keep their original relative order |
| `Sorting.SortByCorrect` | Python/PythonScripts.py:493 | the three together: a stable permutation ordered by key |
| `Customers.BranchTotals` | Python/PythonScripts.py:188-193 | one total per branch present, each the sum of that branch's balances |
| `Customers.BranchesStep` | Python/PythonScripts.py:190-193 | one more row adds exactly its branch to the set of branches seen |
| `Customers.BranchSumStep` | Python/PythonScripts.py:190-193 | one more row adds its balance to its own branch's total and nothing to any other |
| `Customers.BranchSumAbsent` | Python/PythonScripts.py:193 | a branch no row names totals zero, the `get(branch, 0)` default |

## Left out

- CSV reading and writing (`read_csv`, `load_customers_from_csv`, `save_to_csv`, the append and header write of `add_customer`). The store starts from the rows given to its constructor. `save_to_csv` reads its header from `customers[0]`, so it would crash after the last customer is removed; that is not modelled.
- The interactive menus, `input()`, `print` and the re-prompt loop of `add_customer`. `CustomerStore.Add` takes the answers that loop accepted, and its precondition says each one passes its field's validator.
- The main menu's `customers = filter_customers(customers)`, which replaces the whole list with the filtered one. `FilterCustomers` returns the list and leaves the store alone.
- The demo printouts of `list_operations`, `tuple_operations`, `set_operations`, `data_type_conversions` and the non-aggregation parts of `dictionary_operations`. They only print.
- `print_transaction_history`: it only prints.
- Floating point. Amounts, rates and balances are exact reals. So the transfer rollback `balance - a + a` restores the balance exactly, which IEEE doubles need not do.
- Wall-clock timestamps: the `date` of a log entry is the `now` argument.
- `strptime` and `float()` parsing are the function parameters `Parsers.parseDate` and `Parsers.parseFloat`. Dates are taken as `(year, month, day)` integers.
- `Customers.BranchTotals`: `parseFloat` is total, so a balance that `float()` would reject (a ValueError crash in the source) is not modelled.
- `Customers.BranchTotals`: requires every row to have `branch_code` and `account_balance`. The source raises KeyError at PythonScripts.py:191-192 on a row without them.
- `Customers.Search`: returns `Found` even when a displayed match (one of the first 10) lacks one of `customer_id`, `name`, `city`, `account_type`, `account_balance`. The source's display loop (PythonScripts.py:465-466) raises KeyError there. The outcome says which rows would be shown, not that showing them succeeds.
- `Text.ParseInt`: does not accept the underscore digit separators `int()` allows.
- Unicode: `\d`, `\w`, `\s`, `isdigit`, `isspace` and `lower()` are their ASCII parts. Whitespace includes `\x1c`-`\x1f`, as Python's does.
- `Customers.CustomerStore.Remove`: requires every customer and every transaction row to have `customer_id`. The source's `any(...)` stops at the first match, so a row lacking the key after that match would not crash it. Rows read by `csv.DictReader` from one file all share the header.
- `Customers.CustomerStore.Add`: requires every row to have `customer_id` when the first row has it. Otherwise `int(c['customer_id'])` raises KeyError.
- `Customers.FilterCustomers`: requires the filtered field on every row and `name` on every match, where the source otherwise raises KeyError. It returns the sorted list even when one of the first 10 results lacks a display key (`customer_id`, `name`, `city`, `account_type`, `account_balance`). The source's display loop (PythonScripts.py:495-496) raises KeyError there, before the `return` at line 497.
- The Selenium end-to-end test suite and its data loaders: browser automation with no behaviour that can be stated without the web application.
