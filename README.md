# HoneyBear-Folio ledger core, modelled in Dafny

HoneyBear-Folio is a personal-finance desktop application. Its Rust back end
(`app/src-tauri/src/lib.rs`) keeps accounts and transactions in SQLite. This
project models the part of that back end which holds the invariants:

- **Account manager** (`create_account_db`, `rename_account_db`,
  `update_account_db`, `delete_account_db`). Names are trimmed, must be
  non-empty, and must be unique ignoring ASCII case. A non-zero opening
  balance is booked as an "Opening Balance" transaction.
- **Transaction engine** (`create_transaction_db`,
  `create_investment_transaction_db`, `update_transaction_db`,
  `update_investment_transaction_db`, `delete_transaction_db`):
  - a payee that names another account turns a transaction into a transfer,
    with a mirrored, linked leg on that account;
  - updates move amounts between balances and keep the other leg in step;
  - deletes take the other leg with them.
- **Currency resolver and balance aggregator** (`calculate_account_balances`
  with its `compute_rate` closure).
- **Rule ordering** (`update_rules_order_db` and the listing order of
  `get_rules_db`).

The database is the class `Ledger.Store`. It has two fields, `accounts` and
`txs`, which map row ids to rows. Each `*_db` operation is one method on
the store: one SQLite transaction, all or nothing. The store invariant
`Store.Valid` says four things, and every operation preserves it:

- every transaction belongs to an existing account;
- every account balance equals the sum of its transactions' amounts;
- every transfer link is symmetric;
- account names are valid.

The methods state their whole new state. They do this through the functions
`Credit`, `LinkPair`, `MirrorRow` and `Moved`, and through the predicates
`Recorded` and `Revised`. The lemmas in `Rows`, `Links` and `Ledger` prove
what those states mean.

Modules and files:

- `wrappers.dfy`: `Option` and `Result`.
- `text.dfy`: Rust's `str::trim` and SQLite's `LOWER`.
- `records.dfy`: the `Account` and `Transaction` structs that the commands
  return, and the error cases.
- `rows.dfy`: stored rows, and the per-account sum of amounts.
- `links.dfy`: link symmetry and the notes-based fallback lookup.
- `investments.dfy`: the buy/sell arithmetic.
- `ledger.dfy`: the store.
- `rates.dfy`: the rate resolution and the aggregator.
- `rules.dfy`: the rules table.
- `scenarios.dfy`: sequences of operations from the repository's tests.

Rules for choices the SQL leaves open:

- SQLite gives a new row the rowid one above the largest in use
  (`IsNextRowId`).
- A `LIMIT 1` query without `ORDER BY` may return any matching row
  (`Choose`), so every property is proved for every choice.
- The bundled SQLite enforces foreign keys. A transaction on an unknown
  account is therefore an error (`UnknownAccount`), as
  `tests/transactions/create_transaction.rs:161-184` expects.

## Model

| member | source | states |
|---|---|---|
| Text.TrimStart | app/src-tauri/src/lib.rs:405 | the result is a suffix of the input; everything dropped is whitespace; the result does not start with whitespace |
| Text.TrimEnd | app/src-tauri/src/lib.rs:405 | the result is a prefix of the input; everything dropped is whitespace; the result does not end with whitespace |
| Text.TrimIsTrimmedInfix | app/src-tauri/src/lib.rs:405 | a trimmed name has no whitespace at either end and is a contiguous piece of the input |
| Text.TrimIdempotent | app/src-tauri/src/lib.rs:405 | trimming twice is the same as trimming once |
| Text.TrimmedIsFixpoint | app/src-tauri/src/lib.rs:479 | a name with no whitespace at either end is left unchanged by trim |
| Text.TrimEmptyIffAllWhitespace | app/src-tauri/src/lib.rs:405-408 | a name is rejected as empty exactly when every character in it is whitespace |
| Text.SameIgnoringCaseFacts | app/src-tauri/src/lib.rs:413 | names equal under `LOWER` have the same length, and a name is equal under `LOWER` to its own lower-case form |
| Investments.TradeAmount | app/src-tauri/src/lib.rs:1132-1141 | the cash amount plus the signed shares times the price equals minus the fee: a buy pays price and fee, a sale receives price less fee |
| Investments.SignedShares | app/src-tauri/src/lib.rs:1143 | the stored share count is the given count, positive for a buy and negative for a sale |
| Investments.TradePayee | app/src-tauri/src/lib.rs:1150 | the payee is "Buy" exactly for a buy and "Sell" otherwise |
| Investments.TradeNotes | app/src-tauri/src/lib.rs:1151 | the generated notes are the verb ("Bought" or "Sold"), a space, the share text, " shares of " and the ticker, each piece readable back at its position |
| Investments.BuyNeverAddsCash | app/src-tauri/src/lib.rs:1132-1141 | with a non-negative price and fee, a buy never adds cash and never adds more than the matching sale |
| Investments.RoundTripCostsTwoFees | app/src-tauri/src/lib.rs:1132-1143 | buying and selling the same shares at the same price costs exactly two fees and leaves no shares |
| Rows.SumOverRemove | app/src-tauri/src/tests/property/property_invariants.rs:124-160 | an account's total over a set of rows splits into one row's contribution plus the total over the rest |
| Rows.SumOverRestrict | app/src-tauri/src/lib.rs:598-617 | dropping rows that contribute nothing to an account leaves its total unchanged |
| Rows.SumInsert | app/src-tauri/src/lib.rs:936-947 | inserting a row adds exactly its amount to its own account's total and nothing to any other account |
| Rows.SumDelete | app/src-tauri/src/lib.rs:1536-1544 | deleting a row subtracts exactly its amount from its own account's total |
| Rows.SumReplace | app/src-tauri/src/lib.rs:1235-1262 | rewriting a row moves its old amount off its old account and its new amount onto its new account |
| Rows.SumOfNoRows | app/src-tauri/src/lib.rs:432-440 | an account with no rows totals zero, so a zero opening balance needs no opening row |
| Links.DeletingNewPairRestores | app/src-tauri/src/tests/transactions/delete_transaction.rs:33-105 | deleting both legs of a newly inserted linked pair gives back exactly the earlier rows |
| Links.LinkingUnlinkedKeepsSymmetric | app/src-tauri/src/lib.rs:966-976 | linking two distinct rows that have no link keeps every link symmetric |
| Links.InsertingUnlinkedKeepsSymmetric | app/src-tauri/src/lib.rs:936-939 | inserting a row without a link under a fresh id keeps every link symmetric |
| Links.RewritingKeepsSymmetric | app/src-tauri/src/lib.rs:1235-1238 | rewriting a row without touching its link keeps every link symmetric |
| Links.NotesMatchesIgnoresSelf | app/src-tauri/src/lib.rs:1280 | the fallback lookup never returns the row it runs for, whether that row was rewritten or deleted first |
| Links.NotesMatchKeepsSymmetric | app/src-tauri/src/lib.rs:1275-1299 | linking an unlinked row to a fallback match that has no link keeps every link symmetric |
| Links.RemovingUnlinkedKeepsSymmetric | app/src-tauri/src/lib.rs:1536-1538 | deleting a row with no link keeps every link symmetric |
| Links.RemovingPairKeepsSymmetric | app/src-tauri/src/lib.rs:1546-1565 | deleting both legs of a linked pair keeps every other link symmetric |
| Links.DeleteAccountRowsKeepSymmetric | app/src-tauri/src/lib.rs:598-617 | deleting an account's rows after unlinking their counterparts leaves every remaining link symmetric |
| Links.UpdateFallbackCanStealLinkedRow | app/src-tauri/src/lib.rs:1275-1299 | as written, the update fallback can pick a row that is already half of another pair, and linking to it breaks symmetry |
| Links.DeleteFallbackCanOrphanPair | app/src-tauri/src/lib.rs:1567-1585 | as written, the delete fallback can delete one leg of an unrelated pair, leaving the other leg linked to nothing |
| Links.DeleteAccountLeavesDanglingLink | app/src-tauri/src/lib.rs:598-617 | as written, deleting an account leaves rows on other accounts linked to rows that no longer exist |
| Ledger.LargestKeyExists | app/src-tauri/src/lib.rs:437 | every non-empty set of rowids has a largest element |
| Ledger.NextRowId | app/src-tauri/src/lib.rs:437 | the new rowid is above every id in use, and it is one more than the largest id (1 in an empty table) |
| Ledger.ConsecutiveRowIds | app/src-tauri/src/lib.rs:941-966 | two rows inserted one after the other get consecutive ids, and the first id was free |
| Ledger.Choose | app/src-tauri/src/lib.rs:1280 | a `LIMIT 1` query returns one of the matching rows |
| Ledger.CreditKeepsNames | app/src-tauri/src/lib.rs:943-947 | a balance update leaves every account name as it was |
| Ledger.NamedKeepsNamesValid | app/src-tauri/src/lib.rs:405-431 | an account given a trimmed, non-empty name that no other account has ignoring case keeps all names valid |
| Ledger.RemovingKeepsNamesValid | app/src-tauri/src/lib.rs:610-611 | removing an account keeps the remaining names valid |
| Ledger.ClashesAtMostOne | app/src-tauri/src/lib.rs:411-422 | with valid names, at most one account matches the duplicate-name query |
| Ledger.TransferTargetsAtMostOne | app/src-tauri/src/lib.rs:921-928 | with valid names, a payee names at most one other account, so the transfer target is unique |
| Ledger.Store.constructor | app/src-tauri/src/lib.rs:129-391 | a fresh database has both tables empty, and the store invariant holds |
| Ledger.Store.AddToBalance | app/src-tauri/src/lib.rs:943-947 | `balance = balance + x` on an existing account and on no other; an unknown id changes nothing |
| Ledger.Store.InsertRow | app/src-tauri/src/lib.rs:936-941 | the row gets the next rowid, and every account total grows by exactly the row's contribution |
| Ledger.Store.RemoveRow | app/src-tauri/src/lib.rs:1536-1538 | the row is gone, and every account total shrinks by exactly its contribution |
| Ledger.Store.RewriteRow | app/src-tauri/src/lib.rs:1235-1238 | the row is replaced, and each account total moves by the difference |
| Ledger.Store.CheckName | app/src-tauri/src/lib.rs:405-422 | the result is EmptyName exactly when the name trims to empty, and DuplicateName exactly when some other account has the trimmed name ignoring case; otherwise it is the trimmed name |
| Ledger.Store.CreateAccount | app/src-tauri/src/lib.rs:396-465 | each error happens exactly when its condition holds and leaves the store unchanged. On success: the account gets the next id with the trimmed name, the balance and exchange rate 1; an "Opening Balance"/"Income" row is booked exactly when the balance is non-zero; the store invariant holds |
| Ledger.Store.AddAccount | app/src-tauri/src/lib.rs:424-454 | the two `INSERT`s keep the store invariant: the new account's balance equals its single opening row, or zero with no row |
| Ledger.Store.RenameAccount | app/src-tauri/src/lib.rs:478-525 | EmptyName, then DuplicateName (excluding the account's own id), then NotFound, each exactly when its condition holds; on success only the name changes, to its trimmed form |
| Ledger.Store.SetAccount | app/src-tauri/src/lib.rs:502-506 | writing a checked name keeps the store invariant |
| Ledger.Store.UpdateAccount | app/src-tauri/src/lib.rs:533-585 | the same error cases as renaming; on success only the name (trimmed) and the currency change |
| Ledger.Store.DeleteAccount | app/src-tauri/src/lib.rs:598-617 | the account and exactly the rows on it are gone; every other balance is unchanged; links into the deleted rows are cleared; the store invariant holds |
| Ledger.Store.LinkRows | app/src-tauri/src/lib.rs:966-976 | the two rows point at each other, and no account total changes |
| Ledger.Store.ReconcileBalances | app/src-tauri/src/lib.rs:1240-1262 | the old amount leaves the old account and the new amount lands on the new one; no other balance changes and no name changes |
| Ledger.Store.CreateTransaction | app/src-tauri/src/lib.rs:912-1002 | it fails (UnknownAccount, store unchanged) exactly when the account is missing. Otherwise the result is `Recorded`: a transfer exactly when the payee is the name of another account; the category is forced to "Transfer"; the mirror leg has the source account's name as payee, the negated amount, and a link both ways; the two balances move by +amount and -amount; otherwise one row and one balance change |
| Ledger.Store.RecordTransaction | app/src-tauri/src/lib.rs:921-983 | the body of creation on an existing account establishes `Recorded` and keeps the store invariant |
| Ledger.Store.PostRow | app/src-tauri/src/lib.rs:936-947 | an unlinked row under the next rowid, with its amount added to its account; the store invariant holds |
| Ledger.Store.PostTransfer | app/src-tauri/src/lib.rs:936-983 | both legs under consecutive rowids, linked to each other; the source balance moves by +amount and the target by -amount |
| Ledger.Store.PostMirror | app/src-tauri/src/lib.rs:958-983 | the mirror leg is inserted, linked both ways with the first leg, and booked on the target account |
| Ledger.Store.CreateInvestmentTransaction | app/src-tauri/src/lib.rs:1113-1195 | UnknownAccount exactly when the account is missing. Otherwise one "Investment" row with payee Buy/Sell, generated notes, the trade amount and the signed shares, and that amount added to the account |
| Ledger.Store.Repost | app/src-tauri/src/lib.rs:1235-1262 | the rewritten row's contribution moves between balances (the same-account and move cases); only balances change in the accounts table |
| Ledger.Store.UpdateTransaction | app/src-tauri/src/lib.rs:1206-1358 | NotFound exactly when the id is missing and UnknownAccount exactly when the new account is missing, both with the store unchanged. Otherwise `Revised`: the counterpart is the linked row, else an unlinked "Transfer" row with the new notes, which then gets linked both ways. The counterpart gets the new date, notes and currency, the negated amount and the new account's name as payee. Each balance moves by exactly what the two rewrites move. The returned transaction is the arguments with no trade fields |
| Ledger.Store.ReviseTransaction | app/src-tauri/src/lib.rs:1235-1339 | the body of the update on an existing row and account establishes `Revised` and keeps the store invariant |
| Ledger.Store.SyncCounterpart | app/src-tauri/src/lib.rs:1265-1339 | the counterpart lookup (link, else notes fallback among unlinked rows) and its rewrite; with no counterpart nothing changes |
| Ledger.Store.UpdateInvestmentTransaction | app/src-tauri/src/lib.rs:1384-1511 | the same error cases as the transaction update. Otherwise the row becomes the recomputed trade (notes kept when given, generated otherwise), and the amount moves between balances by the same-account/move rule |
| Ledger.Store.Unpost | app/src-tauri/src/lib.rs:1536-1544 | a row is deleted and its amount subtracted from its account; the bookkeeping invariant holds |
| Ledger.Store.DeleteTransaction | app/src-tauri/src/lib.rs:1522-1591 | NotFound exactly when the id is missing. Otherwise the row goes, plus its partner: the linked row if it exists, else an unlinked "Transfer" row with equal notes. Each balance drops by exactly the deleted rows' amounts; the store invariant holds |
| Rates.RateToUsd | app/src-tauri/src/lib.rs:738-746 | (definition) USD is 1; otherwise the custom rate, else the live `CURUSD=X` quote, else 1 |
| Rates.ComputeRate | app/src-tauri/src/lib.rs:720-755 | (definition) equal currencies give 1; a positive direct quote wins; otherwise the USD pivot, and a zero divisor gives 1 |
| Rates.DirectQuoteWins | app/src-tauri/src/lib.rs:729-735 | a positive direct quote is returned as is, and custom rates cannot change it |
| Rates.CustomOverridesLive | app/src-tauri/src/lib.rs:738-746 | a custom rate for a non-USD currency is its USD rate whatever the live quote is |
| Rates.PivotRoundTrip | app/src-tauri/src/lib.rs:748-754 | without direct quotes and with non-zero USD rates, converting there and back multiplies to 1 |
| Rates.PivotChain | app/src-tauri/src/lib.rs:748-754 | pivoted rates compose: a to b times b to c equals a to c |
| Rates.RateIntoUsd | app/src-tauri/src/lib.rs:720-755 | converting into USD gives the currency's USD rate, unless a custom rate is shadowed by a direct quote |
| Rates.ZeroDivisorGivesOne | app/src-tauri/src/lib.rs:751-753 | a zero USD rate for the destination yields 1 |
| Rates.ConvertedTotalSnoc | app/src-tauri/src/lib.rs:757-766 | an account's converted total over rows with one more row appended grows by that row's converted amount when it is the account's row, and otherwise stays the same |
| Rates.SumsAreConvertedTotals | app/src-tauri/src/lib.rs:757-766 | an account has a sum exactly when it has rows, and the sum is the total of its rows converted into its own currency (or the target currency) |
| Rates.HasRowsSnoc | app/src-tauri/src/lib.rs:758 | appending a row adds its account to the accounts that have rows |
| Rates.NoRowsNoTotal | app/src-tauri/src/lib.rs:768-771 | an account without rows has a converted total of zero |
| Rates.SameCurrencyTotal | app/src-tauri/src/lib.rs:759-764 | when all of an account's rows are in the account's currency, the converted total is the plain sum |
| Rates.CurrencyMapOfDistinct | app/src-tauri/src/lib.rs:712-717 | with distinct account ids, an account's entry in the currency map is its own currency, and it has no entry when it has no currency |
| Rates.CurrencyMapOmits | app/src-tauri/src/lib.rs:712-717 | an id that no account has is not in the currency map |
| Rates.BuildCurrencyMap | app/src-tauri/src/lib.rs:712-717 | the loop builds exactly the currency map of the accounts |
| Rates.AccumulateSums | app/src-tauri/src/lib.rs:757-766 | the loop builds exactly the per-account sums of converted amounts |
| Rates.CalculateAccountBalances | app/src-tauri/src/lib.rs:705-781 | the same number of accounts, in the same order, each settled: its balance is its converted sum if it has rows, else unchanged; its exchange rate is the rate into the target currency, or 1 without a currency |
| Rates.SettledBalance | app/src-tauri/src/lib.rs:768-779 | with distinct ids, each settled account's balance is the total of its own rows converted into its currency when it has rows, and otherwise its stored balance; its rate is the rate of its currency into the target |
| Rates.CustomRateExample | app/src-tauri/src/tests/multicurrency/custom_rates_tests.rs:5-36 | a 100 EUR account with a custom EUR rate of 1.1 keeps 100 and gets exchange rate 1.1 |
| Rates.CrossRateExample | app/src-tauri/src/tests/multicurrency/custom_rates_tests.rs:39-78 | the cross rate pivoted through USD gives 80 and exchange rate 1.5 |
| Rates.DirectQuoteExample | app/src-tauri/src/tests/multicurrency/custom_rates_tests.rs:80-115 | a direct quote is preferred over the pivot: 90 |
| Rates.LiveQuotePivotExample | app/src-tauri/src/tests/multicurrency/custom_rates_tests.rs:117-149 | without a direct quote, the live USD quotes are pivoted: 80 |
| Rules.ListingIsUnique | app/src-tauri/src/lib.rs:1603 | two sequences in `priority DESC, id ASC` order with the same elements are equal: the listing is determined by the rules |
| Rules.HeadsAgree | app/src-tauri/src/lib.rs:1603 | two listings of the same rules start with the same rule |
| Rules.TailMembers | app/src-tauri/src/lib.rs:1603 | the tail of a listing holds exactly its elements other than the head |
| Rules.ReprioritisedFacts | app/src-tauri/src/lib.rs:1729-1747 | reordering keeps the same rules and fields; the id at position i gets priority n - i, and unlisted rules keep their priority |
| Rules.ReorderThenList | app/src-tauri/src/tests/rules/order_rules.rs:38-61 | after reordering with every rule's id exactly once, the listing returns exactly the given order |
| Rules.RuleStore.constructor | app/src-tauri/src/lib.rs:1729-1747 | a rules table holding the given rules |
| Rules.RuleStore.UpdateRulesOrder | app/src-tauri/src/lib.rs:1729-1747 | the loop gives the id at position i priority n - i (ids naming no rule change nothing) |
| Rules.ReorderThreeRules | app/src-tauri/src/tests/rules/order_rules.rs:38-61 | reordering three rules as 2, 3, 1 lists them as 2, 3, 1 with priorities 3, 2, 1 |
| Scenarios.AccountNamesOfExample | app/src-tauri/src/tests/transactions/transfer.rs:6-9 | the example names are already trimmed and differ even ignoring case |
| Scenarios.OpenTwoAccounts | app/src-tauri/src/tests/transactions/transfer.rs:4-9 | opening "Acc1" with 100 and "Acc2" with 0 gives two distinct accounts with those balances and no currency |
| Scenarios.TransferBetweenNewAccounts | app/src-tauri/src/tests/transactions/transfer.rs:4-35 | a transaction of -50 on "Acc1" with payee "Acc2" leaves 50 on each account |
| Scenarios.RecordTransfer | app/src-tauri/src/lib.rs:912-1002 | a transfer to another account gives two linked legs under fresh consecutive ids, and each balance moves by its own leg |
| Scenarios.TransferThenDelete | app/src-tauri/src/tests/transactions/delete_transaction.rs:33-105 | recording a transfer and then deleting either leg leaves both tables exactly as they were |

## Left out

- Settings, DB-path discovery, `init_db` schema creation and the
  column-probing migrations (`lib.rs:129-391`): file-system and DDL plumbing.
  The model starts from empty tables (`Store` constructor).
- Yahoo market-data fetching, quote caching, ticker search and daily price
  updates (`lib.rs:1865-2294`): network I/O. Live quotes enter the rate model
  as the `rates` map parameter.
- The async `get_accounts` command (`lib.rs:784-894`) and
  `get_accounts_summary_db`. They are wiring and a SQL `GROUP BY`. This
  includes the step that gives a transaction with no currency the target
  currency. The aggregator takes the per-row raw sums (`RawSum`) as input.
- `get_system_theme`, `run` and the `#[tauri::command]` wrappers: platform
  calls, and delegation to the `*_db` functions.
- IEEE-754 arithmetic. Amounts and rates are exact `real` numbers, while
  every `f64` operation in the code rounds. This covers balance updates
  (`balance + amount`), trade totals (`shares * price_per_share`),
  conversions (`amt * rate`) and pivots (`r_src / r_dst`). For example,
  crediting 0.1 and then 0.2 gives exactly 0.3 in the model and
  0.30000000000000004 in the code. The `diff.abs() > f64::EPSILON` guards
  become `diff != 0`, or are dropped where they only skip adding zero, so a
  non-zero difference below `f64::EPSILON` is applied in the model and
  skipped in the code. The balance invariant therefore holds exactly in the
  model, and only up to accumulated rounding in the code.
- Integer widths: ids and priorities are `int`. The `as i32` truncation of
  `last_insert_rowid()` and of `rule_ids.len()` is not modelled, because it
  matters only once an id exceeds 2^31 - 1. A new rowid is one above the
  largest in use, so that takes more than 2^31 inserts.
- Concurrency: each `*_db` function is one atomic method, as its SQLite
  transaction makes it.
- Database failures (I/O errors, locked files): the model has only the
  errors the logic itself produces.
- `date('now')` in `create_account_db` is the `today` parameter.
- The `{}` formatting of an `f64` share count in the generated notes is the
  `sharesText` parameter of `TradeNotes`.
- The brokerage flow (`create_brokerage_transaction_db`,
  `UpdateBrokerageTransactionArgs`) is not part of this model. The tests
  under `tests/brokerage/` and `tests/property/` call it, but it is not in
  `lib.rs`.
- Read-only projections (`get_transactions_db`, `get_payees_db`,
  `get_categories_db`, `get_all_transactions_db`): plain `SELECT ... ORDER
  BY` with no effect on state.
- `create_rule_db`, `update_rule_db`, `delete_rule_db` and the rule
  application on import: single-row inserts, updates and deletes that do not
  touch the ordering. Of the rules table, only the reordering and the
  listing order are modelled.
- Custom exchange rate storage (`set_custom_exchange_rate` and its getter):
  the rates enter the aggregator as the `custom` map parameter.
- Ledger.Store.UpdateTransaction: models the corrected notes fallback, which
  only picks rows that are not yet linked (see Findings).
  `Links.NotesMatchesAsWritten` keeps the query as written.
- Ledger.Store.ReviseTransaction: establishes `Revised` with the corrected
  notes fallback (unlinked rows only), not the query at
  `lib.rs:1275-1299` as written.
- Ledger.Store.SyncCounterpart: performs the corrected notes fallback
  (unlinked rows only), not the query at `lib.rs:1275-1299` as written.
- Ledger.Store.DeleteTransaction: models the corrected notes fallback, as
  above.
- Ledger.Store.DeleteAccount: clears links that point into the deleted rows,
  which the code as written does not do (see Findings).
- Ledger.Store.UpdateTransaction: a linked counterpart id whose row no
  longer exists is skipped, as the code does. In a valid store this cannot
  happen, so the case is not separately stated.

## Findings

| source | as written | input that shows it | evidently intended | confidence | as-written member | corrected member |
|---|---|---|---|---|---|---|
| app/src-tauri/src/lib.rs:1275-1299 | the notes fallback of `update_transaction_db` picks any "Transfer" row with equal notes, even one already linked to another row, and links it to the updated row | rows 1 and 2 a linked transfer with notes "rent"; row 3 unlinked with notes "rent"; updating row 3 may link 3 and 1, and row 2 then points at a row that points elsewhere | only unlinked rows are candidates, so every link stays symmetric | not executed | Links.UpdateFallbackCanStealLinkedRow | Ledger.Store.UpdateTransaction |
| app/src-tauri/src/lib.rs:1567-1585 | the notes fallback of `delete_transaction_db` deletes any "Transfer" row with equal notes, even one leg of another linked pair | the same rows; deleting row 3 may also delete row 1, leaving row 2 linked to nothing | only unlinked rows are candidates, so no link is left dangling | not executed | Links.DeleteFallbackCanOrphanPair | Ledger.Store.DeleteTransaction |
| app/src-tauri/src/lib.rs:598-617 | `delete_account_db` deletes the account's rows but not the links other rows have to them | the same rows; deleting account 10 removes row 1, and row 2 keeps linking to it | links into the deleted rows are cleared (or the legs removed), so no link dangles | not executed | Links.DeleteAccountLeavesDanglingLink | Ledger.Store.DeleteAccount |
