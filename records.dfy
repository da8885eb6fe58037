/**
 * The values the operations hand back to their callers: the serialised
 * `Account` and `Transaction` structs of lib.rs, and the error kinds behind
 * the error strings.
 */
module Records {
  import opened Wrappers

  /** An account as returned to the UI; `exchangeRate` is derived, never stored. */
  datatype Account = Account(
    id: int,
    name: string,
    balance: real,
    currency: Option<string>,
    exchangeRate: real)

  /** A transaction as returned to the UI (it carries no link field). */
  datatype Transaction = Transaction(
    id: int,
    accountId: int,
    date: string,
    payee: string,
    notes: Option<string>,
    category: Option<string>,
    amount: real,
    ticker: Option<string>,
    shares: Option<real>,
    pricePerShare: Option<real>,
    fee: Option<real>,
    currency: Option<string>)

  /** The causes of the error strings the ledger operations return. */
  datatype LedgerError =
    | EmptyName       // "Account name cannot be empty or whitespace-only"
    | DuplicateName   // "Account name already exists"
    | NotFound        // the SELECT of the row by id returned no row
    | UnknownAccount  // the foreign key from transactions.account_id to accounts.id fails
}
