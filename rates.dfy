/**
 * Currency conversion for the account list: the `compute_rate` closure with its
 * `get_rate_to_usd` helper, and `calculate_account_balances`, which recomputes
 * every account's balance in its own currency from per-currency row totals and
 * sets the account's rate into the display currency.
 *
 * Live quotes arrive as `rates` (keyed by quote symbol, e.g. "EURGBP=X") and
 * user-entered rates as `custom` (keyed by currency, each meaning "1 unit is
 * worth this many US dollars"). Fetching the quotes is not part of this model.
 */
module Rates {
  import opened Wrappers
  import opened Records

  /** The quote symbol for converting `src` straight into `dst`, e.g. "EURGBP=X". */
  function DirectTicker(src: string, dst: string): string
  {
    src + dst + "=X"
  }

  /** The quote symbol for converting `c` into US dollars, e.g. "EURUSD=X". */
  function UsdTicker(c: string): string
  {
    c + "USD=X"
  }

  /** A usable direct quote: present and positive. */
  predicate HasDirect(src: string, dst: string, rates: map<string, real>)
  {
    DirectTicker(src, dst) in rates && rates[DirectTicker(src, dst)] > 0.0
  }

  /** `get_rate_to_usd`: 1 for "USD", else the custom rate, else the live quote, else 1. */
  function RateToUsd(c: string, rates: map<string, real>, custom: map<string, real>): real
  {
    if c == "USD" then 1.0
    else if c in custom then custom[c]
    else if UsdTicker(c) in rates then rates[UsdTicker(c)]
    else 1.0
  }

  /** `compute_rate`: how many units of `dst` one unit of `src` is worth. */
  function ComputeRate(src: string, dst: string, rates: map<string, real>, custom: map<string, real>): real
  {
    if src == dst then 1.0
    else if HasDirect(src, dst, rates) then rates[DirectTicker(src, dst)]
    else
      var toUsdSrc := RateToUsd(src, rates, custom);
      var toUsdDst := RateToUsd(dst, rates, custom);
      if toUsdDst == 0.0 then 1.0 else toUsdSrc / toUsdDst
  }

  // ---- properties of the rate ----

  /** A usable direct quote is taken as it is, whatever custom rates and USD quotes say. */
  lemma DirectQuoteWins(src: string, dst: string, rates: map<string, real>, custom: map<string, real>,
                        custom': map<string, real>)
    requires src != dst && HasDirect(src, dst, rates)
    ensures ComputeRate(src, dst, rates, custom) == rates[DirectTicker(src, dst)] > 0.0
    ensures ComputeRate(src, dst, rates, custom) == ComputeRate(src, dst, rates, custom')
  {
  }

  /** A custom rate overrides a live quote for the same currency. */
  lemma CustomOverridesLive(c: string, rates: map<string, real>, custom: map<string, real>)
    requires c != "USD" && c in custom
    ensures RateToUsd(c, rates, custom) == custom[c]
    ensures RateToUsd(c, rates - {UsdTicker(c)}, custom) == RateToUsd(c, rates, custom)
  {
  }

  /** Without direct quotes, converting there and back again is the identity. */
  lemma PivotRoundTrip(a: string, b: string, rates: map<string, real>, custom: map<string, real>)
    requires a != b && !HasDirect(a, b, rates) && !HasDirect(b, a, rates)
    requires RateToUsd(a, rates, custom) != 0.0 && RateToUsd(b, rates, custom) != 0.0
    ensures ComputeRate(a, b, rates, custom) * ComputeRate(b, a, rates, custom) == 1.0
  {
    var x, y := RateToUsd(a, rates, custom), RateToUsd(b, rates, custom);
    assert (x / y) * (y / x) == 1.0;
  }

  /** Without direct quotes, converting through an intermediate currency gives the same rate. */
  lemma PivotChain(a: string, b: string, c: string, rates: map<string, real>, custom: map<string, real>)
    requires a != b && b != c && a != c
    requires !HasDirect(a, b, rates) && !HasDirect(b, c, rates) && !HasDirect(a, c, rates)
    requires RateToUsd(b, rates, custom) != 0.0 && RateToUsd(c, rates, custom) != 0.0
    ensures ComputeRate(a, b, rates, custom) * ComputeRate(b, c, rates, custom) == ComputeRate(a, c, rates, custom)
  {
    var x, y, z := RateToUsd(a, rates, custom), RateToUsd(b, rates, custom), RateToUsd(c, rates, custom);
    assert (x / y) * (y / z) == x / z;
  }

  /** The direct quote into dollars is the dollar quote itself. */
  lemma DirectToUsdIsUsdQuote(c: string)
    ensures DirectTicker(c, "USD") == UsdTicker(c)
  {
    assert c + "USD" + "=X" == c + ("USD" + "=X");
  }

  /**
   * Into dollars, the rate is the currency's dollar rate: the live quote when it is positive
   * and there is no custom rate, the custom rate when there is no usable live quote.
   */
  lemma RateIntoUsd(c: string, rates: map<string, real>, custom: map<string, real>)
    requires c != "USD"
    requires c !in custom || !HasDirect(c, "USD", rates)
    ensures ComputeRate(c, "USD", rates, custom) == RateToUsd(c, rates, custom)
  {
    DirectToUsdIsUsdQuote(c);
  }

  /** A destination whose dollar rate is zero makes the pivot give 1. */
  lemma ZeroDivisorGivesOne(src: string, dst: string, rates: map<string, real>, custom: map<string, real>)
    requires src != dst && !HasDirect(src, dst, rates) && RateToUsd(dst, rates, custom) == 0.0
    ensures ComputeRate(src, dst, rates, custom) == 1.0
  {
  }

  // ---- calculate_account_balances ----

  /**
   * One row of the per-account, per-currency totals (`raw_data`): the account, the currency
   * its rows are in (already defaulted to the display currency when the row has none), and
   * the sum of their amounts.
   */
  datatype RawSum = RawSum(accountId: int, currency: string, amount: real)

  /** `account_currency_map`: each account id with a currency, mapped to it (a later entry wins). */
  function CurrencyMap(accounts: seq<Account>): map<int, string>
  {
    if accounts == [] then map[]
    else
      var last := accounts[|accounts| - 1];
      var m := CurrencyMap(accounts[..|accounts| - 1]);
      if last.currency.Some? then m[last.id := last.currency.value] else m
  }

  /** The currency the rows of account `id` are converted into: its own, or the display currency. */
  function AccountCurrency(cmap: map<int, string>, id: int, target: string): string
  {
    if id in cmap then cmap[id] else target
  }

  /** What one total is worth in its account's currency: its amount times the rate into that currency. */
  function Converted(r: RawSum, cmap: map<int, string>, target: string,
                     rates: map<string, real>, custom: map<string, real>): real
  {
    r.amount * ComputeRate(r.currency, AccountCurrency(cmap, r.accountId, target), rates, custom)
  }

  /** `sums`: the converted totals accumulated per account, in the order of `raw`. */
  function Sums(raw: seq<RawSum>, cmap: map<int, string>, target: string,
                rates: map<string, real>, custom: map<string, real>): map<int, real>
  {
    if raw == [] then map[]
    else
      var r := raw[|raw| - 1];
      var m := Sums(raw[..|raw| - 1], cmap, target, rates, custom);
      var v := Converted(r, cmap, target, rates, custom);
      if r.accountId in m then m[r.accountId := m[r.accountId] + v] else m[r.accountId := v]
  }

  /** The account as the loop over `accounts` leaves it. */
  function Settle(acc: Account, sums: map<int, real>, target: string,
                  rates: map<string, real>, custom: map<string, real>): Account
  {
    acc.(balance := if acc.id in sums then sums[acc.id] else acc.balance,
         exchangeRate := if acc.currency.Some? then ComputeRate(acc.currency.value, target, rates, custom) else 1.0)
  }

  /** Whether some total in `raw` belongs to account `id`. */
  predicate HasRows(raw: seq<RawSum>, id: int)
  {
    exists i | 0 <= i < |raw| :: raw[i].accountId == id
  }

  /** The converted totals of account `id`, added up. */
  function ConvertedTotal(raw: seq<RawSum>, id: int, cmap: map<int, string>, target: string,
                          rates: map<string, real>, custom: map<string, real>): real
  {
    if raw == [] then 0.0
    else
      (if raw[0].accountId == id then Converted(raw[0], cmap, target, rates, custom) else 0.0)
      + ConvertedTotal(raw[1..], id, cmap, target, rates, custom)
  }

  /** The amounts of account `id`'s totals added up, with no conversion. */
  function PlainTotal(raw: seq<RawSum>, id: int): real
  {
    if raw == [] then 0.0
    else (if raw[0].accountId == id then raw[0].amount else 0.0) + PlainTotal(raw[1..], id)
  }

  /** Adding one more total at the end of `raw` adds its converted value to its own account only. */
  lemma {:induction false} ConvertedTotalSnoc(raw: seq<RawSum>, r: RawSum, id: int, cmap: map<int, string>,
                                             target: string, rates: map<string, real>, custom: map<string, real>)
    ensures ConvertedTotal(raw + [r], id, cmap, target, rates, custom)
         == ConvertedTotal(raw, id, cmap, target, rates, custom)
            + (if r.accountId == id then Converted(r, cmap, target, rates, custom) else 0.0)
    decreases |raw|
  {
    if raw == [] {
      assert [r][1..] == [];
    } else {
      assert (raw + [r])[1..] == raw[1..] + [r];
      ConvertedTotalSnoc(raw[1..], r, id, cmap, target, rates, custom);
    }
  }

  /**
   * `sums` holds exactly the accounts that have totals, and each entry is the sum of that
   * account's totals converted into the account's currency.
   */
  lemma {:induction false} SumsAreConvertedTotals(raw: seq<RawSum>, cmap: map<int, string>, target: string,
                                                 rates: map<string, real>, custom: map<string, real>, id: int)
    ensures id in Sums(raw, cmap, target, rates, custom) <==> HasRows(raw, id)
    ensures id in Sums(raw, cmap, target, rates, custom) ==>
              Sums(raw, cmap, target, rates, custom)[id] == ConvertedTotal(raw, id, cmap, target, rates, custom)
    decreases |raw|
  {
    if raw != [] {
      var init, r := raw[..|raw| - 1], raw[|raw| - 1];
      assert raw == init + [r];
      SumsAreConvertedTotals(init, cmap, target, rates, custom, id);
      ConvertedTotalSnoc(init, r, id, cmap, target, rates, custom);
      HasRowsSnoc(init, r, id);
      if !HasRows(init, id) {
        NoRowsNoTotal(init, id, cmap, target, rates, custom);
      }
    }
  }

  /** The accounts with totals in `raw + [r]` are those of `raw` and that of `r`. */
  lemma HasRowsSnoc(raw: seq<RawSum>, r: RawSum, id: int)
    ensures HasRows(raw + [r], id) <==> HasRows(raw, id) || r.accountId == id
  {
    if HasRows(raw + [r], id) && r.accountId != id {
      var i :| 0 <= i < |raw + [r]| && (raw + [r])[i].accountId == id;
      assert raw[i].accountId == id;
    }
    if HasRows(raw, id) {
      var i :| 0 <= i < |raw| && raw[i].accountId == id;
      assert (raw + [r])[i].accountId == id;
    }
    if r.accountId == id {
      assert (raw + [r])[|raw|].accountId == id;
    }
  }

  /** An account without totals has converted total zero. */
  lemma {:induction false} NoRowsNoTotal(raw: seq<RawSum>, id: int, cmap: map<int, string>, target: string,
                                         rates: map<string, real>, custom: map<string, real>)
    requires !HasRows(raw, id)
    ensures ConvertedTotal(raw, id, cmap, target, rates, custom) == 0.0
    decreases |raw|
  {
    if raw != [] {
      assert raw[0].accountId != id;
      assert !HasRows(raw[1..], id) by {
        forall i | 0 <= i < |raw[1..]| ensures raw[1..][i].accountId != id {
          assert raw[1..][i] == raw[i + 1];
        }
      }
      NoRowsNoTotal(raw[1..], id, cmap, target, rates, custom);
    }
  }

  /** When all of an account's totals are in the currency it is converted into, nothing is converted. */
  lemma {:induction false} SameCurrencyTotal(raw: seq<RawSum>, id: int, cmap: map<int, string>, target: string,
                                             rates: map<string, real>, custom: map<string, real>)
    requires forall i | 0 <= i < |raw| && raw[i].accountId == id :: raw[i].currency == AccountCurrency(cmap, id, target)
    ensures ConvertedTotal(raw, id, cmap, target, rates, custom) == PlainTotal(raw, id)
    decreases |raw|
  {
    if raw != [] {
      forall i | 0 <= i < |raw[1..]| && raw[1..][i].accountId == id
        ensures raw[1..][i].currency == AccountCurrency(cmap, id, target)
      {
        assert raw[1..][i] == raw[i + 1];
      }
      SameCurrencyTotal(raw[1..], id, cmap, target, rates, custom);
    }
  }

  /** Accounts with distinct ids: the currency map gives each account with a currency its own. */
  lemma {:induction false} CurrencyMapOfDistinct(accounts: seq<Account>, i: int)
    requires forall j, k | 0 <= j < k < |accounts| :: accounts[j].id != accounts[k].id
    requires 0 <= i < |accounts|
    ensures accounts[i].currency.Some? ==>
              accounts[i].id in CurrencyMap(accounts) && CurrencyMap(accounts)[accounts[i].id] == accounts[i].currency.value
    ensures accounts[i].currency.None? ==> accounts[i].id !in CurrencyMap(accounts)
    decreases |accounts|
  {
    var n := |accounts| - 1;
    if i < n {
      CurrencyMapOfDistinct(accounts[..n], i);
    } else {
      if accounts[i].currency.None? {
        CurrencyMapOmits(accounts[..n], accounts[i].id);
      }
    }
  }

  /** An id that no account carries is not in the currency map. */
  lemma {:induction false} CurrencyMapOmits(accounts: seq<Account>, id: int)
    requires forall j | 0 <= j < |accounts| :: accounts[j].id != id
    ensures id !in CurrencyMap(accounts)
    decreases |accounts|
  {
    if accounts != [] {
      CurrencyMapOmits(accounts[..|accounts| - 1], id);
    }
  }

  /** The currency map of one more account. */
  lemma CurrencyMapStep(accounts: seq<Account>, i: int)
    requires 0 <= i < |accounts|
    ensures CurrencyMap(accounts[..i + 1]) ==
              if accounts[i].currency.Some? then CurrencyMap(accounts[..i])[accounts[i].id := accounts[i].currency.value]
              else CurrencyMap(accounts[..i])
  {
    assert accounts[..i + 1][..i] == accounts[..i];
  }

  /** The sums after one more total. */
  lemma SumsStep(raw: seq<RawSum>, j: int, cmap: map<int, string>, target: string,
                 rates: map<string, real>, custom: map<string, real>)
    requires 0 <= j < |raw|
    ensures var m := Sums(raw[..j], cmap, target, rates, custom);
            var v := Converted(raw[j], cmap, target, rates, custom);
            Sums(raw[..j + 1], cmap, target, rates, custom) ==
              if raw[j].accountId in m then m[raw[j].accountId := m[raw[j].accountId] + v] else m[raw[j].accountId := v]
  {
    assert raw[..j + 1][..j] == raw[..j] && raw[..j + 1][j] == raw[j];
  }

  /** The first loop of `calculate_account_balances`: builds `account_currency_map`. */
  method BuildCurrencyMap(accounts: seq<Account>) returns (cmap: map<int, string>)
    ensures cmap == CurrencyMap(accounts)
  {
    cmap := map[];
    var i := 0;
    while i < |accounts|
      invariant 0 <= i <= |accounts|
      invariant cmap == CurrencyMap(accounts[..i])
    {
      CurrencyMapStep(accounts, i);
      if accounts[i].currency.Some? {
        cmap := cmap[accounts[i].id := accounts[i].currency.value];
      }
      i := i + 1;
    }
    assert accounts[..i] == accounts;
  }

  /** The second loop of `calculate_account_balances`: accumulates `sums`. */
  method AccumulateSums(raw: seq<RawSum>, cmap: map<int, string>, target: string,
                        rates: map<string, real>, custom: map<string, real>)
    returns (sums: map<int, real>)
    ensures sums == Sums(raw, cmap, target, rates, custom)
  {
    sums := map[];
    var j := 0;
    while j < |raw|
      invariant 0 <= j <= |raw|
      invariant sums == Sums(raw[..j], cmap, target, rates, custom)
    {
      SumsStep(raw, j, cmap, target, rates, custom);
      var r := raw[j];
      var v := Converted(r, cmap, target, rates, custom);
      if r.accountId in sums {
        sums := sums[r.accountId := sums[r.accountId] + v];
      } else {
        sums := sums[r.accountId := v];
      }
      j := j + 1;
    }
    assert raw[..j] == raw;
  }

  /**
   * `calculate_account_balances`: gives every account that has totals the sum of them converted
   * into its currency, and sets every account's rate into the display currency `target`.
   */
  method CalculateAccountBalances(accounts: seq<Account>, raw: seq<RawSum>, target: string,
                                  rates: map<string, real>, custom: map<string, real>)
    returns (out: seq<Account>)
    ensures |out| == |accounts|
    ensures forall i | 0 <= i < |out| ::
              out[i] == Settle(accounts[i], Sums(raw, CurrencyMap(accounts), target, rates, custom), target, rates, custom)
  {
    var cmap := BuildCurrencyMap(accounts);
    var sums := AccumulateSums(raw, cmap, target, rates, custom);
    out := accounts;
    var k := 0;
    while k < |out|
      invariant 0 <= k <= |out| == |accounts|
      invariant forall m | 0 <= m < k :: out[m] == Settle(accounts[m], sums, target, rates, custom)
      invariant forall m | k <= m < |out| :: out[m] == accounts[m]
    {
      var acc := out[k];
      if acc.id in sums {
        acc := acc.(balance := sums[acc.id]);
      }
      if acc.currency.Some? {
        acc := acc.(exchangeRate := ComputeRate(acc.currency.value, target, rates, custom));
      } else {
        acc := acc.(exchangeRate := 1.0);
      }
      out := out[k := acc];
      k := k + 1;
    }
  }

  /**
   * With distinct account ids, an account's new balance is the total of its rows converted into
   * its own currency (the display currency when it has none), and the old balance when it has none.
   */
  lemma SettledBalance(accounts: seq<Account>, raw: seq<RawSum>, target: string,
                       rates: map<string, real>, custom: map<string, real>, i: int)
    requires forall j, k | 0 <= j < k < |accounts| :: accounts[j].id != accounts[k].id
    requires 0 <= i < |accounts|
    ensures var cmap := CurrencyMap(accounts);
            var acc := Settle(accounts[i], Sums(raw, cmap, target, rates, custom), target, rates, custom);
            && AccountCurrency(cmap, accounts[i].id, target) == (if accounts[i].currency.Some? then accounts[i].currency.value else target)
            && acc.balance == (if HasRows(raw, accounts[i].id)
                               then ConvertedTotal(raw, accounts[i].id, cmap, target, rates, custom)
                               else accounts[i].balance)
  {
    CurrencyMapOfDistinct(accounts, i);
    SumsAreConvertedTotals(raw, CurrencyMap(accounts), target, rates, custom, accounts[i].id);
  }

  // ---- the multi-currency examples ----

  /** 100 EUR on a EUR account with a custom rate of 1.1: balance 100, rate 1.1 into USD. */
  method CustomRateExample() returns (balance: real, rate: real)
    ensures balance == 100.0 && rate == 1.1
  {
    var out := CalculateAccountBalances([Account(1, "TestAcc", 0.0, Some("EUR"), 1.0)], [RawSum(1, "EUR", 100.0)],
                                        "USD", map[], map["EUR" := 1.1]);
    assert [RawSum(1, "EUR", 100.0)][..0] == [];
    assert CurrencyMap([Account(1, "TestAcc", 0.0, Some("EUR"), 1.0)]) == map[1 := "EUR"];
    assert Sums([RawSum(1, "EUR", 100.0)], map[1 := "EUR"], "USD", map[], map["EUR" := 1.1]) == map[1 := 100.0];
    assert ComputeRate("EUR", "USD", map[], map["EUR" := 1.1]) == 1.1;
    balance, rate := out[0].balance, out[0].exchangeRate;
  }

  /** 100 EUR on a GBP account, custom rates EUR 1.2 and GBP 1.5: balance 80, rate 1.5 into USD. */
  method CrossRateExample() returns (balance: real, rate: real)
    ensures balance == 80.0 && rate == 1.5
  {
    var custom := map["EUR" := 1.2, "GBP" := 1.5];
    var out := CalculateAccountBalances([Account(1, "GBP Acc", 0.0, Some("GBP"), 1.0)], [RawSum(1, "EUR", 100.0)],
                                        "USD", map[], custom);
    assert [RawSum(1, "EUR", 100.0)][..0] == [];
    assert CurrencyMap([Account(1, "GBP Acc", 0.0, Some("GBP"), 1.0)]) == map[1 := "GBP"];
    assert ComputeRate("EUR", "GBP", map[], custom) == 0.8;
    assert Sums([RawSum(1, "EUR", 100.0)], map[1 := "GBP"], "USD", map[], custom) == map[1 := 80.0];
    assert ComputeRate("GBP", "USD", map[], custom) == 1.5;
    balance, rate := out[0].balance, out[0].exchangeRate;
  }

  /** As above with a live EURGBP quote of 0.9: the quote wins over the custom rates, balance 90. */
  method DirectQuoteExample() returns (balance: real)
    ensures balance == 90.0
  {
    var rates := map["EURGBP=X" := 0.9];
    var custom := map["EUR" := 1.2, "GBP" := 1.5];
    var out := CalculateAccountBalances([Account(1, "GBP Acc", 0.0, Some("GBP"), 1.0)], [RawSum(1, "EUR", 100.0)],
                                        "USD", rates, custom);
    assert [RawSum(1, "EUR", 100.0)][..0] == [];
    assert CurrencyMap([Account(1, "GBP Acc", 0.0, Some("GBP"), 1.0)]) == map[1 := "GBP"];
    assert DirectTicker("EUR", "GBP") == "EURGBP=X";
    assert ComputeRate("EUR", "GBP", rates, custom) == 0.9;
    assert Sums([RawSum(1, "EUR", 100.0)], map[1 := "GBP"], "USD", rates, custom) == map[1 := 90.0];
    balance := out[0].balance;
  }

  /** No custom rates, live quotes EURUSD 1.2 and GBPUSD 1.5 and no EURGBP quote: balance 80. */
  method LiveQuotePivotExample() returns (balance: real)
    ensures balance == 80.0
  {
    var rates := map["EURUSD=X" := 1.2, "GBPUSD=X" := 1.5];
    var out := CalculateAccountBalances([Account(1, "GBP Acc", 0.0, Some("GBP"), 1.0)], [RawSum(1, "EUR", 100.0)],
                                        "USD", rates, map[]);
    assert [RawSum(1, "EUR", 100.0)][..0] == [];
    assert CurrencyMap([Account(1, "GBP Acc", 0.0, Some("GBP"), 1.0)]) == map[1 := "GBP"];
    assert DirectTicker("EUR", "GBP") == "EURGBP=X" && UsdTicker("EUR") == "EURUSD=X" && UsdTicker("GBP") == "GBPUSD=X";
    assert ComputeRate("EUR", "GBP", rates, map[]) == 0.8;
    assert Sums([RawSum(1, "EUR", 100.0)], map[1 := "GBP"], "USD", rates, map[]) == map[1 := 80.0];
    balance := out[0].balance;
  }
}
