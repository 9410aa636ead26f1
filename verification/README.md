# ZHA token issuance ledger, modelled in Dafny

The ZHA token lets any account mint new tokens to itself, subject to two
per-account caps: at most 100000 tokens within one day-window of 86400
seconds, and at most 10000000 tokens over the account's lifetime. The
ledger keeps, per account, the balance, the amount minted in the current
window, the lifetime amount and the start of the current window, plus the
total supply. It answers `balanceOf` (0 for an account never seen) and
`totalSupply`.

The behaviour is taken from the token's test suite, `test/ZHAToken.test.js`;
the contract's own source is not part of this model.

Files:

- `ledger.dfy` (module `IssuanceLedger`): the constants, the account and
  ledger records, and `Mint`, `BalanceOf`, `TotalSupply` as pure functions.
  `Mint(l, caller, amount, now)` returns the new ledger and a `Status`
  (`Ok`, `DailyLimitExceeded`, `GlobalLimitExceeded`).
- `supply.dfy` (module `Supply`): the sum of balances, the ledger invariant
  (`Valid`/`ValidAt`), its preservation by `Mint`, the overflow bound,
  lifetime-cap exhaustion, and the independence of accounts.
- `scenarios.dfy` (module `Scenarios`): runs of many mints (`Run`), the
  invariants along any run, and the eight test scenarios replayed as lemmas.

Behaviour the tests leave open, and the choice made here:

- Expiry: a window has expired once `now >= windowStart + 86400`. An
  elapsed time of exactly 86400 counts as expired (test lines 64-67).
- An expired window restarts at `now`. It is not advanced by whole windows.
- The daily cap is checked before the lifetime cap. When both would be
  exceeded, the daily error is reported. No test tells the two orders apart.
- A mint of 0 takes the same path as any other amount. On a valid ledger it
  always succeeds and moves no balance (`Supply.ZeroMint`). It may create
  the caller's record, and it may restart an expired window.
- A failed mint reverts: the ledger is returned unchanged. This includes
  the window restart that would have happened first.
- An account's record is created on its first successful mint, with its
  window starting at that mint's time.
- The invariant that no window starts later than the current time holds
  when timestamps never go back (`ValidAt`, `Chronological`), as block
  timestamps do.
- An amount so large that the cap-test sum would pass 2^256 is refused
  with the daily error and changes nothing (`Supply.OversizedAmountRejected`),
  as is every amount above 100000. A contract on 256-bit words could instead
  revert with an arithmetic error, or wrap round and pass the check; the
  tests do not settle which.
- Time is a timestamp carried by each call. The scenario lemmas hold for
  every choice of timestamps consistent with the test's clock advances, not
  just for one.

## Model

| member | source | states |
|---|---|---|
| IssuanceLedger.Mint | test/ZHAToken.test.js:28-82 | A mint succeeds exactly when the caller's use of the current window plus the amount stays within 100000 and its lifetime total plus the amount stays within 10000000. Otherwise it fails with the daily error when the window cap is broken, else with the lifetime error. A failure leaves the ledger unchanged. A success adds the amount to the caller's balance, window use, lifetime total and the supply. It leaves the caller in a window that is current at `now`. No other account's record changes, and nothing recorded goes back. |
| IssuanceLedger.BalanceOf | test/ZHAToken.test.js:30 | An account that has no record holds 0. Its partners: `Supply.BalanceBounds` (on a valid ledger the balance equals the account's lifetime issuance and is at most the supply), `Supply.EmptyValid` (every balance is 0 after deployment) and the `Mint` contract (a success adds exactly the amount to the caller's balance and to no other). |
| IssuanceLedger.TotalSupply | test/ZHAToken.test.js:38 | The aggregate supply. Its partners: `Supply.Valid`, kept by `Supply.MintPreservesValid`, makes it the sum of all balances (`SumBalances`); `Scenarios.SupplyIsIssued` makes it the sum of the amounts of all successful mints; `Supply.EmptyValid` makes it 0 after deployment. |
| Supply.MintPreservesValid | test/ZHAToken.test.js:36-42 | From a valid ledger, a mint leaves a valid ledger. Every account stays within both caps, each balance equals what the account minted, the supply equals the sum of all balances, and no window starts after `now`. |
| Supply.EmptyValid | test/ZHAToken.test.js:24-26 | A freshly deployed ledger is valid, has supply 0, and every balance is 0. |
| Supply.BalanceBounds | test/ZHAToken.test.js:70-82 | On a valid ledger, an account's balance equals its lifetime issuance, is at most 10000000, and is at most the total supply. |
| Supply.SupplyFitsWord | test/ZHAToken.test.js:36-42 | On a valid ledger the supply is at most 10000000 per account. With at most one record per 160-bit address, it is below 2^256, so no 256-bit counter can wrap. |
| Supply.CappedAccountRejected | test/ZHAToken.test.js:76-81 | Once an account has minted 10000000, every positive mint by it fails and changes nothing. In a window with daily room, the failure is the lifetime error. |
| Supply.OversizedAmountRejected | test/ZHAToken.test.js:49-54 | Any amount above 100000, however large, is refused with the daily error and leaves the ledger unchanged. |
| Supply.MintsCommute | test/ZHAToken.test.js:84-111 | Mints by two different accounts do not affect each other's outcome. Applying them in either order gives the same ledger. |
| Scenarios.RunPreservesValid | test/ZHAToken.test.js:36-42 | Along any run with non-decreasing timestamps, the ledger invariant holds at the end. Nothing recorded goes back: no account disappears, and no balance, lifetime total, window start or supply decreases. |
| Scenarios.SupplyIsIssued | test/ZHAToken.test.js:36-42 | After any run, the supply has grown by exactly the sum of the amounts of the mints that succeeded. |
| Scenarios.CappedForever | test/ZHAToken.test.js:76-82 | Once an account has reached the lifetime cap, it stays there for any later run by anyone, however much time passes. Every positive mint by that account fails, and its balance does not move. |
| Scenarios.FullDaysSucceed | test/ZHAToken.test.js:71-75 | Minting 100000 once per window, with mints at least 86400 apart, succeeds every time while the lifetime cap has room. Each success adds 100000 to the balance and to the lifetime total. |
| Scenarios.MintCreditsCaller | test/ZHAToken.test.js:28-34 | Account 0 minting 1, then account 1 minting 2, succeed and leave balances 1 and 2. |
| Scenarios.MintAddsToSupply | test/ZHAToken.test.js:36-42 | The same two mints take the supply to 1 and then 3. |
| Scenarios.MintUpToDailyLimit | test/ZHAToken.test.js:44-47 | A fresh account can mint exactly 100000 in one call. |
| Scenarios.AboveDailyLimitReverts | test/ZHAToken.test.js:49-54 | A mint of 100001 on a fresh ledger fails with the daily error and leaves the ledger as it was. |
| Scenarios.DailyLimitResets | test/ZHAToken.test.js:56-68 | After minting 100000, a mint of 1 within the window fails with the daily error and the balance stays 100000. At least 86400 seconds after the first mint, a mint of 1 succeeds and the balance becomes 100001. |
| Scenarios.AboveTotalLimitReverts | test/ZHAToken.test.js:70-82 | A hundred daily mints of 100000, each a window apart, all succeed and reach a balance of 10000000. A mint of 1 a window later fails with the lifetime error, and the balance stays 10000000. |
| Scenarios.DailyLimitPerAccount | test/ZHAToken.test.js:84-94 | Account 0 using up its daily limit does not stop account 1 from minting 100000. |
| Scenarios.GlobalLimitPerAccount | test/ZHAToken.test.js:96-111 | Account 0 reaching the lifetime cap does not stop account 1 from minting 100000. The same holds stated as one run of 102 mints: the first 100 succeed, account 0's mint of 1 fails with the lifetime error, and account 1's mint succeeds. |

## Left out

- The `advanceTime` helper (test/ZHAToken.test.js:8-20) is not modelled. It is JSON-RPC plumbing; here each call carries its own timestamp, and a clock advance is a gap between two timestamps.
- The test harness is not modelled: chai assertions, `expectRevert`, `artifacts.require`, and deployment in `beforeEach`. Deployment is the `Empty` ledger.
- Addresses, `msg.sender`, gas and events are not modelled. An account is an abstract number, and the caller is an explicit argument.
- Revert message strings are not modelled. The two reasons are the `DailyLimitExceeded` and `GlobalLimitExceeded` statuses.
- 256-bit arithmetic is not modelled. Values are unbounded naturals. `SupplyFitsWord` bounds the stored values only (the supply, and through the caps every per-account counter): none of them comes near 2^256. The caller-chosen `amount` is not bounded, so the cap-test sums `dailyMinted + amount` and `lifetimeMinted + amount` can exceed 2^256; how the model treats that is listed among the open choices above.
- Concurrency is not modelled. Calls are applied strictly one after another.
- The token contract's own source is not part of this model. Its behaviour is inferred from the test suite, so the open choices listed above are the model's own.
