/**
 The issuance ledger of the ZHA token: each account may mint new tokens to
 itself, at most DAILY_LIMIT within one day-window and at most LIFETIME_LIMIT
 in total.  The ledger is an immutable value and every operation is a pure
 function of it; the caller's identity and the current time are explicit
 arguments.
 */
module IssuanceLedger {

  /** An account identity (the index of an address). */
  type Account = nat

  /** Most an account may mint within one day-window. */
  const DAILY_LIMIT: nat := 100000

  /** Most an account may ever mint. */
  const LIFETIME_LIMIT: nat := 10000000

  /** Length of a day-window, in seconds. */
  const WINDOW_LENGTH: nat := 86400

  datatype AccountState = AccountState(
    balance: nat,
    dailyMinted: nat,      // minted since windowStart
    lifetimeMinted: nat,   // minted ever
    windowStart: nat       // start of the current day-window
  )

  datatype Ledger = Ledger(accounts: map<Account, AccountState>, totalSupply: nat)

  /** Outcome of a mint; the two failures carry the revert reasons
      "Daily limit exceeded." and "Global limit exceeded." */
  datatype Status = Ok | DailyLimitExceeded | GlobalLimitExceeded

  datatype MintResult = MintResult(ledger: Ledger, status: Status)

  /** The ledger right after deployment. */
  const Empty: Ledger := Ledger(map[], 0)

  /** The record a first mint at `now` creates for an account. */
  function Fresh(now: nat): (s: AccountState) {
    AccountState(0, 0, 0, now)
  }

  /** An account's record as a mint at `now` finds it. */
  function StateOf(l: Ledger, a: Account, now: nat): (s: AccountState) {
    if a in l.accounts then l.accounts[a] else Fresh(now)
  }

  /** A window has expired once a full WINDOW_LENGTH has elapsed since it began. */
  predicate Expired(s: AccountState, now: nat) {
    now >= s.windowStart + WINDOW_LENGTH
  }

  /** The lazy reset: an expired window restarts at `now` with nothing minted. */
  function Roll(s: AccountState, now: nat): (w: AccountState) {
    if Expired(s, now) then s.(dailyMinted := 0, windowStart := now) else s
  }

  /** What account `a` has minted in the day-window that is current at `now`. */
  function DailyUsed(l: Ledger, a: Account, now: nat): (used: nat) {
    if a !in l.accounts || Expired(l.accounts[a], now) then 0
    else l.accounts[a].dailyMinted
  }

  /** What account `a` has ever minted. */
  function LifetimeUsed(l: Ledger, a: Account): (used: nat) {
    if a in l.accounts then l.accounts[a].lifetimeMinted else 0
  }

  /** The balance recorded for `a` in `m`; an account without a record holds nothing. */
  function BalanceIn(m: map<Account, AccountState>, a: Account): (b: nat) {
    if a in m then m[a].balance else 0
  }

  /** The balance of `a`; an account never seen holds nothing. */
  function BalanceOf(l: Ledger, a: Account): (b: nat)
    ensures a !in l.accounts ==> b == 0
  {
    BalanceIn(l.accounts, a)
  }

  /** The aggregate of everything minted so far. */
  function TotalSupply(l: Ledger): (s: nat) {
    l.totalSupply
  }

  /** `l'` is a possible later state of `l`: no account disappears, no
      balance, lifetime total or window start goes back, and the supply
      does not shrink. */
  predicate Grows(l: Ledger, l': Ledger) {
    && l.totalSupply <= l'.totalSupply
    && forall a :: a in l.accounts ==>
         && a in l'.accounts
         && l.accounts[a].balance <= l'.accounts[a].balance
         && l.accounts[a].lifetimeMinted <= l'.accounts[a].lifetimeMinted
         && l.accounts[a].windowStart <= l'.accounts[a].windowStart
  }

  /** `caller` mints `amount` to itself at time `now`.  A window that has
      expired is first restarted at `now`; then the daily cap and, after it,
      the lifetime cap are checked.  A failed mint reverts: the ledger comes
      back exactly as it was, even if its window had expired. */
  function Mint(l: Ledger, caller: Account, amount: nat, now: nat): (r: MintResult)
    // which outcome, in terms of what the caller has used up so far
    ensures r.status == Ok <==>
              DailyUsed(l, caller, now) + amount <= DAILY_LIMIT
              && LifetimeUsed(l, caller) + amount <= LIFETIME_LIMIT
    ensures r.status == DailyLimitExceeded <==> DailyUsed(l, caller, now) + amount > DAILY_LIMIT
    ensures r.status == GlobalLimitExceeded <==>
              DailyUsed(l, caller, now) + amount <= DAILY_LIMIT
              && LifetimeUsed(l, caller) + amount > LIFETIME_LIMIT
    // a failure changes nothing
    ensures r.status != Ok ==> r.ledger == l
    // a success credits exactly the caller, and the supply, with `amount`
    ensures r.status == Ok ==>
              && caller in r.ledger.accounts
              && BalanceOf(r.ledger, caller) == BalanceOf(l, caller) + amount
              && TotalSupply(r.ledger) == TotalSupply(l) + amount
              && DailyUsed(r.ledger, caller, now) == DailyUsed(l, caller, now) + amount
              && LifetimeUsed(r.ledger, caller) == LifetimeUsed(l, caller) + amount
    // the window a success leaves behind is the one current at `now`
    ensures r.status == Ok ==>
              r.ledger.accounts[caller].windowStart ==
                (if caller in l.accounts && !Expired(l.accounts[caller], now)
                 then l.accounts[caller].windowStart else now)
    // no other account is touched
    ensures r.ledger.accounts - {caller} == l.accounts - {caller}
    ensures Grows(l, r.ledger)
  {
    var s := StateOf(l, caller, now);
    var status := Check(s, amount, now);
    if status == Ok then
      MintResult(Ledger(l.accounts[caller := Credit(s, amount, now)], l.totalSupply + amount), Ok)
    else
      MintResult(l, status)
  }

  /** The cap checks of a mint of `amount` at `now` against record `s`,
      the daily cap first. */
  function Check(s: AccountState, amount: nat, now: nat): (status: Status) {
    var w := Roll(s, now);
    if w.dailyMinted + amount > DAILY_LIMIT then DailyLimitExceeded
    else if w.lifetimeMinted + amount > LIFETIME_LIMIT then GlobalLimitExceeded
    else Ok
  }

  /** The record `s` after a successful mint of `amount` at `now`. */
  function Credit(s: AccountState, amount: nat, now: nat): (s': AccountState) {
    var w := Roll(s, now);
    AccountState(w.balance + amount, w.dailyMinted + amount,
                 w.lifetimeMinted + amount, w.windowStart)
  }
}
