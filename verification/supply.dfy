/**
 The bookkeeping invariants of the issuance ledger: every account stays
 within both caps, holds exactly what it has minted, and the total supply is
 the sum of all balances.
 */
module Supply {
  import opened IssuanceLedger

  /** Sum of the balances of all accounts in `m`. */
  ghost function SumBalances(m: map<Account, AccountState>): (sum: nat)
    decreases |m|
  {
    if m.Keys == {} then 0
    else
      var a :| a in m.Keys;
      assert (m - {a}).Keys == m.Keys - {a};
      m[a].balance + SumBalances(m - {a})
  }

  /** An account record allowed by the caps of an issuance-only ledger. */
  predicate WellFormed(s: AccountState) {
    && s.dailyMinted <= DAILY_LIMIT
    && s.dailyMinted <= s.lifetimeMinted
    && s.lifetimeMinted <= LIFETIME_LIMIT
    && s.balance == s.lifetimeMinted
  }

  ghost predicate Valid(l: Ledger) {
    && (forall a :: a in l.accounts ==> WellFormed(l.accounts[a]))
    && l.totalSupply == SumBalances(l.accounts)
  }

  /** `Valid`, with no window starting later than `now`. */
  ghost predicate ValidAt(l: Ledger, now: nat) {
    && Valid(l)
    && forall a :: a in l.accounts ==> l.accounts[a].windowStart <= now
  }

  /** The sum does not depend on which account is taken out first. */
  lemma {:induction false} SumRemove(m: map<Account, AccountState>, a: Account)
    requires a in m
    ensures SumBalances(m) == m[a].balance + SumBalances(m - {a})
    decreases |m|
  {
    var b :| b in m.Keys && SumBalances(m) == m[b].balance + SumBalances(m - {b});
    if b != a {
      var m' := m - {b};
      assert (m - {b}).Keys == m.Keys - {b};
      SumRemove(m', a);
      assert (m - {a}).Keys == m.Keys - {a};
      SumRemove(m - {a}, b);
      assert m' - {a} == (m - {a}) - {b};
    }
  }

  /** Replacing one record changes the sum by the difference of the two balances. */
  lemma SumUpdate(m: map<Account, AccountState>, a: Account, s: AccountState)
    ensures SumBalances(m[a := s]) + BalanceIn(m, a) == SumBalances(m) + s.balance
  {
    SumRemove(m[a := s], a);
    assert m[a := s] - {a} == m - {a};
    if a in m {
      SumRemove(m, a);
    } else {
      assert m - {a} == m;
    }
  }

  /** A single balance never exceeds the sum of all balances. */
  lemma BalanceWithinSum(m: map<Account, AccountState>, a: Account)
    ensures BalanceIn(m, a) <= SumBalances(m)
  {
    if a in m {
      SumRemove(m, a);
    }
  }

  /** Under the caps, the sum is at most LIFETIME_LIMIT per account. */
  lemma {:induction false} SumBounded(m: map<Account, AccountState>)
    requires forall a :: a in m ==> WellFormed(m[a])
    ensures SumBalances(m) <= |m| * LIFETIME_LIMIT
    decreases |m|
  {
    if m.Keys != {} {
      var a :| a in m.Keys;
      SumRemove(m, a);
      assert (m - {a}).Keys == m.Keys - {a};
      SumBounded(m - {a});
    }
  }

  /** The empty ledger satisfies every invariant. */
  lemma EmptyValid(now: nat)
    ensures ValidAt(Empty, now) && TotalSupply(Empty) == 0
    ensures forall a: Account :: BalanceOf(Empty, a) == 0
  {
  }

  /** A mint keeps the caps, keeps every balance equal to what was minted,
      and keeps the supply equal to the sum of the balances. */
  lemma MintPreservesValid(l: Ledger, caller: Account, amount: nat, now: nat)
    requires ValidAt(l, now)
    ensures ValidAt(Mint(l, caller, amount, now).ledger, now)
  {
    var r := Mint(l, caller, amount, now);
    if r.status == Ok {
      var s' := r.ledger.accounts[caller];
      assert r.ledger.accounts == l.accounts[caller := s'] by {
        assert r.ledger.accounts - {caller} == l.accounts - {caller};
      }
      SumUpdate(l.accounts, caller, s');
    }
  }

  /** Under the invariant, a balance is the caller's lifetime issuance and
      is bounded by the lifetime cap and by the total supply. */
  lemma BalanceBounds(l: Ledger, a: Account)
    requires Valid(l)
    ensures BalanceOf(l, a) == LifetimeUsed(l, a)
    ensures BalanceOf(l, a) <= LIFETIME_LIMIT
    ensures BalanceOf(l, a) <= TotalSupply(l)
  {
    BalanceWithinSum(l.accounts, a);
  }

  /** Number of distinct 160-bit addresses. */
  const ADDRESS_COUNT: nat := 0x1_0000_0000_0000_0000_0000_0000_0000_0000_0000_0000

  /** 2^256, one past the largest value of a 256-bit word. */
  const WORD_MODULUS: nat :=
    0x1_0000_0000_0000_0000_0000_0000_0000_0000_0000_0000_0000_0000_0000_0000_0000_0000_0000_0000_0000_0000_0000_0000_0000_0000_0000_0000_0000_0000_0000_0000

  /** No 256-bit counter can overflow: with at most one record per address,
      the total supply stays below 2^256. */
  lemma SupplyFitsWord(l: Ledger)
    requires Valid(l)
    requires |l.accounts| <= ADDRESS_COUNT
    ensures TotalSupply(l) <= |l.accounts| * LIFETIME_LIMIT
    ensures TotalSupply(l) < WORD_MODULUS
  {
    SumBounded(l.accounts);
    var n := |l.accounts|;
    assert n * LIFETIME_LIMIT <= ADDRESS_COUNT * LIFETIME_LIMIT;
  }

  /** A mint of nothing always succeeds and moves no balance. */
  lemma ZeroMint(l: Ledger, caller: Account, now: nat)
    requires Valid(l)
    ensures Mint(l, caller, 0, now).status == Ok
    ensures TotalSupply(Mint(l, caller, 0, now).ledger) == TotalSupply(l)
    ensures forall a :: BalanceOf(Mint(l, caller, 0, now).ledger, a) == BalanceOf(l, a)
  {
    if caller in l.accounts {
      assert WellFormed(l.accounts[caller]);
    }
  }

  /** Once an account has minted LIFETIME_LIMIT, no positive mint of it
      succeeds; in a fresh window within the daily cap it fails with the
      lifetime error. */
  lemma CappedAccountRejected(l: Ledger, caller: Account, amount: nat, now: nat)
    requires LifetimeUsed(l, caller) == LIFETIME_LIMIT
    requires amount > 0
    ensures Mint(l, caller, amount, now).status != Ok
    ensures Mint(l, caller, amount, now).ledger == l
    ensures DailyUsed(l, caller, now) + amount <= DAILY_LIMIT ==>
              Mint(l, caller, amount, now).status == GlobalLimitExceeded
  {
  }

  /** An amount above the daily limit is refused with the daily error
      whatever the ledger holds, however large the amount: the cap test is
      on unbounded integers, so it cannot wrap round and pass. */
  lemma OversizedAmountRejected(l: Ledger, caller: Account, amount: nat, now: nat)
    requires amount > DAILY_LIMIT
    ensures Mint(l, caller, amount, now) == MintResult(l, DailyLimitExceeded)
  {
  }

  /** Accounts are independent: a mint by `other` changes neither the outcome
      nor the effect of a later mint by `caller`, and the two mints commute. */
  lemma MintsCommute(l: Ledger, caller: Account, x: nat, t: nat, other: Account, y: nat, u: nat)
    requires caller != other
    ensures var m1 := Mint(l, other, y, u);
            var m2 := Mint(m1.ledger, caller, x, t);
            var n1 := Mint(l, caller, x, t);
            var n2 := Mint(n1.ledger, other, y, u);
            && m2.status == n1.status
            && n2.status == m1.status
            && m2.ledger == n2.ledger
  {
    var m1 := Mint(l, other, y, u);
    var n1 := Mint(l, caller, x, t);
    var sc := StateOf(l, caller, t);
    var so := StateOf(l, other, u);
    assert StateOf(m1.ledger, caller, t) == sc;
    assert StateOf(n1.ledger, other, u) == so;
    if m1.status == Ok && n1.status == Ok {
      assert l.accounts[other := Credit(so, y, u)][caller := Credit(sc, x, t)]
          == l.accounts[caller := Credit(sc, x, t)][other := Credit(so, y, u)];
    }
  }
}
