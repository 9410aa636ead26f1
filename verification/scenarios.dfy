/**
 Sequences of mints, the invariants that hold along any of them, and the
 concrete scenarios of the token's test suite replayed against the model.
 Time is the timestamp carried by each step; advancing the clock between
 two mints is a gap between their timestamps.
 */
module Scenarios {
  import opened IssuanceLedger
  import opened Supply

  /** One call: `caller` mints `amount` at time `now`. */
  datatype Step = MintAt(caller: Account, amount: nat, now: nat)

  /** The ledger after a run, and the outcome of each of its steps. */
  datatype Trace = Trace(ledger: Ledger, statuses: seq<Status>)

  /** Applies the steps in order, one mint after the other. */
  function Run(l: Ledger, steps: seq<Step>): (t: Trace)
    ensures |t.statuses| == |steps|
    decreases |steps|
  {
    if |steps| == 0 then Trace(l, [])
    else
      var r := Mint(l, steps[0].caller, steps[0].amount, steps[0].now);
      var rest := Run(r.ledger, steps[1..]);
      Trace(rest.ledger, [r.status] + rest.statuses)
  }

  /** Timestamps never go back, starting from `from`. */
  predicate Chronological(from: nat, steps: seq<Step>) {
    && (|steps| > 0 ==> from <= steps[0].now)
    && forall i :: 0 < i < |steps| ==> steps[i - 1].now <= steps[i].now
  }

  /** The clock after a run that started at `from`. */
  function Latest(from: nat, steps: seq<Step>): (t: nat) {
    if |steps| == 0 then from else steps[|steps| - 1].now
  }

  /** Sum of the amounts of the steps that succeeded. */
  function Issued(steps: seq<Step>, statuses: seq<Status>): (n: nat)
    requires |statuses| == |steps|
    decreases |steps|
  {
    if |steps| == 0 then 0
    else (if statuses[0] == Ok then steps[0].amount else 0) + Issued(steps[1..], statuses[1..])
  }

  /** Running two sequences one after the other is running their concatenation. */
  lemma {:induction false} RunAppend(l: Ledger, s1: seq<Step>, s2: seq<Step>)
    ensures var t1 := Run(l, s1);
            var t2 := Run(t1.ledger, s2);
            Run(l, s1 + s2) == Trace(t2.ledger, t1.statuses + t2.statuses)
    decreases |s1|
  {
    if |s1| == 0 {
      assert s1 + s2 == s2;
    } else {
      var r := Mint(l, s1[0].caller, s1[0].amount, s1[0].now);
      assert (s1 + s2)[0] == s1[0];
      assert (s1 + s2)[1..] == s1[1..] + s2;
      RunAppend(r.ledger, s1[1..], s2);
    }
  }

  /** Along any chronological run the caps hold for every account, every
      balance equals what that account minted, the supply equals the sum of
      the balances, and nothing recorded ever goes back. */
  lemma {:induction false} RunPreservesValid(l: Ledger, from: nat, steps: seq<Step>)
    requires ValidAt(l, from)
    requires Chronological(from, steps)
    ensures ValidAt(Run(l, steps).ledger, Latest(from, steps))
    ensures Grows(l, Run(l, steps).ledger)
    decreases |steps|
  {
    if |steps| > 0 {
      var s := steps[0];
      var r := Mint(l, s.caller, s.amount, s.now);
      assert from <= s.now;
      MintPreservesValid(l, s.caller, s.amount, s.now);
      assert Chronological(s.now, steps[1..]) by {
        if |steps| > 1 {
          assert steps[1..][0] == steps[1];
        }
        forall i | 0 < i < |steps[1..]| ensures steps[1..][i - 1].now <= steps[1..][i].now {
          assert steps[1..][i - 1] == steps[i] && steps[1..][i] == steps[i + 1];
        }
      }
      RunPreservesValid(r.ledger, s.now, steps[1..]);
      if |steps| > 1 {
        assert Latest(s.now, steps[1..]) == Latest(from, steps);
      }
    }
  }

  /** The supply grows by exactly the amounts of the successful steps. */
  lemma {:induction false} SupplyIsIssued(l: Ledger, steps: seq<Step>)
    ensures TotalSupply(Run(l, steps).ledger) == TotalSupply(l) + Issued(steps, Run(l, steps).statuses)
    decreases |steps|
  {
    if |steps| > 0 {
      var r := Mint(l, steps[0].caller, steps[0].amount, steps[0].now);
      SupplyIsIssued(r.ledger, steps[1..]);
      var t := Run(l, steps);
      assert t.statuses[1..] == Run(r.ledger, steps[1..]).statuses;
    }
  }

  /** An account that has reached the lifetime cap stays there: whatever
      anyone does afterwards and however much time passes, every positive
      mint of that account fails and its balance does not move. */
  lemma {:induction false} CappedForever(l: Ledger, c: Account, steps: seq<Step>)
    requires LifetimeUsed(l, c) == LIFETIME_LIMIT
    ensures LifetimeUsed(Run(l, steps).ledger, c) == LIFETIME_LIMIT
    ensures BalanceOf(Run(l, steps).ledger, c) == BalanceOf(l, c)
    ensures forall i :: 0 <= i < |steps| && steps[i].caller == c && steps[i].amount > 0 ==>
              Run(l, steps).statuses[i] != Ok
    decreases |steps|
  {
    if |steps| > 0 {
      var s := steps[0];
      var r := Mint(l, s.caller, s.amount, s.now);
      if s.caller == c && s.amount > 0 {
        CappedAccountRejected(l, c, s.amount, s.now);
      }
      assert BalanceOf(r.ledger, c) == BalanceOf(l, c) by {
        if s.caller != c {
          assert c in r.ledger.accounts - {s.caller} <==> c in l.accounts - {s.caller};
        }
      }
      CappedForever(r.ledger, c, steps[1..]);
      var t := Run(l, steps);
      forall i | 0 <= i < |steps| && steps[i].caller == c && steps[i].amount > 0
        ensures t.statuses[i] != Ok
      {
        if i > 0 {
          assert t.statuses[i] == Run(r.ledger, steps[1..]).statuses[i - 1];
          assert steps[1..][i - 1] == steps[i];
        }
      }
    }
  }

  /** `c` mints the full daily allowance at each of the times `ts`. */
  function FullDays(c: Account, ts: seq<nat>): (steps: seq<Step>)
    ensures |steps| == |ts|
    ensures forall i :: 0 <= i < |ts| ==> steps[i] == MintAt(c, DAILY_LIMIT, ts[i])
  {
    seq(|ts|, i requires 0 <= i < |ts| => MintAt(c, DAILY_LIMIT, ts[i]))
  }

  /** Consecutive times are at least a window apart. */
  predicate Spaced(ts: seq<nat>) {
    forall i :: 0 < i < |ts| ==> ts[i - 1] + WINDOW_LENGTH <= ts[i]
  }

  /** Minting the full daily allowance once per window succeeds every time
      while the lifetime cap leaves room, and each success adds DAILY_LIMIT
      to the balance and to the lifetime total. */
  lemma {:induction false} FullDaysSucceed(l: Ledger, c: Account, ts: seq<nat>)
    requires |ts| > 0
    requires ValidAt(l, ts[0])
    requires DailyUsed(l, c, ts[0]) == 0
    requires Spaced(ts)
    requires LifetimeUsed(l, c) + |ts| * DAILY_LIMIT <= LIFETIME_LIMIT
    ensures var t := Run(l, FullDays(c, ts));
            && (forall i :: 0 <= i < |ts| ==> t.statuses[i] == Ok)
            && LifetimeUsed(t.ledger, c) == LifetimeUsed(l, c) + |ts| * DAILY_LIMIT
            && BalanceOf(t.ledger, c) == BalanceOf(l, c) + |ts| * DAILY_LIMIT
            && ValidAt(t.ledger, ts[|ts| - 1])
    decreases |ts|
  {
    var steps := FullDays(c, ts);
    var r := Mint(l, c, DAILY_LIMIT, ts[0]);
    MintPreservesValid(l, c, DAILY_LIMIT, ts[0]);
    var t := Run(l, steps);
    if |ts| > 1 {
      var ts' := ts[1..];
      assert steps[1..] == FullDays(c, ts');
      assert ValidAt(r.ledger, ts'[0]);
      assert DailyUsed(r.ledger, c, ts'[0]) == 0;
      assert Spaced(ts') by {
        forall i | 0 < i < |ts'| ensures ts'[i - 1] + WINDOW_LENGTH <= ts'[i] {
          assert ts'[i - 1] == ts[i] && ts'[i] == ts[i + 1];
        }
      }
      FullDaysSucceed(r.ledger, c, ts');
      forall i | 0 <= i < |ts| ensures t.statuses[i] == Ok {
        if i > 0 {
          assert t.statuses[i] == Run(r.ledger, steps[1..]).statuses[i - 1];
        }
      }
    }
  }

  // ---------------------------------------------------------------------
  // The scenarios of the test suite.  Accounts 0 and 1 stand for the first
  // two test accounts; mints without an explicit sender come from account 0.

  /** Each caller's mint lands in that caller's balance. */
  lemma MintCreditsCaller(t0: nat, t1: nat)
    ensures var a := Run(Empty, [MintAt(0, 1, t0)]);
            var b := Run(a.ledger, [MintAt(1, 2, t1)]);
            && a.statuses == [Ok] && BalanceOf(a.ledger, 0) == 1
            && b.statuses == [Ok] && BalanceOf(b.ledger, 1) == 2
  {
  }

  /** The supply accumulates the mints of all accounts. */
  lemma MintAddsToSupply(t0: nat, t1: nat)
    ensures var a := Run(Empty, [MintAt(0, 1, t0)]);
            var b := Run(a.ledger, [MintAt(1, 2, t1)]);
            && TotalSupply(a.ledger) == 1
            && TotalSupply(b.ledger) == 3
  {
  }

  /** A fresh account may mint exactly the daily limit in one call. */
  lemma MintUpToDailyLimit(t0: nat)
    ensures var a := Run(Empty, [MintAt(0, DAILY_LIMIT, t0)]);
            a.statuses == [Ok] && BalanceOf(a.ledger, 0) == 100000
  {
  }

  /** One more than the daily limit reverts with the daily error. */
  lemma AboveDailyLimitReverts(t0: nat)
    ensures Run(Empty, [MintAt(0, 100001, t0)]) == Trace(Empty, [DailyLimitExceeded])
  {
  }

  /** Once the daily limit is used up, a further mint in the same window
      reverts; a full window later the counter has reset. */
  lemma DailyLimitResets(t0: nat, t1: nat, t2: nat)
    requires t1 < t0 + WINDOW_LENGTH
    requires t0 + WINDOW_LENGTH <= t2
    ensures var a := Run(Empty, [MintAt(0, 100000, t0)]);
            var b := Run(a.ledger, [MintAt(0, 1, t1)]);
            var c := Run(b.ledger, [MintAt(0, 1, t2)]);
            && a.statuses == [Ok] && BalanceOf(a.ledger, 0) == 100000
            && b.statuses == [DailyLimitExceeded] && BalanceOf(b.ledger, 0) == 100000
            && c.statuses == [Ok] && BalanceOf(c.ledger, 0) == 100001
  {
  }

  /** A hundred full days, each a window apart, reach the lifetime cap of
      account 0; any later mint of 1 in a fresh window reverts with the
      lifetime error and the balance stays at the cap. */
  lemma AboveTotalLimitReverts(ts: seq<nat>, t: nat)
    requires |ts| == 100 && Spaced(ts)
    requires ts[99] + WINDOW_LENGTH <= t
    ensures var a := Run(Empty, FullDays(0, ts));
            var b := Run(a.ledger, [MintAt(0, 1, t)]);
            && (forall i :: 0 <= i < 100 ==> a.statuses[i] == Ok)
            && BalanceOf(a.ledger, 0) == 10000000
            && b.statuses == [GlobalLimitExceeded]
            && BalanceOf(b.ledger, 0) == 10000000
  {
    EmptyValid(ts[0]);
    FullDaysSucceed(Empty, 0, ts);
    var a := Run(Empty, FullDays(0, ts));
    assert DailyUsed(a.ledger, 0, t) == 0;
  }

  /** Account 0 exhausting its daily limit does not stop account 1. */
  lemma DailyLimitPerAccount(t0: nat, t1: nat, t2: nat)
    requires t1 < t0 + WINDOW_LENGTH
    ensures var a := Run(Empty, [MintAt(0, 100000, t0)]);
            var b := Run(a.ledger, [MintAt(0, 1, t1)]);
            var c := Run(b.ledger, [MintAt(1, 100000, t2)]);
            && a.statuses == [Ok] && BalanceOf(a.ledger, 0) == 100000
            && b.statuses == [DailyLimitExceeded]
            && c.statuses == [Ok] && BalanceOf(c.ledger, 1) == 100000
  {
  }

  /** Account 0 exhausting its lifetime limit does not stop account 1.  The
      second postcondition states the same test as one run of 102 mints. */
  lemma GlobalLimitPerAccount(ts: seq<nat>, t: nat, u: nat)
    requires |ts| == 100 && Spaced(ts)
    requires ts[99] + WINDOW_LENGTH <= t
    ensures var a := Run(Empty, FullDays(0, ts));
            var b := Run(a.ledger, [MintAt(0, 1, t)]);
            var c := Run(b.ledger, [MintAt(1, 100000, u)]);
            && BalanceOf(a.ledger, 0) == 10000000
            && b.statuses == [GlobalLimitExceeded]
            && BalanceOf(b.ledger, 0) == 10000000
            && c.statuses == [Ok] && BalanceOf(c.ledger, 1) == 100000
    ensures var whole := Run(Empty, FullDays(0, ts) + [MintAt(0, 1, t), MintAt(1, 100000, u)]);
            && (forall i :: 0 <= i < 100 ==> whole.statuses[i] == Ok)
            && whole.statuses[100] == GlobalLimitExceeded
            && whole.statuses[101] == Ok
            && BalanceOf(whole.ledger, 0) == 10000000
            && BalanceOf(whole.ledger, 1) == 100000
  {
    AboveTotalLimitReverts(ts, t);
    var a := Run(Empty, FullDays(0, ts));
    var tail := [MintAt(0, 1, t), MintAt(1, 100000, u)];
    RunAppend(Empty, FullDays(0, ts), tail);
    RunAppend(a.ledger, tail[..1], tail[1..]);
    assert tail[..1] + tail[1..] == tail;
    EmptyValid(ts[0]);
    FullDaysSucceed(Empty, 0, ts);
    assert 1 !in a.ledger.accounts by {
      assert a.ledger.accounts.Keys <= {0} by {
        RunKeys(Empty, FullDays(0, ts));
      }
    }
  }

  /** A run only creates records for accounts that called. */
  lemma {:induction false} RunKeys(l: Ledger, steps: seq<Step>)
    ensures forall a :: a in Run(l, steps).ledger.accounts ==>
              a in l.accounts || exists i :: 0 <= i < |steps| && steps[i].caller == a
    decreases |steps|
  {
    if |steps| > 0 {
      var r := Mint(l, steps[0].caller, steps[0].amount, steps[0].now);
      RunKeys(r.ledger, steps[1..]);
      forall a | a in Run(l, steps).ledger.accounts
        ensures a in l.accounts || exists i :: 0 <= i < |steps| && steps[i].caller == a
      {
        if a !in l.accounts && a != steps[0].caller {
          assert a !in r.ledger.accounts by {
            assert a in r.ledger.accounts - {steps[0].caller} <==> a in l.accounts - {steps[0].caller};
          }
          var j :| 0 <= j < |steps[1..]| && steps[1..][j].caller == a;
          assert steps[j + 1].caller == a;
        }
      }
    }
  }
}
