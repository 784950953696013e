/** Ghost bookkeeping for one usage counter: what it truly carried in each of its lives (a life
    ends when the counter restarts from zero) against what the store has committed and billed. */
module UsageLedger {
  import opened Common

  datatype Ledger = Ledger(
    lives: seq<nat>,            // true bytes of every life, the current one last
    committed: map<nat, nat>,   // the last reading of each life that became a baseline
    at: nat,                    // the life the stored baseline was read from
    origin: nat, offset: nat,   // the life and reading at which accounting began
    lost: nat)                  // baselines of dead lives subtracted from live readings

  function Last(lives: seq<nat>): nat { if lives == [] then 0 else lives[|lives| - 1] }

  function At(committed: map<nat, nat>, i: nat): nat { if i in committed then committed[i] else 0 }

  /** The last committed readings of the first `n` lives, added up. */
  function Recorded(committed: map<nat, nat>, n: nat): nat {
    if n == 0 then 0 else Recorded(committed, n - 1) + At(committed, n - 1)
  }

  /** The true bytes of every life from `origin` on. */
  function Carried(lives: seq<nat>, origin: nat): nat {
    if |lives| <= origin then 0 else Carried(lives[..|lives| - 1], origin) + lives[|lives| - 1]
  }

  ghost predicate Balanced(l: Ledger, base: int, billed: int) {
    && |l.lives| > 0
    && l.origin <= l.at && (l.at < |l.lives| || l.at == l.origin == |l.lives|)
    && At(l.committed, l.at) == base
    && (l.at == |l.lives| ==> base == 0)
    && (forall i: nat :: i < l.origin || l.at < i ==> At(l.committed, i) == 0)
    && (forall i :: 0 <= i < |l.lives| ==> At(l.committed, i) <= l.lives[i])
    && billed + l.lost + l.offset == Recorded(l.committed, |l.lives|)
  }

  /** A reading `v` of life `e` meets the baseline `base`; `restarted` says the restart marker applies. */
  function Record(l: Ledger, base: int, v: nat, e: nat, restarted: bool): Ledger
    requires base >= 0
  {
    l.(committed := l.committed[e := v], at := e,
       lost := l.lost + if e == l.at || restarted || v < base then 0 else base)
  }

  function Charged(base: int, v: int, restarted: bool): int {
    if restarted || v - base < 0 then v else v - base
  }

  lemma {:induction false} RecordedPut(committed: map<nat, nat>, e: nat, v: nat, n: nat)
    ensures Recorded(committed[e := v], n) == Recorded(committed, n) + if e < n then v - At(committed, e) else 0
  {
    if n > 0 {
      RecordedPut(committed, e, v, n - 1);
    }
  }

  lemma {:induction false} RecordedWithin(l: Ledger, n: nat)
    requires n <= |l.lives|
    requires forall i :: 0 <= i < n ==> At(l.committed, i) <= l.lives[i]
    requires forall i: nat :: i < l.origin ==> At(l.committed, i) == 0
    ensures Recorded(l.committed, n) <= Carried(l.lives[..n], l.origin)
  {
    if n > 0 {
      RecordedWithin(l, n - 1);
      assert l.lives[..n][..n - 1] == l.lives[..n - 1];
      if n <= l.origin {
        assert Recorded(l.committed, n - 1) <= 0;
      }
    }
  }

  /** The bill is at most what was carried. */
  lemma BalancedNeverOverBills(l: Ledger, base: int, billed: int)
    requires Balanced(l, base, billed)
    ensures billed <= Carried(l.lives, l.origin) - l.offset
  {
    RecordedWithin(l, |l.lives|);
    assert l.lives[..|l.lives|] == l.lives;
  }

  /** A reading that is not older than the baseline keeps the balance, provided the marker is only
      honoured when the baseline belongs to an earlier life (or is zero). */
  lemma RecordKeepsBalance(l: Ledger, base: int, billed: int, v: nat, e: nat, restarted: bool)
    requires Balanced(l, base, billed)
    requires l.at <= e < |l.lives| && v <= l.lives[e]
    requires l.at == e ==> base <= v
    requires restarted ==> l.at < e || base == 0
    ensures Balanced(Record(l, base, v, e, restarted), v, billed + Charged(base, v, restarted))
  {
    RecordedPut(l.committed, e, v, |l.lives|);
    var l' := Record(l, base, v, e, restarted);
    assert forall i :: i != e ==> At(l'.committed, i) == At(l.committed, i);
  }

  lemma RebirthKeepsBalance(l: Ledger, base: int, billed: int)
    requires Balanced(l, base, billed)
    ensures Balanced(l.(lives := l.lives + [0]), base, billed)
  {
  }

  lemma TrafficKeepsBalance(l: Ledger, base: int, billed: int, more: nat)
    requires Balanced(l, base, billed)
    ensures Balanced(l.(lives := l.lives[|l.lives| - 1 := Last(l.lives) + more]), base, billed)
  {
  }

  /** Accounting begins at reading `v` of life `e`, which may be the life still to come if v is zero. */
  function Opened(l: Ledger, e: nat, v: nat): Ledger {
    Ledger(l.lives, map[e := v], e, e, v, 0)
  }

  lemma {:induction false} OpenedRecorded(e: nat, v: nat, n: nat)
    ensures Recorded(map[e := v], n) == if e < n then v else 0
  {
    if n > 0 {
      OpenedRecorded(e, v, n - 1);
    }
  }

  lemma OpenedIsBalanced(l: Ledger, e: nat, v: nat)
    requires |l.lives| > 0 && (if e < |l.lives| then v <= l.lives[e] else e == |l.lives| && v == 0)
    ensures Balanced(Opened(l, e, v), v, 0)
  {
    OpenedRecorded(e, v, |l.lives|);
  }
}
