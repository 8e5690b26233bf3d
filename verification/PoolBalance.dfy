/** Tickets are spread evenly over the instances of an unchanged pool. */
module PoolBalance {
  import opened Bytes
  import opened InstancePool

  /** How many of the `n` tickets after `base` stand for position `k` of `size`. */
  function Handed(base: nat, n: nat, size: nat, k: nat): nat
    requires size > 0
  {
    if n == 0 then 0 else Handed(base, n - 1, size, k) + if Slot(base + n, size) == k then 1 else 0
  }

  lemma NextQuotient(x: int, n: nat)
    requires n > 0
    ensures (x + 1) / n == x / n + if (x + 1) % n == 0 then 1 else 0
  {
    var q, r := x / n, x % n;
    if r + 1 < n {
      QuotientOf(x + 1, q, r + 1, n);
    } else {
      assert x + 1 == (q + 1) * n;
      QuotientOf(x + 1, q + 1, 0, n);
    }
  }

  lemma SlotIsMultiple(v: nat, size: nat, k: nat)
    requires k < size
    ensures Slot(v, size) == k <==> (v - k) % size == 0
  {
    if Slot(v, size) == k {
      QuotientOf(v - k, v / size, 0, size);
    }
    if (v - k) % size == 0 {
      assert v == ((v - k) / size) * size + k;
      QuotientOf(v, (v - k) / size, k, size);
    }
  }

  lemma {:induction false} HandedIsQuotient(base: nat, n: nat, size: nat, k: nat)
    requires k < size
    ensures Handed(base, n, size, k) == (base + n - k) / size - (base - k) / size
  {
    if n > 0 {
      HandedIsQuotient(base, n - 1, size, k);
      NextQuotient(base + n - 1 - k, size);
      SlotIsMultiple(base + n, size, k);
    }
  }

  lemma QuotientOfSum(x: int, n: nat, size: nat)
    requires size > 0
    ensures n / size <= (x + n) / size - x / size <= n / size + if n % size == 0 then 0 else 1
  {
    var q, r := x / size + n / size, x % size + n % size;
    assert x + n == q * size + r;
    if r < size {
      QuotientOf(x + n, q, r, size);
    } else {
      assert x + n == (q + 1) * size + (r - size);
      QuotientOf(x + n, q + 1, r - size, size);
    }
  }

  /** After any number of tickets, every instance has been handed out its floor or ceiling share. */
  lemma {:induction false} PoolBalance(base: nat, n: nat, size: nat, k: nat)
    requires k < size
    ensures n / size <= Handed(base, n, size, k) <= n / size + if n % size == 0 then 0 else 1
  {
    HandedIsQuotient(base, n, size, k);
    QuotientOfSum(base - k, n, size);
  }

  /** 1 if this step gives its thread pool position `k`. */
  function Given(s': State, l: Label, k: nat): nat {
    if l.Ticket? && l.t < |s'.threads| && s'.threads[l.t].pc.HasIndex? && s'.threads[l.t].pc.index == k then 1 else 0
  }

  /** How often a run's threads were given pool position `k` since the pool was last cleared. */
  function GivenOut(threads: nat, counter: nat, size: nat, labels: seq<Label>, k: nat): nat
    requires After(threads, counter, size, labels).Some?
  {
    if labels == [] then 0
    else
      var before, l := labels[..|labels| - 1], labels[|labels| - 1];
      if ByThread(l) then
        GivenOut(threads, counter, size, before, k) + Given(After(threads, counter, size, labels).value, l, k)
      else 0
  }

  /** Main result: in every run short of wraparound, tickets are spread evenly over an unchanged pool. */
  lemma {:induction false} TicketsAreBalanced(threads: nat, counter: nat, size: nat, labels: seq<Label>, k: nat)
    requires After(threads, counter, size, labels).Some? && counter + |labels| < TWO_64
    requires k < |After(threads, counter, size, labels).value.pool|
    ensures
      var s := After(threads, counter, size, labels).value;
      var n := s.ledger.taken;
      && GivenOut(threads, counter, size, labels, k) == Handed(s.ledger.base, n, |s.pool|, k)
      && n / |s.pool| <= GivenOut(threads, counter, size, labels, k) <= n / |s.pool| + if n % |s.pool| == 0 then 0 else 1
  {
    TicketsAreConsecutive(threads, counter, size, labels);
    GivenOutIsHanded(threads, counter, size, labels, k);
    var s := After(threads, counter, size, labels).value;
    PoolBalance(s.ledger.base, s.ledger.taken, |s.pool|, k);
  }

  /** A thread leaves the pool as it is; its ticket, if it takes one, is the next. */
  lemma ThreadLabelKeepsPool(s: State, l: Label, size: nat, k: nat)
    requires Enabled(s, l, size) && ByThread(l) && k < |s.pool|
    requires s.counter == s.ledger.base + s.ledger.taken && s.counter + 1 < TWO_64
    ensures
      var s' := Apply(s, l, size);
      && s'.pool == s.pool && s'.ledger.base == s.ledger.base
      && Handed(s.ledger.base, s'.ledger.taken, |s.pool|, k) ==
        Handed(s.ledger.base, s.ledger.taken, |s.pool|, k) + Given(s', l, k)
  {
    hide Slot;
  }

  lemma {:induction false} GivenOutIsHanded(threads: nat, counter: nat, size: nat, labels: seq<Label>, k: nat)
    requires After(threads, counter, size, labels).Some? && counter + |labels| < TWO_64
    requires k < |After(threads, counter, size, labels).value.pool|
    ensures
      var s := After(threads, counter, size, labels).value;
      GivenOut(threads, counter, size, labels, k) == Handed(s.ledger.base, s.ledger.taken, |s.pool|, k)
  {
    var before, l := labels[..|labels| - 1], labels[|labels| - 1];
    TicketsAreConsecutive(threads, counter, size, before);
    if ByThread(l) {
      hide Apply, Handed, Given, Enabled;
      ThreadLabelKeepsPool(After(threads, counter, size, before).value, l, size, k);
      GivenOutIsHanded(threads, counter, size, before, k);
    }
  }
}
