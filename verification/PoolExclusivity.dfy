/** The instance pool hands every thread an instance of its own. */
module PoolExclusivity {
  import opened Bytes
  import opened InstancePool
  import opened Wrappers

  // ----- exclusivity -----

  /** At most as many tickets as instances since the pool was last filled, and the counter has not wrapped. */
  predicate Fits(s: State) {
    s.ledger.taken <= |s.pool| && s.ledger.base + s.ledger.taken < TWO_64
  }

  /** The instance a ticket stands for. */
  function InstanceOf(pool: seq<nat>, ticket: nat): nat
    requires pool != []
  {
    pool[Slot(ticket, |pool|)]
  }

  /** A ticket holder is on its way to its instance, or caches it. */
  predicate HolderOk(s: State, t: nat)
    requires t in s.ledger.ticketOf
  {
    && t < |s.threads| && s.pool != []
    && s.ledger.base < s.ledger.ticketOf[t] <= s.ledger.base + s.ledger.taken
    && if s.threads[t].pc.HasIndex?
       then s.threads[t].pc.index == Slot(s.ledger.ticketOf[t], |s.pool|)
       else s.threads[t].cached == Some(InstanceOf(s.pool, s.ledger.ticketOf[t]))
  }

  /** Only ticket holders have an index, or cache an instance of the present pool. */
  predicate MemberOk(s: State, t: nat)
    requires t < |s.threads|
  {
    var th := s.threads[t];
    th.pc.HasIndex? || (th.cached.Some? && th.cached.value in s.pool) ==> t in s.ledger.ticketOf
  }

  ghost predicate Ledgered(s: State) {
    && |s.ledger.ticketOf| == s.ledger.taken
    && (Fits(s) ==> s.counter == s.ledger.base + s.ledger.taken)
    && (forall t :: t in s.ledger.ticketOf ==> HolderOk(s, t))
    && (forall t, u :: t in s.ledger.ticketOf && u in s.ledger.ticketOf && t != u ==>
      s.ledger.ticketOf[t] != s.ledger.ticketOf[u])
    && (forall t :: 0 <= t < |s.threads| ==> MemberOk(s, t))
  }

  /** A running thread runs the instance it caches. */
  predicate RunsCached(th: Thread) {
    th.pc.Running? ==> th.cached == Some(th.pc.instance)
  }

  ghost predicate Solo(s: State) {
    && (forall t :: 0 <= t < |s.threads| ==> RunsCached(s.threads[t]))
    && (forall t, u :: 0 <= t < u < |s.threads| && s.threads[t].cached.Some? ==> s.threads[t].cached != s.threads[u].cached)
  }

  lemma SameResidueFar(v: nat, w: nat, n: nat)
    requires v < w && 0 < n && v % n == w % n
    ensures v + n <= w
  {
    var q := w / n - v / n;
    assert w - v == q * n;
    assert q >= 1;
    assert q * n >= n;
  }

  lemma DifferentResidues(v: nat, w: nat, n: nat)
    requires v < w < v + n
    ensures Slot(v, n) != Slot(w, n)
  {
    if v % n == w % n {
      SameResidueFar(v, w, n);
    }
  }

  /** A thread asking for a ticket holds none. */
  lemma AskerHoldsNone(s: State, t: nat)
    requires Counted(s) && Expired(s) && Ledgered(s) && t < |s.threads| && s.threads[t].pc.NeedsTicket?
    ensures t !in s.ledger.ticketOf
  {
    if t in s.ledger.ticketOf {
      assert HolderOk(s, t) && ExpiredOk(s, t);
      PoolHolds(s, Slot(s.ledger.ticketOf[t], |s.pool|));
    }
  }

  /** The counter does not wrap while the next state still fits. */
  lemma NextTicket(s: State, l: Label, size: nat)
    requires Ledgered(s) && Fits(s) && l.Ticket? && Enabled(s, l, size) && Fits(Apply(s, l, size))
    ensures Apply(s, l, size).counter == s.counter + 1 == s.ledger.base + s.ledger.taken + 1
  {
    hide Slot, Increment;
  }

  lemma TicketKeepsHolders(s: State, l: Label, size: nat, t: nat)
    requires Ledgered(s) && Fits(s) && l.Ticket? && Enabled(s, l, size) && Fits(Apply(s, l, size))
    requires t in Apply(s, l, size).ledger.ticketOf
    ensures HolderOk(Apply(s, l, size), t)
  {
    NextTicket(s, l, size);
    hide Slot, Increment;
    if t != l.t {
      assert HolderOk(s, t);
    }
  }

  lemma TicketKeepsLedger(s: State, l: Label, size: nat)
    requires Counted(s) && Expired(s) && Ledgered(s) && Fits(s)
    requires l.Ticket? && Enabled(s, l, size) && Fits(Apply(s, l, size))
    ensures Ledgered(Apply(s, l, size))
  {
    hide Slot, Increment;
    AskerHoldsNone(s, l.t);
    NextTicket(s, l, size);
    var s' := Apply(s, l, size);
    forall t | t in s'.ledger.ticketOf
      ensures HolderOk(s', t)
    {
      TicketKeepsHolders(s, l, size, t);
    }
    forall t | 0 <= t < |s'.threads|
      ensures MemberOk(s', t)
    {
      assert MemberOk(s, t);
    }
    forall t | t in s.ledger.ticketOf
      ensures s.ledger.ticketOf[t] < s'.counter
    {
      assert HolderOk(s, t);
    }
    hide HolderOk, MemberOk, Counted, Expired;
  }

  lemma OtherLabelKeepsHolder(s: State, l: Label, size: nat, t: nat)
    requires Counted(s) && Expired(s) && Ledgered(s)
    requires !l.Ticket? && Enabled(s, l, size)
    requires t in Apply(s, l, size).ledger.ticketOf
    ensures HolderOk(Apply(s, l, size), t)
  {
    hide Slot, Counted, Expired;
    assert HolderOk(s, t);
  }

  lemma OtherLabelKeepsMember(s: State, l: Label, size: nat, t: nat)
    requires Counted(s) && Expired(s) && Ledgered(s)
    requires !l.Ticket? && Enabled(s, l, size) && t < |s.threads|
    ensures MemberOk(Apply(s, l, size), t)
  {
    hide HolderOk;
    assert MemberOk(s, t) && ThreadWithin(s.threads[t], |s.refs|);
  }

  lemma OtherLabelKeepsLedger(s: State, l: Label, size: nat)
    requires Counted(s) && Expired(s) && Ledgered(s) && Fits(s)
    requires !l.Ticket? && Enabled(s, l, size)
    ensures Ledgered(Apply(s, l, size))
  {
    var s' := Apply(s, l, size);
    forall t | t in s'.ledger.ticketOf
      ensures HolderOk(s', t)
    {
      OtherLabelKeepsHolder(s, l, size, t);
    }
    forall t | 0 <= t < |s'.threads|
      ensures MemberOk(s', t)
    {
      OtherLabelKeepsMember(s, l, size, t);
    }
    hide HolderOk, MemberOk, Counted, Expired;
  }

  /** The instance a thread fetches is cached by no other thread. */
  lemma FetchedIsFree(s: State, t: nat, u: nat)
    requires Counted(s) && Expired(s) && Ledgered(s) && Fits(s)
    requires t < |s.threads| && u < |s.threads| && t != u
    requires s.threads[t].pc.HasIndex? && s.threads[t].pc.index < |s.pool|
    ensures s.threads[u].cached != Some(s.pool[s.threads[t].pc.index])
  {
    var k := s.threads[t].pc.index;
    if s.threads[u].cached == Some(s.pool[k]) {
      PoolHolds(s, k);
      assert MemberOk(s, t) && MemberOk(s, u) && ExpiredOk(s, u);
      assert HolderOk(s, t) && HolderOk(s, u);
      var v, w := s.ledger.ticketOf[t], s.ledger.ticketOf[u];
      if v < w { DifferentResidues(v, w, |s.pool|); } else { DifferentResidues(w, v, |s.pool|); }
    }
  }

  lemma StepKeepsSolo(s: State, l: Label, size: nat)
    requires Counted(s) && Expired(s) && Ledgered(s) && Fits(s) && Solo(s)
    requires Enabled(s, l, size)
    ensures Solo(Apply(s, l, size))
  {
    hide Counted, Expired, Ledgered, Slot;
    var s' := Apply(s, l, size);
    forall t | 0 <= t < |s'.threads|
      ensures RunsCached(s'.threads[t])
    {
      assert RunsCached(s.threads[t]);
    }
    if l.Fetch? {
      forall u | 0 <= u < |s.threads| && u != l.t
        ensures s.threads[u].cached != s'.threads[l.t].cached
      {
        FetchedIsFree(s, l.t, u);
      }
    }
  }

  // ----- every run -----

  /** Every state of the run, its last included, has handed out no more tickets than instances. */
  ghost predicate AlwaysFits(threads: nat, counter: nat, size: nat, labels: seq<Label>)
    requires After(threads, counter, size, labels).Some?
  {
    && Fits(After(threads, counter, size, labels).value)
    && (labels != [] ==> AlwaysFits(threads, counter, size, labels[..|labels| - 1]))
  }

  ghost predicate Invariant(s: State) {
    Counted(s) && Expired(s) && Ledgered(s) && Solo(s)
  }

  lemma StepKeepsInvariant(s: State, l: Label, size: nat)
    requires Invariant(s) && Enabled(s, l, size) && Fits(s) && Fits(Apply(s, l, size))
    ensures Invariant(Apply(s, l, size))
  {
    hide Counted, Expired, Ledgered, Solo, Apply, Fits;
    StepKeepsExpired(s, l, size);
    StepKeepsSolo(s, l, size);
    if ByThread(l) { ThreadLabelKeepsCounted(s, l, size); } else { HostLabelKeepsCounted(s, l, size); }
    if l.Ticket? { TicketKeepsLedger(s, l, size); } else { OtherLabelKeepsLedger(s, l, size); }
  }

  lemma {:induction false} ReachableInvariant(threads: nat, counter: nat, size: nat, labels: seq<Label>)
    requires After(threads, counter, size, labels).Some? && AlwaysFits(threads, counter, size, labels)
    ensures Invariant(After(threads, counter, size, labels).value)
  {
    if labels != [] {
      var before, l := labels[..|labels| - 1], labels[|labels| - 1];
      ReachableInvariant(threads, counter, size, before);
      hide Invariant, Apply;
      StepKeepsInvariant(After(threads, counter, size, before).value, l, size);
    }
  }

  /** The instance a thread runs, has fetched or is about to fetch. */
  function Assigned(s: State, t: nat): Option<nat>
    requires t < |s.threads|
  {
    if s.threads[t].pc.HasIndex? && s.threads[t].pc.index < |s.pool| then Some(s.pool[s.threads[t].pc.index])
    else s.threads[t].cached
  }

  /** No two threads are assigned the same instance, so no two run the same one. */
  ghost predicate Exclusive(s: State) {
    && (forall t, u :: 0 <= t < |s.threads| && 0 <= u < |s.threads| && t != u ==> Apart(s, t, u))
    && (forall t :: 0 <= t < |s.threads| ==> RunsCached(s.threads[t]))
  }

  predicate Apart(s: State, t: nat, u: nat)
    requires t < |s.threads| && u < |s.threads|
  {
    Assigned(s, t).Some? ==> Assigned(s, t) != Assigned(s, u)
  }

  lemma HoldersApart(s: State, t: nat, u: nat)
    requires Ledgered(s) && Counted(s) && Fits(s) && t < |s.threads| && u < |s.threads| && t != u
    requires s.threads[t].pc.HasIndex? && s.threads[u].pc.HasIndex?
    ensures s.threads[t].pc.index != s.threads[u].pc.index
  {
    assert MemberOk(s, t) && MemberOk(s, u);
    assert HolderOk(s, t) && HolderOk(s, u);
    var v, w := s.ledger.ticketOf[t], s.ledger.ticketOf[u];
    if v < w { DifferentResidues(v, w, |s.pool|); } else { DifferentResidues(w, v, |s.pool|); }
  }

  lemma InvariantMeansApart(s: State, t: nat, u: nat)
    requires Invariant(s) && Fits(s) && t < |s.threads| && u < |s.threads| && t != u
    ensures Apart(s, t, u)
  {
    if s.threads[t].pc.HasIndex? && s.threads[t].pc.index < |s.pool| {
      FetchedIsFree(s, t, u);
      if s.threads[u].pc.HasIndex? && s.threads[u].pc.index < |s.pool| {
        HoldersApart(s, t, u);
      }
    } else if s.threads[u].pc.HasIndex? && s.threads[u].pc.index < |s.pool| {
      FetchedIsFree(s, u, t);
    }
  }

  lemma InvariantMeansExclusive(s: State)
    requires Invariant(s) && Fits(s)
    ensures Exclusive(s)
  {
    forall t, u | 0 <= t < |s.threads| && 0 <= u < |s.threads| && t != u
      ensures Apart(s, t, u)
    {
      InvariantMeansApart(s, t, u);
    }
  }

  /** Main result: in every interleaving that hands out no more tickets than instances, instances are exclusive. */
  lemma InstancesAreExclusive(threads: nat, counter: nat, size: nat, labels: seq<Label>)
    requires After(threads, counter, size, labels).Some? && AlwaysFits(threads, counter, size, labels)
    ensures Exclusive(After(threads, counter, size, labels).value)
  {
    hide Invariant, Exclusive;
    ReachableInvariant(threads, counter, size, labels);
    InvariantMeansExclusive(After(threads, counter, size, labels).value);
  }

  // ----- the bound on tickets is exact -----

  lemma {:induction false} InjectiveValues(m: map<nat, nat>)
    requires forall t, u :: t in m && u in m && t != u ==> m[t] != m[u]
    ensures |m.Values| == |m|
    decreases |m|
  {
    if m != map[] {
      var t :| t in m;
      var rest := m - {t};
      InjectiveValues(rest);
      forall v | v in m.Values
        ensures v in rest.Values + {m[t]}
      {
        var u :| u in m && m[u] == v;
        assert u == t || (u in rest && rest[u] == v);
      }
      assert m.Values == rest.Values + {m[t]};
      assert m[t] !in rest.Values;
    }
  }

  function Interval(base: nat, n: nat): (r: set<nat>)
    ensures |r| == n
    ensures forall v :: v in r <==> base < v <= base + n
  {
    if n == 0 then {} else Interval(base, n - 1) + {base + n}
  }

  lemma FullSubset(a: set<nat>, b: set<nat>)
    requires a <= b && |a| == |b|
    ensures a == b
  {
    assert b == a + (b - a);
  }

  lemma TicketsInRound(s: State)
    requires Ledgered(s)
    ensures s.ledger.ticketOf.Values <= Interval(s.ledger.base, s.ledger.taken)
    ensures |s.ledger.ticketOf.Values| == s.ledger.taken
  {
    var m := s.ledger.ticketOf;
    InjectiveValues(m);
    forall v | v in m.Values
      ensures v in Interval(s.ledger.base, s.ledger.taken)
    {
      var t :| t in m && m[t] == v;
      assert HolderOk(s, t);
    }
  }

  /** Every ticket of the round has its holder. */
  lemma EveryTicketHeld(s: State, ticket: nat) returns (u: nat)
    requires Ledgered(s)
    requires s.ledger.base < ticket <= s.ledger.base + s.ledger.taken
    ensures u in s.ledger.ticketOf && s.ledger.ticketOf[u] == ticket
  {
    TicketsInRound(s);
    hide Ledgered;
    FullSubset(s.ledger.ticketOf.Values, Interval(s.ledger.base, s.ledger.taken));
    assert ticket in s.ledger.ticketOf.Values;
    u :| u in s.ledger.ticketOf && s.ledger.ticketOf[u] == ticket;
  }

  lemma NextRoundSameSlot(v: nat, n: nat)
    requires n > 0
    ensures Slot(v, n) == Slot(v + n, n)
  {
    assert v + n == (v / n + 1) * n + v % n;
    QuotientOf(v + n, v / n + 1, v % n, n);
  }

  /** One ticket more than there are instances, and its taker is assigned an instance already taken. */
  lemma ExtraTicketCollides(s: State, l: Label, size: nat)
    requires Invariant(s) && Fits(s) && Enabled(s, l, size) && l.Ticket?
    requires s.ledger.taken == |s.pool| && s.counter + 1 < TWO_64
    ensures !Exclusive(Apply(s, l, size))
  {
    var s' := Apply(s, l, size);
    var first := s.ledger.base + 1;
    var u := EveryTicketHeld(s, first);
    AskerHoldsNone(s, l.t);
    NextRoundSameSlot(first, |s.pool|);
    assert HolderOk(s, u);
    hide Slot, Invariant, Increment;
    assert Assigned(s', u) == Some(s.pool[Slot(first, |s.pool|)]);
    assert Assigned(s', l.t) == Some(s.pool[Slot(first + |s.pool|, |s.pool|)]);
    assert !Apart(s', l.t, u);
  }

  /** Taking a ticket keeps instances exclusive exactly when the pool has one left for it. */
  lemma TicketKeepsExclusiveIff(s: State, l: Label, size: nat)
    requires Invariant(s) && Fits(s) && Enabled(s, l, size) && l.Ticket? && s.counter + 1 < TWO_64
    ensures Exclusive(Apply(s, l, size)) <==> s.ledger.taken < |s.pool|
  {
    if s.ledger.taken < |s.pool| {
      assert Fits(Apply(s, l, size));
      hide Invariant, Exclusive, Apply;
      StepKeepsInvariant(s, l, size);
      InvariantMeansExclusive(Apply(s, l, size));
    } else {
      ExtraTicketCollides(s, l, size);
    }
  }

  /** Every state of the run, its last included, is exclusive. */
  ghost predicate AlwaysExclusive(threads: nat, counter: nat, size: nat, labels: seq<Label>)
    requires After(threads, counter, size, labels).Some?
  {
    && Exclusive(After(threads, counter, size, labels).value)
    && (labels != [] ==> AlwaysExclusive(threads, counter, size, labels[..|labels| - 1]))
  }

  /** Only a ticket can break the bound. */
  lemma OnlyTicketsCount(s: State, l: Label, size: nat)
    requires Enabled(s, l, size) && Fits(s) && !l.Ticket? && s.counter < TWO_64
    ensures Fits(Apply(s, l, size))
  {
  }

  lemma TicketFitsIff(s: State, l: Label, size: nat)
    requires Enabled(s, l, size) && Fits(s) && l.Ticket? && s.counter + 1 < TWO_64
    requires s.counter == s.ledger.base + s.ledger.taken
    ensures Fits(Apply(s, l, size)) <==> s.ledger.taken < |s.pool|
  {
  }

  /** Main result: short of wraparound, a run is exclusive throughout exactly when it never outdraws the pool. */
  lemma {:induction false} ExclusiveIffFits(threads: nat, counter: nat, size: nat, labels: seq<Label>)
    requires After(threads, counter, size, labels).Some? && counter + |labels| < TWO_64
    ensures AlwaysExclusive(threads, counter, size, labels) <==> AlwaysFits(threads, counter, size, labels)
  {
    if labels == [] {
      assert AlwaysFits(threads, counter, size, labels);
      InstancesAreExclusive(threads, counter, size, labels);
    } else {
      var before, l := labels[..|labels| - 1], labels[|labels| - 1];
      ExclusiveIffFits(threads, counter, size, before);
      TicketsAreConsecutive(threads, counter, size, before);
      if AlwaysFits(threads, counter, size, before) {
        ReachableInvariant(threads, counter, size, before);
        var s := After(threads, counter, size, before).value;
        hide Invariant, Apply, Enabled, Exclusive;
        if l.Ticket? {
          TicketFitsIff(s, l, size);
          TicketKeepsExclusiveIff(s, l, size);
        } else {
          OnlyTicketsCount(s, l, size);
          InstancesAreExclusive(threads, counter, size, labels);
        }
      }
    }
  }

  /** The threads that took tickets since the pool was last cleared, read off the run. */
  function Takers(labels: seq<Label>): set<nat> {
    if labels == [] then {}
    else
      var before, l := labels[..|labels| - 1], labels[|labels| - 1];
      if l.Ticket? then Takers(before) + {l.t} else if ByThread(l) then Takers(before) else {}
  }

  /** In every state of the run, no more threads have taken tickets than the pool has instances. */
  ghost predicate FewTakers(threads: nat, counter: nat, size: nat, labels: seq<Label>)
    requires After(threads, counter, size, labels).Some?
  {
    && |Takers(labels)| <= |After(threads, counter, size, labels).value.pool|
    && (labels != [] ==> FewTakers(threads, counter, size, labels[..|labels| - 1]))
  }

  lemma {:induction false} TakersHoldTickets(threads: nat, counter: nat, size: nat, labels: seq<Label>)
    requires After(threads, counter, size, labels).Some?
    ensures After(threads, counter, size, labels).value.ledger.ticketOf.Keys == Takers(labels)
  {
    if labels != [] {
      hide Slot, Increment, ReleaseAll;
      TakersHoldTickets(threads, counter, size, labels[..|labels| - 1]);
    }
  }

  /** A state that fits has handed one ticket to each taker. */
  lemma OneTicketEach(threads: nat, counter: nat, size: nat, labels: seq<Label>)
    requires After(threads, counter, size, labels).Some? && AlwaysFits(threads, counter, size, labels)
    ensures After(threads, counter, size, labels).value.ledger.taken == |Takers(labels)|
  {
    ReachableInvariant(threads, counter, size, labels);
    TakersHoldTickets(threads, counter, size, labels);
    var m := After(threads, counter, size, labels).value.ledger.ticketOf;
    assert |m.Keys| == |m|;
  }

  /** A ticket goes to a new taker. */
  lemma TicketAddsTaker(threads: nat, counter: nat, size: nat, labels: seq<Label>)
    requires labels != [] && labels[|labels| - 1].Ticket?
    requires After(threads, counter, size, labels).Some?
    requires AlwaysFits(threads, counter, size, labels[..|labels| - 1])
    ensures |Takers(labels)| == |Takers(labels[..|labels| - 1])| + 1
  {
    var before, l := labels[..|labels| - 1], labels[|labels| - 1];
    ReachableInvariant(threads, counter, size, before);
    TakersHoldTickets(threads, counter, size, before);
    AskerHoldsNone(After(threads, counter, size, before).value, l.t);
  }

  /** Main result: a run is exclusive throughout exactly when no more threads take tickets than there are instances. */
  lemma {:induction false} ExclusiveIffFewTakers(threads: nat, counter: nat, size: nat, labels: seq<Label>)
    requires After(threads, counter, size, labels).Some? && counter + |labels| < TWO_64
    ensures FewTakers(threads, counter, size, labels) <==> AlwaysFits(threads, counter, size, labels)
    ensures FewTakers(threads, counter, size, labels) <==> AlwaysExclusive(threads, counter, size, labels)
  {
    ExclusiveIffFits(threads, counter, size, labels);
    if labels != [] {
      var before, l := labels[..|labels| - 1], labels[|labels| - 1];
      ExclusiveIffFewTakers(threads, counter, size, before);
      TicketsAreConsecutive(threads, counter, size, before);
      var s := After(threads, counter, size, before).value;
      hide Apply, Enabled, AlwaysExclusive;
      if AlwaysFits(threads, counter, size, before) {
        OneTicketEach(threads, counter, size, before);
        if l.Ticket? {
          TicketAddsTaker(threads, counter, size, labels);
          TicketFitsIff(s, l, size);
          TicketKeepsPool(s, l, size);
        } else {
          OnlyTicketsCount(s, l, size);
          OneTicketEach(threads, counter, size, labels);
        }
      }
    }
  }

  lemma TicketKeepsPool(s: State, l: Label, size: nat)
    requires Enabled(s, l, size) && l.Ticket?
    ensures Apply(s, l, size).pool == s.pool
  {
  }

  // ----- at most as many threads as instances -----

  /** Every load that fills the pool at all fills it with at least `room` instances. */
  predicate Roomy(room: nat, labels: seq<Label>) {
    forall i :: 0 <= i < |labels| && labels[i].Load? ==> labels[i].count == 0 || labels[i].count >= room
  }

  function Below(n: nat): (r: set<nat>)
    ensures |r| == n
    ensures forall k: nat :: k in r <==> k < n
  {
    if n == 0 then {} else Below(n - 1) + {n - 1}
  }

  lemma SubsetCard(a: set<nat>, b: set<nat>)
    requires a <= b
    ensures |a| <= |b|
  {
    assert b == a + (b - a);
  }

  lemma HoldersAmongOthers(s: State, t: nat)
    requires Ledgered(s) && t < |s.threads| && t !in s.ledger.ticketOf
    ensures s.ledger.taken < |s.threads|
  {
    var keys := s.ledger.ticketOf.Keys;
    forall k | k in keys
      ensures k in Below(|s.threads|) - {t}
    {
      assert HolderOk(s, k);
    }
    assert |keys| == |s.ledger.ticketOf|;
    SubsetCard(keys, Below(|s.threads|) - {t});
  }

  /** A thread takes one ticket per filling of the pool, so the bound holds when threads do not outnumber instances. */
  lemma {:induction false} FewThreadsFit(threads: nat, counter: nat, size: nat, labels: seq<Label>)
    requires After(threads, counter, size, labels).Some?
    requires Roomy(threads, labels) && counter + |labels| < TWO_64
    ensures AlwaysFits(threads, counter, size, labels)
    ensures
      var s := After(threads, counter, size, labels).value;
      (s.pool == [] || |s.pool| >= threads) && s.counter <= counter + |labels|
  {
    if labels != [] {
      var before, l := labels[..|labels| - 1], labels[|labels| - 1];
      FewThreadsFit(threads, counter, size, before);
      ReachableInvariant(threads, counter, size, before);
      ReachableCounted(threads, counter, size, before);
      var s := After(threads, counter, size, before).value;
      if l.Ticket? {
        AskerHoldsNone(s, l.t);
        HoldersAmongOthers(s, l.t);
      }
      hide Counted, Expired, Solo, Slot;
      assert l == labels[|before|];
    }
  }
}
