/** What the nodegroup provider remembers of the operator's refusals: quota rejections and flavor
    hold-outs (pkg/providers/nodegroup/nodegroup.go). The functions here are the specification the
    Provider class and the launch protocol are both proved against. Times are nanoseconds. */
module RefusalMemory {
  import opened Base
  import opened Catalogue

  const QUOTA_BACKOFF: nat := 60_000_000_000
  const FLAVOR_BACKOFF: nat := 300_000_000_000

  datatype QuotaRejection = QuotaRejection(at: nat, message: string, number: nat, size: Sizing, sized: bool)

  datatype HoldOut = HoldOut(at: nat, number: nat)

  datatype Memory = Memory(
    quota: map<string, QuotaRejection>, quotaNumber: nat,
    holds: map<string, HoldOut>, holdNumber: nat)

  const EMPTY := Memory(map[], 0, map[], 0)

  function NewRejection(m: Memory, sizes: Sizes, flavor: string, message: string, now: nat): QuotaRejection {
    QuotaRejection(now, message, m.quotaNumber + 1, SizeOf(sizes, flavor), flavor in sizes)
  }

  function RecordQuota(m: Memory, sizes: Sizes, flavor: string, message: string, now: nat): Memory {
    m.(quotaNumber := m.quotaNumber + 1,
       quota := m.quota[flavor := NewRejection(m, sizes, flavor, message, now)])
  }

  function ClearQuota(m: Memory, mark: nat): Memory {
    m.(quota := map f | f in m.quota && m.quota[f].number > mark :: m.quota[f])
  }

  function RecordHold(m: Memory, flavor: string, now: nat): Memory {
    m.(holdNumber := m.holdNumber + 1, holds := m.holds[flavor := HoldOut(now, m.holdNumber + 1)])
  }

  function ReleaseHold(m: Memory, flavor: string, mark: nat): Memory {
    if flavor in m.holds && m.holds[flavor].number <= mark then m.(holds := m.holds - {flavor}) else m
  }

  /** Until when a rejection of `rejected` keeps `flavor` unavailable, if it covers it at all. */
  function Coverage(r: QuotaRejection, rejected: string, flavor: string, size: Sizing, sized: bool): Option<nat> {
    if rejected == flavor then Some(r.at + QUOTA_BACKOFF)
    else if sized && r.sized && AtLeast(size, r.size) then Some(r.at + 2 * QUOTA_BACKOFF)
    else None
  }

  predicate InForce(r: QuotaRejection, rejected: string, flavor: string, size: Sizing, sized: bool, now: nat) {
    var end := Coverage(r, rejected, flavor, size, sized);
    end.Some? && now < end.value
  }

  /** The quota part of Unavailable: some remembered rejection is in force for the flavor. */
  predicate QuotaCovers(m: Memory, sizes: Sizes, flavor: string, now: nat) {
    exists rejected :: rejected in m.quota
                       && InForce(m.quota[rejected], rejected, flavor, SizeOf(sizes, flavor), flavor in sizes, now)
  }

  predicate HeldOut(m: Memory, flavor: string, now: nat) {
    flavor in m.holds && now - m.holds[flavor].at < FLAVOR_BACKOFF
  }

  predicate Unavailable(m: Memory, sizes: Sizes, flavor: string, now: nat) {
    HeldOut(m, flavor, now) || QuotaCovers(m, sizes, flavor, now)
  }

  /** The rejection that keeps a flavor unavailable the longest, ties broken by name. */
  ghost predicate Covering(quota: map<string, QuotaRejection>, flavor: string, size: Sizing, sized: bool, now: nat,
      cause: string)
  {
    && cause in quota
    && InForce(quota[cause], cause, flavor, size, sized, now)
    && forall other | other in quota && InForce(quota[other], other, flavor, size, sized, now) ::
         Outlasts(quota, flavor, size, sized, cause, other)
  }

  predicate Outlasts(quota: map<string, QuotaRejection>, flavor: string, size: Sizing, sized: bool, cause: string,
      other: string)
    requires cause in quota && Coverage(quota[cause], cause, flavor, size, sized).Some?
    requires other in quota && Coverage(quota[other], other, flavor, size, sized).Some?
  {
    var end := Coverage(quota[cause], cause, flavor, size, sized).value;
    var otherEnd := Coverage(quota[other], other, flavor, size, sized).value;
    end > otherEnd || (end == otherEnd && (cause == other || StringLess(cause, other)))
  }

  /** The answer does not depend on the order the map is walked in. */
  lemma CoveringIsUnique(quota: map<string, QuotaRejection>, flavor: string, size: Sizing, sized: bool, now: nat,
      a: string, b: string)
    requires Covering(quota, flavor, size, sized, now, a) && Covering(quota, flavor, size, sized, now, b)
    ensures a == b
  {
    assert Outlasts(quota, flavor, size, sized, a, b) && Outlasts(quota, flavor, size, sized, b, a);
    StringLessIsTotal(a, b);
  }

  /** Every record carries the catalogue's own sizing of the flavor it rejected. */
  predicate SizedBy(m: Memory, sizes: Sizes) {
    forall f | f in m.quota :: m.quota[f].sized == (f in sizes) && m.quota[f].size == SizeOf(sizes, f)
  }

  /** Coverage is upward closed: while a rejection keeps a sized flavor unavailable, some rejection
      keeps every strictly larger sized flavor unavailable, now and at any later instant the memory
      lasts. Equivalently, whatever the quota leaves available, everything smaller is available too. */
  lemma CoverageIsUpwardClosed(m: Memory, sizes: Sizes, smaller: string, larger: string, now: nat)
    requires SizedBy(m, sizes)
    requires smaller in sizes && larger in sizes
    requires AtLeast(sizes[larger], sizes[smaller]) && sizes[larger] != sizes[smaller]
    requires QuotaCovers(m, sizes, smaller, now)
    ensures QuotaCovers(m, sizes, larger, now)
  {
    var cause :| cause in m.quota
        && InForce(m.quota[cause], cause, smaller, SizeOf(sizes, smaller), smaller in sizes, now);
    assert cause != larger;
    assert InForce(m.quota[cause], cause, larger, SizeOf(sizes, larger), larger in sizes, now);
  }

  /** Exactly where the carrying stops, among flavors at least as large: at a twin of the same size, in
      the second window after its own rejection, when nothing else covers it. */
  lemma CoverageGap(m: Memory, sizes: Sizes, smaller: string, larger: string, now: nat)
    requires SizedBy(m, sizes)
    requires smaller in sizes && larger in sizes && smaller != larger && AtLeast(sizes[larger], sizes[smaller])
    ensures QuotaCovers(m, sizes, smaller, now) && !QuotaCovers(m, sizes, larger, now) <==>
      && sizes[smaller] == sizes[larger]
      && larger in m.quota && m.quota[larger].at + QUOTA_BACKOFF <= now < m.quota[larger].at + 2 * QUOTA_BACKOFF
      && (forall other | other in m.quota && other != larger ::
            !InForce(m.quota[other], other, larger, sizes[larger], true, now))
  {
    if QuotaCovers(m, sizes, smaller, now) {
      var cause :| cause in m.quota
          && InForce(m.quota[cause], cause, smaller, SizeOf(sizes, smaller), smaller in sizes, now);
      if cause != larger {
        assert InForce(m.quota[cause], cause, larger, SizeOf(sizes, larger), larger in sizes, now);
      }
    }
    if larger in m.quota && sizes[smaller] == sizes[larger] && now < m.quota[larger].at + 2 * QUOTA_BACKOFF {
      assert InForce(m.quota[larger], larger, smaller, SizeOf(sizes, smaller), smaller in sizes, now);
    }
  }

  /** Among flavors of one size it is not: the rejected one reopens first, on its own, while its
      twin of another name stays covered for a second window. */
  lemma TwinsReopenApart(sizes: Sizes, rejected: string, twin: string, message: string, at: nat, now: nat)
    requires rejected in sizes && twin in sizes && rejected != twin && sizes[rejected] == sizes[twin]
    ensures var m := RecordQuota(EMPTY, sizes, rejected, message, at);
            && (QuotaCovers(m, sizes, rejected, now) <==> now < at + QUOTA_BACKOFF)
            && (QuotaCovers(m, sizes, twin, now) <==> now < at + 2 * QUOTA_BACKOFF)
  {
    var m := RecordQuota(EMPTY, sizes, rejected, message, at);
    assert m.quota.Keys == {rejected};
    if now < at + QUOTA_BACKOFF {
      assert InForce(m.quota[rejected], rejected, rejected, SizeOf(sizes, rejected), true, now);
    }
    if now < at + 2 * QUOTA_BACKOFF {
      assert InForce(m.quota[rejected], rejected, twin, SizeOf(sizes, twin), true, now);
    }
  }

  /** One rejection, exactly: its flavor for a minute, every other sized flavor with at least as many vCPUs
      and as much memory for two, and nothing else. */
  lemma OneRejectionCovers(sizes: Sizes, rejected: string, message: string, at: nat, flavor: string, now: nat)
    ensures QuotaCovers(RecordQuota(EMPTY, sizes, rejected, message, at), sizes, flavor, now) <==>
      if flavor == rejected then now < at + 60_000_000_000
      else flavor in sizes && rejected in sizes && sizes[flavor].cpu >= sizes[rejected].cpu
           && sizes[flavor].memoryKi >= sizes[rejected].memoryKi && now < at + 120_000_000_000
  {
    var m := RecordQuota(EMPTY, sizes, rejected, message, at);
    assert m.quota.Keys == {rejected};
    if InForce(m.quota[rejected], rejected, flavor, SizeOf(sizes, flavor), flavor in sizes, now) {
      assert QuotaCovers(m, sizes, flavor, now);
    }
  }

  /** One hold-out, exactly: its flavor and no other, for five minutes. */
  lemma OneHoldOutHolds(sizes: Sizes, held: string, at: nat, flavor: string, now: nat)
    ensures Unavailable(RecordHold(EMPTY, held, at), sizes, flavor, now) <==>
            flavor == held && now < at + 300_000_000_000
  {
  }
}
