/** When a sweep removes an entry and when a read still serves it. */
module Expiry {
  import opened Options
  import opened Residents
  import opened ShardState

  const U64_MAX: nat := 0xFFFF_FFFF_FFFF_FFFF

  datatype ExpiredBy = Ttl | Tti

  function SaturatingAdd(a: nat, b: nat): (r: nat)
  {
    if a + b <= U64_MAX then a + b else U64_MAX
  }

  function WrappingAdd(a: nat, b: nat): (r: nat)
  {
    (a + b) % (U64_MAX + 1)
  }

  predicate IsIdle<V>(e: Entry<V>, now: nat, tti: nat)
  {
    tti > 0 && now >= SaturatingAdd(e.lastAccessed, tti)
  }

  /** The limit a sweep at `now` removes the entry for, if any. */
  function Limit<V>(e: Entry<V>, now: nat, grace: nat, tti: nat): (limit: Option<ExpiredBy>)
  {
    if e.expiresAt > 0 && now >= SaturatingAdd(e.expiresAt, grace) then Some(Ttl)
    else if IsIdle(e, now, tti) then Some(if e.expiresAt > 0 && now >= e.expiresAt then Ttl else Tti)
    else None
  }

  /** A sweep removes an entry past its TTL and grace or past its idle limit, where a limit beyond the last instant is
        that instant; and it reports the TTL if and only if the entry is past it, in its grace period or not. */
  lemma SweptForWhatEndedIt<V>(e: Entry<V>, now: nat, grace: nat, tti: nat)
    requires e.expiresAt <= U64_MAX && now <= U64_MAX
    ensures var limit := Limit(e, now, grace, tti);
            && (limit.Some? <==> || (e.expiresAt > 0 && (now >= e.expiresAt + grace || now == U64_MAX))
                                 || (tti > 0 && (now >= e.lastAccessed + tti || now == U64_MAX)))
            && (limit.Some? ==> (limit.value == Ttl <==> e.expiresAt > 0 && now >= e.expiresAt))
  {
  }

  /** The read-side test. */
  predicate IsExpiredAt<V>(e: Entry<V>, tti: Option<nat>, now: nat)
  {
    || (e.expiresAt > 0 && now >= e.expiresAt)
    || (tti.Some? && now >= WrappingAdd(e.lastAccessed, tti.value))
  }

  /** A load-through read serves an entry past its TTL during the grace period. */
  predicate ServedStale<V>(e: Entry<V>, now: nat, grace: nat)
  {
    e.expiresAt > 0 && e.expiresAt <= now < WrappingAdd(e.expiresAt, grace)
  }

  ghost predicate InRange<V>(e: Entry<V>)
  {
    e.expiresAt <= U64_MAX && e.lastAccessed <= U64_MAX
  }

  /** A sweep removes nothing a plain read at that time would still serve. */
  lemma SweepSparesLiveEntries<V>(e: Entry<V>, now: nat, grace: nat, tti: Option<nat>)
    requires InRange(e) && now <= U64_MAX && (tti.Some? ==> tti.value <= U64_MAX)
    ensures Limit(e, now, grace, if tti.Some? then tti.value else 0).Some? ==> IsExpiredAt(e, tti, now)
  {
    if tti.Some? && e.lastAccessed + tti.value > U64_MAX {
      assert WrappingAdd(e.lastAccessed, tti.value) <= U64_MAX;
    }
  }

  /** The idle tests agree: the sweep takes no limit for a limit of 0, and saturates where the read wraps. */
  predicate IdleTestsAgree(lastAccessed: nat, tti: nat, now: nat)
  {
    if tti == 0 then now < lastAccessed
    else lastAccessed + tti <= U64_MAX || now == U64_MAX || now < lastAccessed + tti - (U64_MAX + 1)
  }

  /** Without a grace period, sweep and read agree on an entry if and only if it is past its TTL or its idle tests
        agree. */
  lemma SweepMatchesReads<V>(e: Entry<V>, now: nat, tti: Option<nat>)
    requires InRange(e) && now <= U64_MAX && (tti.Some? ==> tti.value <= U64_MAX)
    ensures var swept := Limit(e, now, 0, if tti.Some? then tti.value else 0).Some?;
            (swept <==> IsExpiredAt(e, tti, now))
            <==> (tti.None? || (e.expiresAt > 0 && now >= e.expiresAt) ||
                  IdleTestsAgree(e.lastAccessed, tti.value, now))
  {
    if tti.Some? && e.lastAccessed + tti.value > U64_MAX {
      WrapsOnce(e.lastAccessed, tti.value);
    }
  }

  lemma WrapsOnce(a: nat, b: nat)
    requires a <= U64_MAX && b <= U64_MAX && a + b > U64_MAX
    ensures WrappingAdd(a, b) == a + b - (U64_MAX + 1) < U64_MAX
  {
  }

  /** An entry that a read calls expired and the sweep keeps: its idle limit overflows. */
  lemma TheSweepKeepsAnOverflowingLimit()
    ensures var e := Entry(0, 1, 0, 5, 0, NodeId(0, 0), None);
            IsExpiredAt(e, Some(U64_MAX), 5) && Limit(e, 5, 0, U64_MAX) == None
  {
  }

  /** An entry a load-through read would still serve stale is swept exactly when it is idle. */
  lemma StaleEntriesAreSweptWhenIdle<V>(e: Entry<V>, now: nat, grace: nat, tti: nat)
    requires InRange(e) && now <= U64_MAX && grace <= U64_MAX && ServedStale(e, now, grace)
    ensures Limit(e, now, grace, tti).Some? <==> IsIdle(e, now, tti)
  {
    if e.expiresAt + grace > U64_MAX {
      WrapsOnce(e.expiresAt, grace);
    }
  }

  /** Where no limit overflows: an entry with a deadline that is not idle is live before it, served stale by
        load-through reads from there to the end of its grace period, and swept after that. */
  lemma LiveStaleOrSwept<V>(e: Entry<V>, now: nat, grace: nat, tti: nat)
    requires e.expiresAt > 0 && e.expiresAt + grace < U64_MAX && now <= U64_MAX && !IsIdle(e, now, tti)
    ensures !IsExpiredAt(e, None, now) <==> now < e.expiresAt
    ensures ServedStale(e, now, grace) <==> e.expiresAt <= now < e.expiresAt + grace
    ensures Limit(e, now, grace, tti).Some? <==> e.expiresAt + grace <= now
  {
  }

  /** So the sweep can take an entry away from a stale read. */
  lemma IdleStaleEntryIsSwept()
    ensures var e := Entry(0, 1, 100, 0, 0, NodeId(0, 0), Some(0));
            ServedStale(e, 150, 100) && Limit(e, 150, 100, 120) == Some(Ttl)
  {
  }
}
