/** Who the pool's evictions can reach: the robustness of the median, the size of one pass, the
    choice made by age, and how stale a settled answer can be. */
module Eviction {
  import opened Prelude
  import opened Net
  import opened Frames
  import opened Median
  import opened PeerPool
  import opened SetAgreement
  import opened SetRound

  // ---------------------------------------------------------------------------
  // Lag eviction
  // ---------------------------------------------------------------------------

  /** How many of the announced peaks lie in `[low, high]`. */
  function Within(announced: seq<nat>, low: int, high: int): int
  {
    CountAbove(announced, low - 1) - CountAbove(announced, high)
  }

  lemma {:induction false} AnnouncedMembers(entries: Entries)
    ensures forall e :: e in entries && e.origin.Discovered? && e.lastPeak > 0 ==>
      e.lastPeak in AnnouncedPeaks(entries)
    ensures |AnnouncedPeaks(entries)| <= |entries|
  {
    if entries != [] {
      AnnouncedMembers(entries[..|entries| - 1]);
      assert entries == entries[..|entries| - 1] + [entries[|entries| - 1]];
    }
  }

  /** Whatever the rest of the pool announces, if at least half of the announcing discovered peers lie
      within a window of the eviction bar, no peer in the window or above it is evicted. */
  lemma {:induction false} AWindowHoldingHalfIsSafe(entries: Entries, low: nat, e: PeerEntry)
    requires e in entries && e.lastPeak >= low
    requires var announced := AnnouncedPeaks(entries);
      2 * Within(announced, low, low + PEAK_LAG_EVICTION) >= |announced|
    ensures e in WithoutLagging(entries)
  {
    var announced := AnnouncedPeaks(entries);
    var reference := ReferencePeak(announced);
    if reference.Some? {
      CountIsBounded(announced, low - 1);
      ReferenceExceedsIffMajority(announced, low + PEAK_LAG_EVICTION);
      FilterMembers(entries, (x: PeerEntry) => !Lagging(x, reference.value));
    }
  }

  /** What a pass keeps, counted against a fixed reference. */
  lemma {:induction false} KeptByCounting(entries: Entries, reference: nat, h: int)
    requires h >= reference - PEAK_LAG_EVICTION - 1
    ensures var kept := Filter(entries, (e: PeerEntry) => !Lagging(e, reference));
      var announced := AnnouncedPeaks(entries);
      var bar := reference - PEAK_LAG_EVICTION - 1;
      && |kept| == |entries| - (|announced| - CountAbove(announced, bar))
      && |AnnouncedPeaks(kept)| == CountAbove(announced, bar)
      && CountAbove(AnnouncedPeaks(kept), h) == CountAbove(announced, h)
  {
    if entries != [] {
      var n := |entries| - 1;
      KeptByCounting(entries[..n], reference, h);
      var e := entries[n];
      var before := Filter(entries[..n], (x: PeerEntry) => !Lagging(x, reference));
      var announced := AnnouncedPeaks(entries[..n]);
      assert (before + [e])[..|before|] == before;
      assert (announced + [e.lastPeak])[..|announced|] == announced;
      var kept := AnnouncedPeaks(before);
      assert (kept + [e.lastPeak])[..|kept|] == kept;
    }
  }

  /** One pass removes fewer than half of the announcing discovered peers and never lowers the
      reference of those that remain. */
  lemma {:induction false} APassRemovesAMinority(entries: Entries)
    ensures var announced := AnnouncedPeaks(entries);
      var after := WithoutLagging(entries);
      && (announced == [] ==> after == entries)
      && (announced != [] ==>
           && |entries| - |after| <= (|announced| - 1) / 2
           && AnnouncedPeaks(after) != []
           && ReferencePeak(AnnouncedPeaks(after)).value >= ReferencePeak(announced).value)
  {
    var announced := AnnouncedPeaks(entries);
    if announced != [] {
      var reference := ReferencePeak(announced).value;
      var bar := reference - PEAK_LAG_EVICTION - 1;
      KeptByCounting(entries, reference, reference - 1);
      ReferenceExceedsIffMajority(announced, reference - 1);
      CountIsAntitone(announced, bar, reference - 1);
      var remaining := AnnouncedPeaks(WithoutLagging(entries));
      CountIsBounded(announced, bar);
      CountIsBounded(remaining, reference - 1);
      ReferenceExceedsIffMajority(remaining, reference - 1);
    }
  }

  /** Eviction judges discovered peers that have spoken, and no others: what it removes trails the
      reference by more than the bar, what it keeps does not. */
  lemma {:induction false} EvictionIsExact(entries: Entries, e: PeerEntry)
    requires e in entries
    ensures var reference := ReferencePeak(AnnouncedPeaks(entries));
      e !in WithoutLagging(entries) <==>
      (reference.Some? && e.origin.Discovered? && e.lastPeak > 0
       && e.lastPeak + PEAK_LAG_EVICTION < reference.value)
  {
    var reference := ReferencePeak(AnnouncedPeaks(entries));
    if reference.Some? {
      FilterMembers(entries, (x: PeerEntry) => !Lagging(x, reference.value));
    }
  }

  /** The discovered peers that have announced a peak above `h`, by position. */
  function AnnouncedAbove(entries: Entries, h: nat): set<nat>
  {
    set i: nat | i < |entries| && entries[i].origin.Discovered? && entries[i].lastPeak > h
  }

  lemma {:induction false} OneMoreAnnounced(entries: Entries, h: nat)
    requires entries != []
    ensures var n := |entries| - 1;
      |AnnouncedAbove(entries, h)| == |AnnouncedAbove(entries[..n], h)|
        + if entries[n].origin.Discovered? && entries[n].lastPeak > h then 1 else 0
  {
    var n := |entries| - 1;
    var before, after := AnnouncedAbove(entries[..n], h), AnnouncedAbove(entries, h);
    assert n !in before;
    assert after == before + if entries[n].origin.Discovered? && entries[n].lastPeak > h then {n} else {};
  }

  lemma {:induction false} CountOfOneMore(rest: seq<nat>, x: nat, h: nat)
    ensures CountAbove(rest + [x], h) == CountAbove(rest, h) + if x > h then 1 else 0
  {
    assert (rest + [x])[..|rest|] == rest;
  }

  lemma {:induction false} AnnouncedAboveCount(entries: Entries, h: nat)
    ensures |AnnouncedAbove(entries, h)| == CountAbove(AnnouncedPeaks(entries), h)
  {
    if entries == [] {
      assert AnnouncedAbove(entries, h) == {};
    } else {
      var n := |entries| - 1;
      AnnouncedAboveCount(entries[..n], h);
      OneMoreAnnounced(entries, h);
      CountOfOneMore(AnnouncedPeaks(entries[..n]), entries[n].lastPeak, h);
    }
  }

  lemma {:induction false} AnnouncersCount(entries: Entries)
    ensures |AnnouncedAbove(entries, 0)| == |AnnouncedPeaks(entries)|
  {
    if entries == [] {
      assert AnnouncedAbove(entries, 0) == {};
    } else {
      AnnouncersCount(entries[..|entries| - 1]);
      OneMoreAnnounced(entries, 0);
    }
  }

  /** A pass removes a discovered peer that has announced if and only if more than half of those that have
      are more than six blocks ahead of it; and nobody else. */
  lemma {:induction false} EvictedIffMostAreFarAhead(entries: Entries, e: PeerEntry)
    ensures e in WithoutLagging(entries) <==>
      e in entries
      && !(e.origin.Discovered? && e.lastPeak > 0
           && 2 * |AnnouncedAbove(entries, e.lastPeak + 6)| > |AnnouncedAbove(entries, 0)|)
  {
    var announced := AnnouncedPeaks(entries);
    AnnouncedAboveCount(entries, e.lastPeak + 6);
    AnnouncersCount(entries);
    if announced != [] {
      ReferenceExceedsIffMajority(announced, e.lastPeak + 6);
      FilterMembers(entries, (x: PeerEntry) => !Lagging(x, ReferencePeak(announced).value));
    }
  }

  // ---------------------------------------------------------------------------
  // Rotation by age
  // ---------------------------------------------------------------------------

  lemma {:induction false} LaggardsAreReported(entries: Entries, reference: nat, address: SocketAddr)
    ensures address in LaggingAddresses(entries, reference)
      <==> exists e :: e in entries && e.address == address && Lagging(e, reference)
  {
    if entries != [] {
      var n := |entries| - 1;
      LaggardsAreReported(entries[..n], reference, address);
      assert entries == entries[..n] + [entries[n]];
      assert entries[n] in entries;
      if e :| e in entries[..n] && e.address == address && Lagging(e, reference) {
        assert e in entries;
      }
    }
  }

  /** The addresses a pass reports are exactly those that it leaves no longer held. */
  lemma {:induction false} EvictedAreNoLongerHeld(entries: Entries, address: SocketAddr)
    requires DistinctAddresses(entries)
    ensures address in Evicted(entries) <==> Holds(entries, address) && !Holds(WithoutLagging(entries), address)
  {
    var reference := ReferencePeak(AnnouncedPeaks(entries));
    if reference.Some? {
      LaggardsAreReported(entries, reference.value, address);
      FilterMembers(entries, (e: PeerEntry) => !Lagging(e, reference.value));
      if e :| e in entries && e.address == address {
        OneEntryAt(entries, e);
      }
    }
  }

  lemma {:induction false} OneEntryAt(entries: Entries, e: PeerEntry)
    requires DistinctAddresses(entries) && e in entries
    ensures forall x :: x in entries && x.address == e.address ==> x == e
  {
    var i :| 0 <= i < |entries| && entries[i] == e;
    forall x | x in entries && x.address == e.address
      ensures x == e
    {
      var j :| 0 <= j < |entries| && entries[j] == x;
    }
  }

  lemma {:induction false} OldestIsOldest(entries: Entries, now: nat)
    ensures var i := OldestExpired(entries, now);
      && (i.None? <==> forall e :: e in entries ==> !Expired(e, now))
      && (i.Some? ==>
           && Expired(entries[i.value], now)
           && (forall j :: 0 <= j < |entries| && Expired(entries[j], now) ==>
                entries[i.value].admittedAt <= entries[j].admittedAt)
           && (forall j :: 0 <= j < i.value && Expired(entries[j], now) ==>
                entries[i.value].admittedAt < entries[j].admittedAt))
  {
    if entries != [] {
      var n := |entries| - 1;
      OldestIsOldest(entries[..n], now);
      assert entries == entries[..n] + [entries[n]];
      forall j | 0 <= j < n
        ensures entries[j] in entries[..n]
      {
      }
    }
  }

  /** A discovered peer that has been held for five minutes or more. */
  predicate OverAge(e: PeerEntry, now: nat) { e.origin.Discovered? && e.admittedAt + 300 <= now }

  /** Nothing goes unless a discovered peer is over age; then the one of those admitted first, the earlier
      listed on a tie. */
  ghost predicate RotatesTheOldest(entries: Entries, after: Entries, now: nat)
  {
    if forall e :: e in entries ==> !OverAge(e, now) then after == entries
    else
      exists i ::
        && 0 <= i < |entries|
        && after == entries[..i] + entries[i + 1..]
        && OverAge(entries[i], now)
        && (forall j :: 0 <= j < |entries| && OverAge(entries[j], now) ==>
             entries[i].admittedAt <= entries[j].admittedAt)
        && (forall j :: 0 <= j < i && OverAge(entries[j], now) ==>
             entries[i].admittedAt < entries[j].admittedAt)
  }

  /** A rotation removes one entry or none: none exactly when no discovered peer is over age, and
      otherwise the discovered peer over age that was admitted first, the earlier listed on a tie. */
  lemma {:induction false} RotationTakesTheOldest(entries: Entries, now: nat)
    ensures RotatesTheOldest(entries, WithoutOldest(entries, now), now)
    ensures WithoutOldest(entries, now) == entries <==> forall e :: e in entries ==> !OverAge(e, now)
  {
    assert forall e :: OverAge(e, now) <==> Expired(e, now);
    OldestIsOldest(entries, now);
    var i := OldestExpired(entries, now);
    if i.Some? {
      assert entries[i.value] in entries;
      assert |WithoutOldest(entries, now)| == |entries| - 1;
    }
  }

  // ---------------------------------------------------------------------------
  // A whole pass
  // ---------------------------------------------------------------------------

  /** Some arrival became this entry: new to the pool, silent so far, and admitted now. */
  predicate SeatedFrom(arrivals: seq<Arrival>, e: PeerEntry, now: nat)
  {
    && e.lastPeak == 0 && e.admittedAt == now
    && exists i :: 0 <= i < |arrivals|
         && arrivals[i].address == e.address && arrivals[i].session == e.session && arrivals[i].origin == e.origin
  }

  /** The refill keeps what it finds, seats arrivals behind it, and leaves one out only if its address is
      held or the pool is full. */
  ghost predicate Refills(before: Entries, after: Entries, maxPeers: nat, arrivals: seq<Arrival>, now: nat)
  {
    && before <= after && (|after| > |before| ==> |after| <= maxPeers)
    && (forall k :: |before| <= k < |after| ==> SeatedFrom(arrivals, after[k], now))
    && (forall i :: 0 <= i < |arrivals| ==> Holds(after, arrivals[i].address) || |after| >= maxPeers)
  }

  lemma {:induction false} TheRefillRefills(entries: Entries, maxPeers: nat, arrivals: seq<Arrival>, now: nat)
    ensures Refills(entries, AdmitAll(entries, maxPeers, arrivals, now), maxPeers, arrivals, now)
  {
    if arrivals != [] {
      var n := |arrivals| - 1;
      TheRefillRefills(entries, maxPeers, arrivals[..n], now);
      OneMoreRefill(entries, AdmitAll(entries, maxPeers, arrivals[..n], now), maxPeers, arrivals, now);
    }
  }

  lemma {:induction false} OneMoreRefill(
      entries: Entries, rest: Entries, maxPeers: nat, arrivals: seq<Arrival>, now: nat)
    requires arrivals != [] && Refills(entries, rest, maxPeers, arrivals[..|arrivals| - 1], now)
    ensures var a := arrivals[|arrivals| - 1];
      Refills(
        entries,
        if Admissible(rest, maxPeers, a.address) then rest + [PeerEntry(a.address, a.session, a.origin, 0, now)]
        else rest,
        maxPeers, arrivals, now)
  {
    var n := |arrivals| - 1;
    var a := arrivals[n];
    var seated := PeerEntry(a.address, a.session, a.origin, 0, now);
    var after := if Admissible(rest, maxPeers, a.address) then rest + [seated] else rest;
    forall k | |entries| <= k < |after|
      ensures SeatedFrom(arrivals, after[k], now)
    {
      if k < |rest| {
        var i :| 0 <= i < n && arrivals[..n][i].address == rest[k].address
          && arrivals[..n][i].session == rest[k].session && arrivals[..n][i].origin == rest[k].origin;
        assert arrivals[i] == arrivals[..n][i];
      } else {
        assert arrivals[n].address == seated.address;
      }
    }
    forall i | 0 <= i < |arrivals|
      ensures Holds(after, arrivals[i].address) || |after| >= maxPeers
    {
      if i < n {
        assert arrivals[..n][i] == arrivals[i];
        if x :| x in rest && x.address == arrivals[i].address {
          assert x in after;
        }
      } else if Admissible(rest, maxPeers, a.address) {
        assert seated in after;
      }
    }
  }

  /** A maintenance pass, stage by stage: the entries of dead sessions leave; of the rest, those that more
      than half of the announcers are far ahead of; then the oldest over age; and then the pool refills. */
  lemma {:induction false} AMaintenancePassIs(
      entries: Entries, dead: seq<FrameSource>, maxPeers: nat, arrivals: seq<Arrival>, now: nat)
    returns (living: Entries, current: Entries, young: Entries)
    ensures forall e :: e in living <==>
      e in entries && forall d :: d in dead ==> d.address != e.address || d.session != e.session
    ensures forall e :: e in current <==>
      e in living
      && !(e.origin.Discovered? && e.lastPeak > 0
           && 2 * |AnnouncedAbove(living, e.lastPeak + 6)| > |AnnouncedAbove(living, 0)|)
    ensures RotatesTheOldest(current, young, now)
    ensures Refills(young, Maintained(entries, dead, maxPeers, arrivals, now), maxPeers, arrivals, now)
  {
    living := WithoutDead(entries, dead);
    current := WithoutLagging(living);
    young := WithoutOldest(current, now);
    forall e
      ensures e in living <==>
        e in entries && forall d :: d in dead ==> d.address != e.address || d.session != e.session
    {
      TheDeadLeave(entries, dead, e);
    }
    forall e
      ensures e in current <==>
        e in living
        && !(e.origin.Discovered? && e.lastPeak > 0
             && 2 * |AnnouncedAbove(living, e.lastPeak + 6)| > |AnnouncedAbove(living, 0)|)
    {
      EvictedIffMostAreFarAhead(living, e);
    }
    RotationTakesTheOldest(current, now);
    TheRefillRefills(young, maxPeers, arrivals, now);
  }

  // ---------------------------------------------------------------------------
  // Staleness
  // ---------------------------------------------------------------------------

  /** Sources that outlived an eviction pass, have announced no less since, and answer no further below
      their announcement than the as-of rule allows: the round is at most fourteen blocks behind the
      reference of that pass, six of lag, six of as-of slack, two of settling. */
  lemma {:induction false} SettledAnswersAreFresh(
      entries: Entries, survivors: seq<PeerEntry>, announced: seq<nat>, sets: seq<HeightedSet>)
    requires sets != [] && |survivors| == |announced| == |sets|
    requires forall i :: 0 <= i < |sets| ==>
      && survivors[i] in WithoutLagging(entries)
      && survivors[i] in entries
      && survivors[i].origin.Discovered? && survivors[i].lastPeak > 0
      && survivors[i].lastPeak <= announced[i]
      && AsOfIsSupported(Some(announced[i]), sets[i].asOfHeight)
    requires ReferencePeak(AnnouncedPeaks(entries)).Some?
    ensures var reference := ReferencePeak(AnnouncedPeaks(entries)).value;
      var common := CommonHeight(Heights(sets), None);
      && (common.Some? ==> common.value + 14 >= reference)
      && (common.None? ==> reference < 14)
  {
    var low := Lowest(Heights(sets));
    var i :| 0 <= i < |Heights(sets)| && Heights(sets)[i] == low;
    EvictionIsExact(entries, survivors[i]);
  }
}
