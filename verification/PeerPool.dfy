/** The peer pool (src/peer/pool.rs): its entries, the operations that admit and remove them, and the
    ways it counts independent voices. Dialling is not modelled; a connection arrives as an argument.
    Instants are natural numbers of seconds. */
module PeerPool {
  import opened Prelude
  import opened Net
  import opened Frames
  import opened Median

  datatype PeerOrigin = Priority | Discovered

  datatype PeerEntry = PeerEntry(
    address: SocketAddr, session: nat, origin: PeerOrigin, lastPeak: nat, admittedAt: nat)

  type Entries = seq<PeerEntry>

  function SourceOf(e: PeerEntry): FrameSource { FrameSource(e.address, e.session) }

  predicate Holds(entries: Entries, address: SocketAddr)
  {
    exists e :: e in entries && e.address == address
  }

  // ---------------------------------------------------------------------------
  // Membership
  // ---------------------------------------------------------------------------

  predicate Admissible(entries: Entries, maxPeers: nat, address: SocketAddr)
  {
    |entries| < maxPeers && !Holds(entries, address)
  }

  function WithoutAddress(entries: Entries, address: SocketAddr): Entries
  {
    Filter(entries, (e: PeerEntry) => e.address != address)
  }

  lemma {:induction false} EjectionRemovesOneAddress(entries: Entries, gone: SocketAddr, address: SocketAddr)
    ensures Holds(WithoutAddress(entries, gone), address) <==> Holds(entries, address) && address != gone
  {
    FilterMembers(entries, (e: PeerEntry) => e.address != gone);
    if e :| e in entries && e.address == address && address != gone {
      assert e in WithoutAddress(entries, gone);
    }
  }

  function WithoutAddresses(entries: Entries, gone: seq<SocketAddr>): Entries
  {
    if gone == [] then entries
    else WithoutAddress(WithoutAddresses(entries, gone[..|gone| - 1]), gone[|gone| - 1])
  }

  lemma {:induction false} WithoutAddressesMembers(entries: Entries, gone: seq<SocketAddr>, e: PeerEntry)
    ensures e in WithoutAddresses(entries, gone) <==> e in entries && e.address !in gone
  {
    if gone != [] {
      var n := |gone| - 1;
      WithoutAddressesMembers(entries, gone[..n], e);
      FilterMembers(WithoutAddresses(entries, gone[..n]), (x: PeerEntry) => x.address != gone[n]);
      assert gone == gone[..n] + [gone[n]];
    }
  }

  function WithoutDead(entries: Entries, dead: seq<FrameSource>): Entries
  {
    Filter(entries, (e: PeerEntry) => SourceOf(e) !in dead)
  }

  /** Exactly the entries of the dead sessions go, and not a successor at the same address. */
  lemma {:induction false} TheDeadLeave(entries: Entries, dead: seq<FrameSource>, e: PeerEntry)
    ensures e in WithoutDead(entries, dead) <==>
      e in entries && forall d :: d in dead ==> d.address != e.address || d.session != e.session
  {
    FilterMembers(entries, (x: PeerEntry) => SourceOf(x) !in dead);
    if e in entries && SourceOf(e) in dead {
      assert SourceOf(e).address == e.address;
    }
    forall d | d in dead && d.address == e.address && d.session == e.session
      ensures d == SourceOf(e)
    {
    }
  }

  /** The peaks of the discovered entries that have announced one. */
  function AnnouncedPeaks(entries: Entries): seq<nat>
  {
    if entries == [] then []
    else
      var rest := AnnouncedPeaks(entries[..|entries| - 1]);
      var e := entries[|entries| - 1];
      if e.origin.Discovered? && e.lastPeak > 0 then rest + [e.lastPeak] else rest
  }

  predicate Lagging(e: PeerEntry, reference: nat)
  {
    e.origin.Discovered? && e.lastPeak > 0 && SaturatingSub(reference, e.lastPeak) > PEAK_LAG_EVICTION
  }

  function WithoutLagging(entries: Entries): Entries
  {
    var reference := ReferencePeak(AnnouncedPeaks(entries));
    if reference.None? then entries
    else Filter(entries, (e: PeerEntry) => !Lagging(e, reference.value))
  }

  /** The addresses of the laggards, in order. */
  function LaggingAddresses(entries: Entries, reference: nat): seq<SocketAddr>
  {
    if entries == [] then []
    else
      var n := |entries| - 1;
      LaggingAddresses(entries[..n], reference)
        + if Lagging(entries[n], reference) then [entries[n].address] else []
  }

  function Evicted(entries: Entries): seq<SocketAddr>
  {
    var reference := ReferencePeak(AnnouncedPeaks(entries));
    if reference.None? then [] else LaggingAddresses(entries, reference.value)
  }

  predicate Expired(e: PeerEntry, now: nat)
  {
    e.origin.Discovered? && SaturatingSub(now, e.admittedAt) >= PEER_LIFETIME
  }

  /** The index of the expired entry admitted first, the earlier in the list on a tie. */
  function OldestExpired(entries: Entries, now: nat): (i: Option<nat>)
    ensures i.Some? ==> i.value < |entries|
  {
    if entries == [] then None
    else
      var n := |entries| - 1;
      var best := OldestExpired(entries[..n], now);
      if !Expired(entries[n], now) then best
      else if best.None? || entries[n].admittedAt < entries[best.value].admittedAt then Some(n)
      else best
  }

  function WithoutOldest(entries: Entries, now: nat): Entries
  {
    var i := OldestExpired(entries, now);
    if i.None? then entries else entries[..i.value] + entries[i.value + 1..]
  }

  predicate DistinctAddresses(entries: Entries)
  {
    forall i, j :: 0 <= i < j < |entries| ==> entries[i].address != entries[j].address
  }

  lemma {:induction false} FilterKeepsAddresses(entries: Entries, keep: PeerEntry -> bool)
    requires DistinctAddresses(entries)
    ensures DistinctAddresses(Filter(entries, keep))
    ensures |Filter(entries, keep)| <= |entries|
    ensures forall e :: e in Filter(entries, keep) ==> e in entries
  {
    FilterMembers(entries, keep);
    if entries != [] {
      var n := |entries| - 1;
      FilterKeepsAddresses(entries[..n], keep);
      var rest := Filter(entries[..n], keep);
      forall i | 0 <= i < |rest|
        ensures rest[i].address != entries[n].address
      {
        assert rest[i] in entries[..n];
      }
    }
  }

  lemma {:induction false} EvictionKeepsAddresses(entries: Entries)
    requires DistinctAddresses(entries)
    ensures var after := WithoutLagging(entries);
      DistinctAddresses(after) && |after| <= |entries| && forall e :: e in after ==> e in entries
  {
    var reference := ReferencePeak(AnnouncedPeaks(entries));
    if reference.Some? {
      FilterKeepsAddresses(entries, (e: PeerEntry) => !Lagging(e, reference.value));
    }
  }

  lemma {:induction false} RotationKeepsAddresses(entries: Entries, now: nat)
    requires DistinctAddresses(entries)
    ensures var after := WithoutOldest(entries, now);
      DistinctAddresses(after) && |after| <= |entries| && forall e :: e in after ==> e in entries
  {
  }

  /** A connection that a dial brought. */
  datatype Arrival = Arrival(address: SocketAddr, origin: PeerOrigin, session: nat)

  function AdmitAll(entries: Entries, maxPeers: nat, arrivals: seq<Arrival>, now: nat): Entries
  {
    if arrivals == [] then entries
    else
      var n := |arrivals| - 1;
      var rest, a := AdmitAll(entries, maxPeers, arrivals[..n], now), arrivals[n];
      if Admissible(rest, maxPeers, a.address) then rest + [PeerEntry(a.address, a.session, a.origin, 0, now)]
      else rest
  }

  /** One maintenance pass: the dead leave, then the laggards, then the oldest; then the pool refills. */
  function Maintained(
      entries: Entries, dead: seq<FrameSource>, maxPeers: nat, arrivals: seq<Arrival>, now: nat): Entries
  {
    AdmitAll(WithoutOldest(WithoutLagging(WithoutDead(entries, dead)), now), maxPeers, arrivals, now)
  }

  lemma {:induction false} AdmissionKeepsAddresses(
      entries: Entries, maxPeers: nat, arrivals: seq<Arrival>, now: nat)
    requires DistinctAddresses(entries) && |entries| <= maxPeers
    ensures var after := AdmitAll(entries, maxPeers, arrivals, now);
      DistinctAddresses(after) && |after| <= maxPeers
  {
    if arrivals != [] {
      AdmissionKeepsAddresses(entries, maxPeers, arrivals[..|arrivals| - 1], now);
    }
  }

  predicate Arrives(entries: Entries, maxPeers: nat, arrivals: seq<Arrival>, now: nat, i: nat, address: SocketAddr)
    requires i < |arrivals|
  {
    arrivals[i].address == address && |AdmitAll(entries, maxPeers, arrivals[..i], now)| < maxPeers
  }

  /** A refill leaves an address held if and only if it was held or arrived while there was room. */
  lemma {:induction false} RefillHoldsIff(
      entries: Entries, maxPeers: nat, arrivals: seq<Arrival>, now: nat, address: SocketAddr)
    ensures Holds(AdmitAll(entries, maxPeers, arrivals, now), address) <==>
      (Holds(entries, address)
       || exists i :: 0 <= i < |arrivals| && Arrives(entries, maxPeers, arrivals, now, i, address))
  {
    if arrivals != [] {
      var n := |arrivals| - 1;
      var rest := AdmitAll(entries, maxPeers, arrivals[..n], now);
      RefillHoldsIff(entries, maxPeers, arrivals[..n], now, address);
      forall i | 0 <= i < n
        ensures Arrives(entries, maxPeers, arrivals[..n], now, i, address)
          <==> Arrives(entries, maxPeers, arrivals, now, i, address)
      {
        assert arrivals[..n][..i] == arrivals[..i];
      }
      OneMoreArrival(rest, maxPeers, arrivals[n], now, address);
      assert Arrives(entries, maxPeers, arrivals, now, n, address)
        <==> arrivals[n].address == address && |rest| < maxPeers;
    }
  }

  lemma {:induction false} OneMoreArrival(rest: Entries, maxPeers: nat, a: Arrival, now: nat, address: SocketAddr)
    ensures var seated := PeerEntry(a.address, a.session, a.origin, 0, now);
      Holds(if Admissible(rest, maxPeers, a.address) then rest + [seated] else rest, address)
      <==> Holds(rest, address) || (a.address == address && |rest| < maxPeers)
  {
    var seated := PeerEntry(a.address, a.session, a.origin, 0, now);
    if Admissible(rest, maxPeers, a.address) {
      assert seated in rest + [seated];
      if e :| e in rest && e.address == address {
        assert e in rest + [seated];
      }
    }
  }

  lemma {:induction false} MaintenanceSeatsNobodyElse(
      entries: Entries, dead: seq<FrameSource>, now: nat, address: SocketAddr)
    requires !Holds(entries, address)
    ensures !Holds(WithoutOldest(WithoutLagging(WithoutDead(entries, dead)), now), address)
  {
    FilterMembers(entries, (e: PeerEntry) => SourceOf(e) !in dead);
    var living := WithoutDead(entries, dead);
    var reference := ReferencePeak(AnnouncedPeaks(living));
    if reference.Some? {
      FilterMembers(living, (e: PeerEntry) => !Lagging(e, reference.value));
    }
    forall e | e in WithoutOldest(WithoutLagging(living), now)
      ensures e in entries
    {
    }
  }

  /** A maintenance pass keeps the pool within its size and its addresses distinct. */
  lemma {:induction false} MaintenanceKeepsThePool(
      entries: Entries, dead: seq<FrameSource>, maxPeers: nat, arrivals: seq<Arrival>, now: nat)
    requires DistinctAddresses(entries) && |entries| <= maxPeers
    ensures var after := Maintained(entries, dead, maxPeers, arrivals, now);
      DistinctAddresses(after) && |after| <= maxPeers
  {
    FilterKeepsAddresses(entries, (e: PeerEntry) => SourceOf(e) !in dead);
    EvictionKeepsAddresses(WithoutDead(entries, dead));
    RotationKeepsAddresses(WithoutLagging(WithoutDead(entries, dead)), now);
    AdmissionKeepsAddresses(
      WithoutOldest(WithoutLagging(WithoutDead(entries, dead)), now), maxPeers, arrivals, now);
  }

  // ---------------------------------------------------------------------------
  // Voices
  // ---------------------------------------------------------------------------

  predicate IsCorroborator(e: PeerEntry, asked: SocketAddr)
  {
    e.address.ip != asked.ip && e.origin.Discovered?
  }

  /** The hosts of the discovered entries. */
  function DiscoveredHosts(entries: Entries): set<IpAddr>
  {
    if entries == [] then {}
    else DiscoveredHosts(entries[..|entries| - 1]) + HostOf(entries[|entries| - 1])
  }

  function HostOf(e: PeerEntry): set<IpAddr>
  {
    if e.origin.Discovered? then {e.address.ip} else {}
  }

  lemma {:induction false} DiscoveredHostsAreExactly(entries: Entries)
    ensures forall ip :: ip in DiscoveredHosts(entries) <==>
      exists e :: e in entries && e.origin.Discovered? && e.address.ip == ip
  {
    if entries != [] {
      var n := |entries| - 1;
      DiscoveredHostsAreExactly(entries[..n]);
      assert entries == entries[..n] + [entries[n]];
      forall ip
        ensures ip in DiscoveredHosts(entries) <==>
          exists e :: e in entries && e.origin.Discovered? && e.address.ip == ip
      {
        if e :| e in entries && e.origin.Discovered? && e.address.ip == ip {
          assert e in entries[..n] || e == entries[n];
        }
        if ip in HostOf(entries[n]) {
          assert entries[n] in entries;
        }
      }
    }
  }

  lemma {:induction false} HostsOfOneMore(entries: Entries, i: nat, hosts: set<IpAddr>)
    requires i < |entries| && hosts == DiscoveredHosts(entries[..i])
    ensures DiscoveredHosts(entries[..i + 1])
      == if entries[i].origin.Discovered? then hosts + {entries[i].address.ip} else hosts
  {
    assert entries[..i + 1][..i] == entries[..i];
  }

  /** What `corroborators` promises: one entry for each discovered host other than the asked one,
      the first that the pool lists for it. */
  predicate OnePerOtherHost(chosen: Entries, entries: Entries, asked: SocketAddr)
  {
    && (forall e :: e in chosen ==> e in entries && IsCorroborator(e, asked))
    && (forall i, j :: 0 <= i < j < |chosen| ==> chosen[i].address.ip != chosen[j].address.ip)
    && (forall ip :: ip in DiscoveredHosts(entries) && ip != asked.ip ==>
         exists e :: e in chosen && e.address.ip == ip)
  }

  lemma {:induction false} OneMoreVoice(chosen: Entries, entries: Entries, e: PeerEntry, asked: SocketAddr)
    requires OnePerOtherHost(chosen, entries, asked)
    ensures OnePerOtherHost(
      if IsCorroborator(e, asked) && e.address.ip !in DiscoveredHosts(entries) then chosen + [e] else chosen,
      entries + [e], asked)
  {
    var isNew := IsCorroborator(e, asked) && e.address.ip !in DiscoveredHosts(entries);
    var after := if isNew then chosen + [e] else chosen;
    assert (entries + [e])[..|entries|] == entries;
    DiscoveredHostsAreExactly(entries);
    forall i | 0 <= i < |chosen|
      ensures chosen[i].address.ip in DiscoveredHosts(entries)
    {
      assert chosen[i] in chosen;
    }
    forall ip | ip in DiscoveredHosts(entries + [e]) && ip != asked.ip
      ensures exists c :: c in after && c.address.ip == ip
    {
      if ip in DiscoveredHosts(entries) {
        var c :| c in chosen && c.address.ip == ip;
        assert c in after;
      } else {
        assert e in after;
      }
    }
  }

  lemma {:induction false} VoicesOfOneMore(
      chosen: Entries, entries: Entries, i: nat, asked: SocketAddr, hosts: set<IpAddr>)
    requires i < |entries| && OnePerOtherHost(chosen, entries[..i], asked)
    requires hosts == DiscoveredHosts(entries[..i]) - {asked.ip}
    ensures var e := entries[i];
      var isNew := IsCorroborator(e, asked) && e.address.ip !in hosts;
      && OnePerOtherHost(if isNew then chosen + [e] else chosen, entries[..i + 1], asked)
      && DiscoveredHosts(entries[..i + 1]) - {asked.ip} == if isNew then hosts + {e.address.ip} else hosts
  {
    assert entries[..i + 1] == entries[..i] + [entries[i]];
    HostsOfOneMore(entries, i, DiscoveredHosts(entries[..i]));
    OneMoreVoice(chosen, entries[..i], entries[i], asked);
  }

  /** The pool is armed by as many independent hosts as the floor asks for. */
  function ReadinessFor(hosts: nat): Readiness
  {
    if hosts >= CORROBORATION_FLOOR then Armed(hosts) else Insufficient(hosts, CORROBORATION_FLOOR)
  }

  class Pool {
    var entries: Entries
    var nextIdx: nat
    const maxPeers: nat
    var deadSessions: seq<FrameSource>

    constructor (maxPeers: nat)
      ensures entries == [] && nextIdx == 0 && this.maxPeers == maxPeers && deadSessions == []
    {
      entries, nextIdx, this.maxPeers, deadSessions := [], 0, maxPeers, [];
    }

    method Admit(address: SocketAddr, origin: PeerOrigin, session: nat, now: nat) returns (admitted: bool)
      modifies this`entries
      ensures admitted <==> Admissible(old(entries), maxPeers, address)
      ensures entries == if admitted then old(entries) + [PeerEntry(address, session, origin, 0, now)]
                         else old(entries)
    {
      if |entries| >= maxPeers {
        return false;
      }
      for i := 0 to |entries|
        invariant forall e :: e in entries[..i] ==> e.address != address
      {
        if entries[i].address == address {
          assert Holds(entries, address);
          return false;
        }
        assert entries[..i + 1] == entries[..i] + [entries[i]];
      }
      assert entries[..|entries|] == entries;
      entries := entries + [PeerEntry(address, session, origin, 0, now)];
      return true;
    }

    method EjectPeer(address: SocketAddr)
      modifies this`entries
      ensures entries == WithoutAddress(old(entries), address)
    {
      var kept: Entries := [];
      for i := 0 to |entries|
        invariant kept == WithoutAddress(entries[..i], address)
      {
        assert entries[..i + 1][..i] == entries[..i];
        if entries[i].address != address {
          kept := kept + [entries[i]];
        }
      }
      assert entries[..|entries|] == entries;
      entries := kept;
    }

    method EjectAll(failed: seq<SocketAddr>)
      modifies this`entries
      ensures entries == WithoutAddresses(old(entries), failed)
    {
      for i := 0 to |failed|
        invariant entries == WithoutAddresses(old(entries), failed[..i])
      {
        assert failed[..i + 1][..i] == failed[..i];
        EjectPeer(failed[i]);
      }
      assert failed[..|failed|] == failed;
    }

    /** `eject_dead_sessions`: take the list, then remove what is on it. */
    method EjectDeadSessions()
      modifies this`entries, this`deadSessions
      ensures deadSessions == []
      ensures entries == WithoutDead(old(entries), old(deadSessions))
    {
      var dead := deadSessions;
      deadSessions := [];
      var kept: Entries := [];
      for i := 0 to |entries|
        invariant kept == WithoutDead(entries[..i], dead)
        invariant entries == old(entries) && deadSessions == []
      {
        assert entries[..i + 1][..i] == entries[..i];
        if SourceOf(entries[i]) !in dead {
          kept := kept + [entries[i]];
        }
      }
      assert entries[..|entries|] == entries;
      entries := kept;
    }

    method EvictLaggingPeers() returns (evicted: seq<SocketAddr>)
      modifies this`entries
      ensures entries == WithoutLagging(old(entries))
      ensures evicted == Evicted(old(entries))
    {
      var announced := CollectAnnounced();
      var reference := ReferencePeak(announced);
      evicted := [];
      if reference.None? {
        return;
      }
      var kept: Entries := [];
      for i := 0 to |entries|
        invariant kept == Filter(entries[..i], (e: PeerEntry) => !Lagging(e, reference.value))
        invariant evicted == LaggingAddresses(entries[..i], reference.value)
      {
        assert entries[..i + 1][..i] == entries[..i];
        if Lagging(entries[i], reference.value) {
          evicted := evicted + [entries[i].address];
        } else {
          kept := kept + [entries[i]];
        }
      }
      assert entries[..|entries|] == entries;
      entries := kept;
    }

    method CollectAnnounced() returns (announced: seq<nat>)
      ensures announced == AnnouncedPeaks(entries)
    {
      announced := [];
      for i := 0 to |entries|
        invariant announced == AnnouncedPeaks(entries[..i])
      {
        assert entries[..i + 1][..i] == entries[..i];
        if entries[i].origin.Discovered? && entries[i].lastPeak > 0 {
          announced := announced + [entries[i].lastPeak];
        }
      }
      assert entries[..|entries|] == entries;
    }

    method CycleExpiredPeers(now: nat) returns (rotated: Option<SocketAddr>)
      modifies this`entries
      ensures entries == WithoutOldest(old(entries), now)
      ensures rotated == var i := OldestExpired(old(entries), now);
        if i.None? then None else Some(old(entries)[i.value].address)
    {
      var oldest: Option<nat> := None;
      for i := 0 to |entries|
        invariant oldest == OldestExpired(entries[..i], now)
      {
        assert entries[..i + 1][..i] == entries[..i];
        if Expired(entries[i], now)
           && (oldest.None? || entries[i].admittedAt < entries[oldest.value].admittedAt) {
          oldest := Some(i);
        }
      }
      assert entries[..|entries|] == entries;
      if oldest.None? {
        return None;
      }
      rotated := Some(entries[oldest.value].address);
      entries := entries[..oldest.value] + entries[oldest.value + 1..];
    }

    /** `corroborators`: one filter with a set of hosts already seen. */
    method Corroborators(asked: SocketAddr) returns (chosen: Entries)
      ensures OnePerOtherHost(chosen, entries, asked)
      ensures |chosen| == |DiscoveredHosts(entries) - {asked.ip}|
    {
      var held := entries;
      var hosts: set<IpAddr> := {};
      chosen := [];
      for i := 0 to |held|
        invariant OnePerOtherHost(chosen, held[..i], asked)
        invariant hosts == DiscoveredHosts(held[..i]) - {asked.ip}
        invariant |chosen| == |hosts|
      {
        var e := held[i];
        VoicesOfOneMore(chosen, held, i, asked, hosts);
        if IsCorroborator(e, asked) && e.address.ip !in hosts {
          hosts := hosts + {e.address.ip};
          chosen := chosen + [e];
        }
      }
      assert held[..|held|] == held;
    }

    method CorroborationReadiness(asked: SocketAddr) returns (readiness: Readiness)
      ensures readiness == ReadinessFor(|DiscoveredHosts(entries) - {asked.ip}|)
      ensures readiness.Armed? <==> |DiscoveredHosts(entries) - {asked.ip}| >= 2
      ensures readiness.corroborators == |DiscoveredHosts(entries) - {asked.ip}|
      ensures readiness.Insufficient? ==> readiness.required == 2
    {
      var chosen := Corroborators(asked);
      if |chosen| >= CORROBORATION_FLOOR {
        readiness := Armed(|chosen|);
      } else {
        readiness := Insufficient(|chosen|, CORROBORATION_FLOOR);
      }
    }

    method IndependentPeerCount() returns (count: nat)
      ensures count == |DiscoveredHosts(entries)|
    {
      var held := entries;
      var hosts: set<IpAddr> := {};
      count := 0;
      for i := 0 to |held|
        invariant hosts == DiscoveredHosts(held[..i])
        invariant count == |hosts|
      {
        var e := held[i];
        HostsOfOneMore(held, i, hosts);
        if e.origin.Discovered? && e.address.ip !in hosts {
          hosts := hosts + {e.address.ip};
          count := count + 1;
        }
      }
      assert held[..|held|] == held;
    }

    /** `maintain`; `arrivals` are the connections its refill brings, in the order they are admitted. */
    method Maintain(arrivals: seq<Arrival>, now: nat)
      modifies this`entries, this`deadSessions
      ensures deadSessions == []
      ensures entries == Maintained(old(entries), old(deadSessions), maxPeers, arrivals, now)
    {
      EjectDeadSessions();
      var evicted := EvictLaggingPeers();
      var rotated := CycleExpiredPeers(now);
      ghost var before := entries;
      for i := 0 to |arrivals|
        invariant deadSessions == []
        invariant entries == AdmitAll(before, maxPeers, arrivals[..i], now)
      {
        assert arrivals[..i + 1][..i] == arrivals[..i];
        var admitted := Admit(arrivals[i].address, arrivals[i].origin, arrivals[i].session, now);
      }
      assert arrivals[..|arrivals|] == arrivals;
    }

    /** Round-robin over every peer held. */
    method SelectPeer() returns (chosen: Option<SocketAddr>)
      modifies this`nextIdx
      ensures chosen.None? <==> entries == []
      ensures chosen.Some? ==> chosen.value == entries[old(nextIdx) % |entries|].address
      ensures chosen.Some? ==> Holds(entries, chosen.value)
      ensures nextIdx == old(nextIdx) + if chosen.Some? then 1 else 0
    {
      if entries == [] {
        return None;
      }
      var idx := nextIdx % |entries|;
      nextIdx := nextIdx + 1;
      assert entries[idx] in entries;
      return Some(entries[idx].address);
    }

    /** Round-robin over the peers not at `excluded`. */
    method SelectPeerExcluding(excluded: SocketAddr) returns (chosen: Option<SocketAddr>)
      modifies this`nextIdx
      ensures chosen.None? <==> forall e :: e in entries ==> e.address == excluded
      ensures chosen.None? <==> WithoutAddress(entries, excluded) == []
      ensures chosen.Some? ==>
        var candidates := WithoutAddress(entries, excluded);
        chosen.value == candidates[old(nextIdx) % |candidates|].address
      ensures chosen.Some? ==> chosen.value != excluded && Holds(entries, chosen.value)
      ensures nextIdx == old(nextIdx) + if chosen.Some? then 1 else 0
    {
      var candidates := WithoutAddress(entries, excluded);
      FilterMembers(entries, (e: PeerEntry) => e.address != excluded);
      assert forall e :: e in entries && e.address != excluded ==> e in candidates;
      if candidates == [] {
        return None;
      }
      var idx := nextIdx % |candidates|;
      nextIdx := nextIdx + 1;
      assert candidates[idx] in candidates;
      assert Holds(entries, candidates[idx].address);
      return Some(candidates[idx].address);
    }
  }

  /** Counting independent voices with and without the asked peer differs by one exactly when the
      asked host is itself a discovered host. */
  lemma {:induction false} IndependentVoicesBesideTheAsked(entries: Entries, asked: SocketAddr)
    ensures |DiscoveredHosts(entries)|
      == |DiscoveredHosts(entries) - {asked.ip}| + if asked.ip in DiscoveredHosts(entries) then 1 else 0
  {
    var hosts := DiscoveredHosts(entries);
    if asked.ip in hosts {
      assert hosts == (hosts - {asked.ip}) + {asked.ip};
    } else {
      assert hosts - {asked.ip} == hosts;
    }
  }
}
