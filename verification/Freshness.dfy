/** How stale a settled answer can be: the eviction of lagging peers (src/peer/pool.rs) and the as-of
    rule (src/peer/set_agreement.rs), joined by the fact that a session's announced peak only rises. */
module Freshness {
  import opened Prelude
  import opened Median
  import opened PeerPool
  import opened Sessions
  import opened Subscriptions
  import opened Eviction
  import opened SetAgreement
  import opened SetRound

  /** The reference of an eviction pass taken after `steps`. */
  function ReferenceAfter(maxPeers: nat, steps: seq<Step>): Option<nat>
  {
    ReferencePeak(AnnouncedPeaks(Run(maxPeers, steps).entries))
  }

  /** `e` had announced when the pass came, and its session is held, now as `later`, after `more` steps. */
  predicate Outlived(maxPeers: nat, steps: seq<Step>, more: seq<Step>, e: PeerEntry, later: PeerEntry)
  {
    && e in Run(maxPeers, steps).entries && e.origin.Discovered? && e.lastPeak > 0
    && later in Run(maxPeers, steps + [EvictLagging] + more).entries && SourceOf(later) == SourceOf(e)
  }

  lemma {:induction false} EvictingSteps(maxPeers: nat, steps: seq<Step>)
    ensures Run(maxPeers, steps + [EvictLagging]) == Next(Run(maxPeers, steps), EvictLagging)
  {
    assert (steps + [EvictLagging])[..|steps|] == steps;
  }

  /** Whoever is still held was not evicted by the pass, and has announced no less since. */
  lemma {:induction false} TheHeldSurvived(
      maxPeers: nat, steps: seq<Step>, more: seq<Step>, e: PeerEntry, later: PeerEntry)
    requires Outlived(maxPeers, steps, more, e, later)
    ensures e in WithoutLagging(Run(maxPeers, steps).entries) && e.lastPeak <= later.lastPeak
  {
    var s, passed := Run(maxPeers, steps), steps + [EvictLagging];
    EvictingSteps(maxPeers, steps);
    EveryRunKeepsTheInvariant(maxPeers, steps);
    SeatedStaysSeated(s, EvictLagging, SourceOf(e));
    SeatedEntriesGoBack(maxPeers, passed, more, later);
    var kept :| kept in Run(maxPeers, passed).entries && SameButForThePeak(kept, later);
    EvictionKeepsAddresses(s.entries);
    SameSourceSameEntry(s.entries, e, kept);
  }

  /** In any run, after any eviction pass and any further steps: a round over discovered peers that had
      announced a peak by the pass and are held when they answer, each no further below its own announced
      peak than the as-of rule allows, is settled at most fourteen blocks behind the reference of the
      pass. Each source may answer at a time of its own. */
  lemma {:induction false} SettledAnswersStayFresh(
      maxPeers: nat, steps: seq<Step>, more: seq<seq<Step>>,
      before: seq<PeerEntry>, sources: seq<PeerEntry>, sets: seq<HeightedSet>)
    requires sets != [] && |before| == |sources| == |more| == |sets|
    requires forall i :: 0 <= i < |sets| ==>
      && Outlived(maxPeers, steps, more[i], before[i], sources[i])
      && sets[i].asOfHeight + 6 >= sources[i].lastPeak
    ensures ReferenceAfter(maxPeers, steps).Some?
    ensures var reference := ReferenceAfter(maxPeers, steps).value;
      var common := CommonHeight(Heights(sets), None);
      && (common.Some? ==> common.value + 14 >= reference)
      && (common.None? ==> reference < 14)
  {
    var entries := Run(maxPeers, steps).entries;
    var announced := seq(|sources|, i requires 0 <= i < |sources| => sources[i].lastPeak);
    forall i | 0 <= i < |sets|
      ensures before[i] in WithoutLagging(entries) && before[i].lastPeak <= announced[i]
      ensures AsOfIsSupported(Some(announced[i]), sets[i].asOfHeight)
    {
      TheHeldSurvived(maxPeers, steps, more[i], before[i], sources[i]);
      SupportIsSixBlocks(Some(sources[i].lastPeak), sets[i].asOfHeight);
    }
    AnnouncedMembers(entries);
    assert before[0].lastPeak in AnnouncedPeaks(entries);
    SettledAnswersAreFresh(entries, before, announced, sets);
  }
}
