/** Every run of the session system: no subscriber sees a gap, every session speaks the protocol, and
    the pool stays bounded and exact. */
module Subscriptions {
  import opened Prelude
  import opened Net
  import opened Frames
  import opened PeerPool
  import opened Sessions

  // ---------------------------------------------------------------------------
  // One publication
  // ---------------------------------------------------------------------------

  lemma {:induction false} OwedGrows(s: System, f: Follow, source: FrameSource, frame: PoolFrame)
    requires f.joined <= |LogOf(s, f.source)|
    requires source in s.fanout.followers
    ensures var t := Publish(s, source, frame);
      && f.joined <= |LogOf(t, f.source)|
      && Owed(t, f) == Owed(s, f) + (if f.source == source then [SourcedFrame(source, frame)] else [])
  {
    var t := Publish(s, source, frame);
    if f.source == source {
      assert LogOf(t, source) == LogOf(s, source) + [frame];
    } else {
      assert LogOf(t, f.source) == LogOf(s, f.source);
    }
  }

  lemma {:induction false} OwedIsTheSame(s: System, t: System, f: Follow)
    requires LogOf(s, f.source) == LogOf(t, f.source) && f.joined <= |LogOf(s, f.source)|
    ensures Owed(s, f) == Owed(t, f)
  {
  }

  lemma {:induction false} PublishKeepsFollow(s: System, source: FrameSource, frame: PoolFrame, id: nat)
    requires FollowsOk(s) && source in s.fanout.followers && id < |s.follows|
    ensures var t := Publish(s, source, frame);
      id < |t.follows| && id < |t.fanout.channels| && FollowOk(t, id)
  {
    var t := Publish(s, source, frame);
    var f, c := s.follows[id], s.fanout.channels[id];
    assert FollowOk(s, id);
    PublicationIsExact(s.fanout, source, frame, id);
    OwedGrows(s, f, source, frame);
    assert Owed(t, t.follows[id]) == Owed(t, f);
    var stream, more := Stream(s, id), [SourcedFrame(source, frame)];
    assert f.received + (c.queue + more) == stream + more;
    if stream <= Owed(s, f) {
      assert stream <= Owed(s, f) + more;
    }
  }

  lemma {:induction false} PublishKeepsFollows(s: System, source: FrameSource, frame: PoolFrame)
    requires FollowsOk(s) && source in s.fanout.followers
    ensures FollowsOk(Publish(s, source, frame))
  {
    var t := Publish(s, source, frame);
    PublishingStaysWellFormed(s.fanout, source, frame);
    forall a, id | a in t.fanout.followers && id in t.fanout.followers[a]
      ensures a in s.fanout.followers && id in s.fanout.followers[a] && t.follows[id].source == a
    {
      if a == source {
        FilterMembers(s.fanout.followers[source], (i: nat) => AcceptsAt(s.fanout.channels, i));
      }
    }
    forall id | 0 <= id < |t.follows|
      ensures FollowOk(t, id)
    {
      PublishKeepsFollow(s, source, frame, id);
    }
  }

  // ---------------------------------------------------------------------------
  // The other steps
  // ---------------------------------------------------------------------------

  /** Neither the channels nor any followed log changes; a session may be newly listed if nobody
      follows it yet. */
  lemma {:induction false} FollowsUntouched(s: System, t: System)
    requires FollowsOk(s)
    requires t.follows == s.follows && t.fanout.channels == s.fanout.channels
    requires forall f :: f in s.follows ==> LogOf(t, f.source) == LogOf(s, f.source)
    requires s.fanout.followers.Keys <= t.fanout.followers.Keys
    requires forall a :: a in t.fanout.followers ==>
      if a in s.fanout.followers then t.fanout.followers[a] == s.fanout.followers[a]
      else t.fanout.followers[a] == [] && forall f :: f in s.follows ==> f.source != a
    ensures FollowsOk(t)
  {
    forall id | 0 <= id < |t.follows|
      ensures FollowOk(t, id)
    {
      assert s.follows[id] in s.follows;
      assert FollowOk(s, id);
      OwedIsTheSame(s, t, s.follows[id]);
    }
  }

  lemma {:induction false} JoinKeepsFollows(s: System, address: SocketAddr, capacity: nat)
    requires FollowsOk(s)
    ensures FollowsOk(Next(s, Join(address, capacity)))
  {
    var t := Next(s, Join(address, capacity));
    if t != s {
      var source := SourceOf(FirstAt(s.entries, address).value);
      var n := |s.follows|;
      JoiningStaysWellFormed(s.fanout, source, capacity);
      forall id | 0 <= id < |t.follows|
        ensures FollowOk(t, id)
      {
        if id < n {
          assert FollowOk(s, id);
          OwedIsTheSame(s, t, s.follows[id]);
        } else {
          assert Stream(t, id) == [SourcedFrame(source, Reset)];
        }
      }
    }
  }

  lemma {:induction false} ReadKeepsFollow(s: System, id: nat, k: nat)
    requires FollowsOk(s) && k < |s.follows|
    ensures var t := Next(s, Read(id));
      k < |t.follows| && k < |t.fanout.channels| && FollowOk(t, k) && Stream(t, k) == Stream(s, k)
  {
    var t := Next(s, Read(id));
    assert FollowOk(s, k);
    if k == id && t != s {
      ReadMovesOneFrame(s, id);
    } else {
      assert t.follows[k] == s.follows[k] && t.fanout.channels[k] == s.fanout.channels[k];
      OwedIsTheSame(s, t, s.follows[k]);
    }
  }

  /** A read moves the head of the queue to what has been received: the stream is the same. */
  lemma {:induction false} ReadMovesOneFrame(s: System, id: nat)
    requires id < |s.follows| && id < |s.fanout.channels| && FollowOk(s, id)
    requires Next(s, Read(id)) != s
    ensures var t := Next(s, Read(id));
      id < |t.follows| && id < |t.fanout.channels| && FollowOk(t, id) && Stream(t, id) == Stream(s, id)
  {
    var t := Next(s, Read(id));
    var queue := s.fanout.channels[id].queue;
    assert (s.follows[id].received + [queue[0]]) + queue[1..] == s.follows[id].received + queue;
    assert Owed(t, t.follows[id]) == Owed(s, s.follows[id]);
  }

  lemma {:induction false} ReadKeepsFollows(s: System, id: nat)
    requires FollowsOk(s)
    ensures FollowsOk(Next(s, Read(id)))
  {
    var t := Next(s, Read(id));
    forall k | 0 <= k < |t.follows|
      ensures FollowOk(t, k)
    {
      ReadKeepsFollow(s, id, k);
    }
  }

  lemma {:induction false} LeaveKeepsFollows(s: System, id: nat)
    requires FollowsOk(s)
    ensures FollowsOk(Next(s, Leave(id)))
  {
    var t := Next(s, Leave(id));
    forall k | 0 <= k < |t.follows|
      ensures FollowOk(t, k)
    {
      assert FollowOk(s, k);
      OwedIsTheSame(s, t, s.follows[k]);
      assert Stream(t, k) == Stream(s, k);
    }
  }

  predicate Publishes(step: Step) { step.Announce? || step.PublishFrame? || step.PublishEnd? }

  predicate TouchesChannels(step: Step)
  {
    Publishes(step) || step.Join? || step.Read? || step.Leave?
  }

  /** What a publishing step does to the subscriptions is one publication, or nothing. */
  lemma {:induction false} PublishingStepPublishes(s: System, step: Step)
    requires Publishes(step)
    ensures var t := Next(s, step);
      || (t.fanout == s.fanout && t.follows == s.follows && t.logs == s.logs)
      || exists frame :: var p := Publish(s, step.source, frame);
           t.fanout == p.fanout && t.follows == p.follows && t.logs == p.logs
  {
    var t := Next(s, step);
    match step
    case Announce(source) =>
      if PhaseOf(s, source).Open? {
        var p := Publish(s, source, Reset);
        assert t.fanout == p.fanout && t.follows == p.follows && t.logs == p.logs;
      }
    case PublishFrame(source) =>
      if PhaseOf(s, source).Publishing? {
        var p := Publish(s, source, PhaseOf(s, source).frame);
        assert t.fanout == p.fanout && t.follows == p.follows && t.logs == p.logs;
      }
    case PublishEnd(source) =>
      if PhaseOf(s, source).Dying? {
        var p := Publish(s, source, SessionEnded(PhaseOf(s, source).reason));
        assert t.fanout == p.fanout && t.follows == p.follows && t.logs == p.logs;
      }
  }

  lemma {:induction false} SameSubscriptionsStayOk(s: System, t: System)
    requires FollowsOk(s)
    requires t.fanout == s.fanout && t.follows == s.follows && t.logs == s.logs
    ensures FollowsOk(t)
  {
    forall id | 0 <= id < |t.follows|
      ensures FollowOk(t, id)
    {
      assert FollowOk(s, id);
      OwedIsTheSame(s, t, s.follows[id]);
    }
  }

  lemma {:induction false} PublishingKeepsFollows(s: System, step: Step)
    requires FollowsOk(s) && Publishes(step)
    ensures FollowsOk(Next(s, step))
  {
    var t := Next(s, step);
    PublishingStepPublishes(s, step);
    if t.fanout == s.fanout && t.follows == s.follows && t.logs == s.logs {
      SameSubscriptionsStayOk(s, t);
    } else {
      var frame :| var p := Publish(s, step.source, frame);
        t.fanout == p.fanout && t.follows == p.follows && t.logs == p.logs;
      if step.source in s.fanout.followers {
        PublishKeepsFollows(s, step.source, frame);
        SameSubscriptionsStayOk(Publish(s, step.source, frame), t);
      }
    }
  }

  /** The remaining steps touch no channel. Only a session that has not begun is newly listed, and
      only a new session is given a log. */
  lemma {:induction false} QuietStep(s: System, step: Step)
    requires !TouchesChannels(step)
    ensures var t := Next(s, step);
      && t.follows == s.follows && t.fanout.channels == s.fanout.channels
      && s.fanout.followers.Keys <= t.fanout.followers.Keys
      && (forall a :: a in t.fanout.followers ==>
           if a in s.fanout.followers then t.fanout.followers[a] == s.fanout.followers[a]
           else t.fanout.followers[a] == [] && PhaseOf(s, a).Seated?)
      && (forall a :: LogOf(t, a) == LogOf(s, a)
           || (step.Allocate? && a.session == s.fanout.nextSession))
  {
  }

  lemma {:induction false} QuietStepKeepsFollows(s: System, step: Step)
    requires SessionsOk(s) && FollowedHaveBegun(s) && FollowsOk(s)
    requires !TouchesChannels(step)
    ensures FollowsOk(Next(s, step))
  {
    var t := Next(s, step);
    QuietStep(s, step);
    forall f | f in s.follows
      ensures LogOf(t, f.source) == LogOf(s, f.source)
      ensures f.source in s.phases && !PhaseOf(s, f.source).Seated?
    {
    }
    FollowsUntouched(s, t);
  }

  lemma {:induction false} FollowsStayOk(s: System, step: Step)
    requires SessionsOk(s) && FollowedHaveBegun(s) && FollowsOk(s)
    ensures FollowsOk(Next(s, step))
  {
    if Publishes(step) {
      PublishingKeepsFollows(s, step);
    } else if step.Join? {
      JoinKeepsFollows(s, step.address, step.capacity);
    } else if step.Read? {
      ReadKeepsFollows(s, step.id);
    } else if step.Leave? {
      LeaveKeepsFollows(s, step.id);
    } else {
      QuietStepKeepsFollows(s, step);
    }
  }

  /** A step renames no follow, and starts one only on a listed session. */
  lemma {:induction false} FollowsKeepTheirSources(s: System, step: Step)
    ensures var t := Next(s, step);
      forall f :: f in t.follows ==>
        (exists old_ :: old_ in s.follows && old_.source == f.source) || f.source in s.fanout.followers
  {
    var t := Next(s, step);
    forall f | f in t.follows
      ensures (exists old_ :: old_ in s.follows && old_.source == f.source)
        || f.source in s.fanout.followers
    {
      var i :| 0 <= i < |t.follows| && t.follows[i] == f;
      if i < |s.follows| {
        assert s.follows[i] in s.follows;
        assert s.follows[i].source == f.source;
      }
    }
  }

  lemma {:induction false} FollowedStayBegun(s: System, step: Step)
    requires SessionsOk(s) && FollowedHaveBegun(s)
    ensures FollowedHaveBegun(Next(s, step))
  {
    var t := Next(s, step);
    FollowsKeepTheirSources(s, step);
    forall f | f in t.follows
      ensures f.source in t.phases && HasBegun(t.phases[f.source])
    {
      assert f.source in s.phases && HasBegun(s.phases[f.source]);
      SeatedStaysSeated(s, step, f.source);
    }
  }

  /** The invariant holds in every reachable state. */
  lemma {:induction false} EveryRunKeepsTheInvariant(maxPeers: nat, steps: seq<Step>)
    ensures Invariant(Run(maxPeers, steps))
  {
    if steps != [] {
      var before := Run(maxPeers, steps[..|steps| - 1]);
      var step := steps[|steps| - 1];
      EveryRunKeepsTheInvariant(maxPeers, steps[..|steps| - 1]);
      SessionsStayOk(before, step);
      PoolStaysOk(before, step);
      FollowsStayOk(before, step);
      FollowedStayBegun(before, step);
    }
  }

  // ---------------------------------------------------------------------------
  // What it means
  // ---------------------------------------------------------------------------

  /** No gaps: in every reachable state what a subscription has read and has queued is a prefix of a
      Reset followed by everything published for its session since it joined. It is all of that unless
      a publication found its channel full or closed, and its queue never exceeds what it asked for
      (or one). Its first frame is always the Reset. */
  lemma {:induction false} SubscriptionsHaveNoGaps(maxPeers: nat, steps: seq<Step>, id: nat)
    requires id < |Run(maxPeers, steps).follows|
    ensures var s := Run(maxPeers, steps);
      var f := s.follows[id];
      && id < |s.fanout.channels| && f.joined <= |LogOf(s, f.source)|
      && Stream(s, id) <= Owed(s, f)
      && (!f.lapsed ==> Stream(s, id) == Owed(s, f))
      && |s.fanout.channels[id].queue| <= s.fanout.channels[id].capacity
      && (f.source in s.fanout.followers ==> (id in s.fanout.followers[f.source] <==> !f.lapsed))
      && (Stream(s, id) != [] ==> Stream(s, id)[0] == SourcedFrame(f.source, Reset))
  {
    EveryRunKeepsTheInvariant(maxPeers, steps);
    assert FollowOk(Run(maxPeers, steps), id);
  }

  /** Every session speaks one protocol: nothing before it opens, then Reset, then peaks and coin
      updates within the size limit, then at most one end, which is last. */
  lemma {:induction false} SessionsSpeakTheProtocol(maxPeers: nat, steps: seq<Step>, source: FrameSource)
    requires source in Run(maxPeers, steps).phases
    ensures var s := Run(maxPeers, steps);
      var log := LogOf(s, source);
      || log == []
      || (Opened(log) && !s.phases[source].Ended?)
      || (s.phases[source].Ended? && Opened(log[..|log| - 1]) && log[|log| - 1].SessionEnded?)
  {
    EveryRunKeepsTheInvariant(maxPeers, steps);
  }

  lemma {:induction false} DeadAreStopped(s: System, source: FrameSource)
    requires DeadHaveStopped(s)
    requires source in s.dead || exists k :: 0 <= k < |s.sweeps| && source in s.sweeps[k]
    ensures Stopped(s, source)
  {
  }

  /** A listed session has a handler that has not finished, and a session is on the dead list, or in a
      list a maintenance pass has taken, only once its handler has stopped. */
  lemma {:induction false} ListedSessionsAreLive(maxPeers: nat, steps: seq<Step>, source: FrameSource)
    ensures var s := Run(maxPeers, steps);
      && (source in s.fanout.followers ==> IsLive(PhaseOf(s, source)))
      && (source in s.phases && IsLive(s.phases[source]) ==> source in s.fanout.followers)
      && (source in s.dead || (exists k :: 0 <= k < |s.sweeps| && source in s.sweeps[k]) ==>
           HasStopped(PhaseOf(s, source)))
  {
    var s := Run(maxPeers, steps);
    EveryRunKeepsTheInvariant(maxPeers, steps);
    if source in s.dead || exists k :: 0 <= k < |s.sweeps| && source in s.sweeps[k] {
      DeadAreStopped(s, source);
    }
  }

  lemma {:induction false} WholeStreamEndsWithTheLog(s: System, f: Follow)
    requires f.joined < |LogOf(s, f.source)|
    ensures var owed, log := Owed(s, f), LogOf(s, f.source);
      owed[|owed| - 1].frame == log[|log| - 1]
  {
  }

  lemma {:induction false} FollowersOfTheEnded(s: System, id: nat)
    requires SessionsOk(s) && FollowedHaveBegun(s) && id < |s.follows|
    requires PhaseOf(s, s.follows[id].source).Ended?
    ensures s.follows[id].source !in s.fanout.followers
    ensures var log := LogOf(s, s.follows[id].source); log != [] && log[|log| - 1].SessionEnded?
  {
    assert s.follows[id] in s.follows;
    SessionFacts(s, s.follows[id].source);
  }

  lemma {:induction false} TheEndIsDelivered(s: System, id: nat)
    requires Invariant(s) && id < |s.follows|
    requires !s.follows[id].lapsed && PhaseOf(s, s.follows[id].source).Ended?
    ensures id < |s.fanout.channels| && Stream(s, id) != []
    ensures Stream(s, id)[|Stream(s, id)| - 1].frame.SessionEnded?
  {
    FollowersOfTheEnded(s, id);
    assert FollowOk(s, id);
    WholeStreamEndsWithTheLog(s, s.follows[id]);
  }

  /** No subscription outlives its session unannounced: once the session has ended, a subscription
      that never lapsed has the end as the last frame of its stream. */
  lemma {:induction false} FollowersLearnTheEnd(maxPeers: nat, steps: seq<Step>, id: nat)
    requires id < |Run(maxPeers, steps).follows|
    requires var s := Run(maxPeers, steps);
      !s.follows[id].lapsed && PhaseOf(s, s.follows[id].source).Ended?
    ensures var s := Run(maxPeers, steps);
      && id < |s.fanout.channels| && Stream(s, id) != []
      && Stream(s, id)[|Stream(s, id)| - 1].frame.SessionEnded?
  {
    EveryRunKeepsTheInvariant(maxPeers, steps);
    TheEndIsDelivered(Run(maxPeers, steps), id);
  }

  lemma {:induction false} PublishLeavesOthersAlone(s: System, source: FrameSource, frame: PoolFrame, id: nat)
    requires FollowsOk(s) && source in s.fanout.followers && id < |s.follows|
    requires s.follows[id].source != source || s.follows[id].lapsed
    ensures var t := Publish(s, source, frame);
      t.fanout.channels[id] == s.fanout.channels[id] && t.follows[id] == s.follows[id]
  {
    assert FollowOk(s, id);
    PublicationIsExact(s.fanout, source, frame, id);
  }

  /** A subscription's stream changes only when its own session publishes, and never again once it has
      lapsed; no other session can fill its queue or end it. */
  lemma {:induction false} OnlyItsOwnSessionFeedsASubscription(maxPeers: nat, steps: seq<Step>, step: Step, id: nat)
    requires id < |Run(maxPeers, steps).follows|
    ensures var s := Run(maxPeers, steps);
      var t := Next(s, step);
      && id < |s.fanout.channels| && id < |t.follows| && id < |t.fanout.channels|
      && t.follows[id].source == s.follows[id].source
      && (s.follows[id].lapsed ==> t.follows[id].lapsed)
      && (s.follows[id].lapsed || !Publishes(step) || step.source != s.follows[id].source ==>
           Stream(t, id) == Stream(s, id) && t.follows[id].lapsed == s.follows[id].lapsed)
  {
    var s := Run(maxPeers, steps);
    EveryRunKeepsTheInvariant(maxPeers, steps);
    StreamsAreFedByTheirSession(s, step, id);
  }

  lemma {:induction false} StreamsAreFedByTheirSession(s: System, step: Step, id: nat)
    requires FollowsOk(s) && id < |s.follows|
    ensures var t := Next(s, step);
      && id < |t.follows| && id < |t.fanout.channels|
      && t.follows[id].source == s.follows[id].source
      && (s.follows[id].lapsed ==> t.follows[id].lapsed)
      && (s.follows[id].lapsed || !Publishes(step) || step.source != s.follows[id].source ==>
           Stream(t, id) == Stream(s, id) && t.follows[id].lapsed == s.follows[id].lapsed)
  {
    if Publishes(step) {
      PublicationsFeedTheirOwn(s, step, id);
    } else if step.Read? {
      ReadKeepsFollow(s, step.id, id);
    }
  }

  lemma {:induction false} PublicationsFeedTheirOwn(s: System, step: Step, id: nat)
    requires FollowsOk(s) && id < |s.follows| && Publishes(step)
    ensures var t := Next(s, step);
      && id < |t.follows| && id < |t.fanout.channels|
      && t.follows[id].source == s.follows[id].source
      && (s.follows[id].lapsed ==> t.follows[id].lapsed)
      && (s.follows[id].lapsed || step.source != s.follows[id].source ==>
           Stream(t, id) == Stream(s, id) && t.follows[id].lapsed == s.follows[id].lapsed)
  {
    PublishingStepPublishes(s, step);
    var t := Next(s, step);
    if !(t.fanout == s.fanout && t.follows == s.follows && t.logs == s.logs) {
      var frame :| var p := Publish(s, step.source, frame);
        t.fanout == p.fanout && t.follows == p.follows && t.logs == p.logs;
      OnePublicationFeedsItsOwn(s, step.source, frame, id);
    }
  }

  lemma {:induction false} OnePublicationFeedsItsOwn(s: System, source: FrameSource, frame: PoolFrame, id: nat)
    requires FollowsOk(s) && id < |s.follows|
    ensures var t := Publish(s, source, frame);
      && |t.follows| == |s.follows| && |t.fanout.channels| == |s.fanout.channels|
      && t.follows[id].source == s.follows[id].source
      && (s.follows[id].lapsed ==> t.follows[id].lapsed)
      && (s.follows[id].lapsed || source != s.follows[id].source ==>
           t.follows[id] == s.follows[id] && t.fanout.channels[id] == s.fanout.channels[id])
  {
    if source in s.fanout.followers && (s.follows[id].source != source || s.follows[id].lapsed) {
      PublishLeavesOthersAlone(s, source, frame, id);
    }
  }

  // ---------------------------------------------------------------------------
  // The pool in a run
  // ---------------------------------------------------------------------------

  /** The pool never exceeds its size and never holds one address, or one session, twice. */
  lemma {:induction false} ThePoolIsBoundedAndDistinct(maxPeers: nat, steps: seq<Step>)
    ensures var s := Run(maxPeers, steps);
      && |s.entries| <= maxPeers
      && (forall i, j :: 0 <= i < j < |s.entries| ==>
           && s.entries[i].address != s.entries[j].address
           && s.entries[i].session != s.entries[j].session)
  {
    var s := Run(maxPeers, steps);
    EveryRunKeepsTheInvariant(maxPeers, steps);
    SizeNeverChanges(maxPeers, steps);
    forall i, j | 0 <= i < j < |s.entries|
      ensures s.entries[i].session != s.entries[j].session
    {
      assert s.entries[i] in s.entries && s.entries[j] in s.entries;
      SessionsDiffer(s, SourceOf(s.entries[i]), SourceOf(s.entries[j]));
    }
  }

  lemma {:induction false} SessionsDiffer(s: System, a: FrameSource, b: FrameSource)
    requires Numbered(s) && a in s.phases && b in s.phases && a != b
    ensures a.session != b.session
  {
  }

  lemma {:induction false} SizeNeverChanges(maxPeers: nat, steps: seq<Step>)
    ensures Run(maxPeers, steps).maxPeers == maxPeers
  {
    if steps != [] {
      var before := steps[..|steps| - 1];
      SizeNeverChanges(maxPeers, before);
      EveryRunKeepsTheInvariant(maxPeers, before);
      EntriesShrinkOrSeatOne(Run(maxPeers, before), steps[|steps| - 1]);
    }
  }

  lemma {:induction false} SweepsSpareTheLiving(s: System, k: nat, e: PeerEntry)
    requires DeadHaveStopped(s) && e in s.entries && !HasStopped(PhaseOf(s, SourceOf(e)))
    ensures e in Next(s, SweepDead(k)).entries
  {
    if k < |s.sweeps| {
      if SourceOf(e) in s.sweeps[k] {
        DeadAreStopped(s, SourceOf(e));
      }
      FilterMembers(s.entries, (x: PeerEntry) => SourceOf(x) !in s.sweeps[k]);
    }
  }

  /** A maintenance pass over recorded deaths removes only entries whose own handler has stopped: a
      replacement seated at a dead session's address stays. */
  lemma {:induction false} ASuccessorOutlivesItsPredecessorsDeath(maxPeers: nat, steps: seq<Step>, k: nat, e: PeerEntry)
    requires var s := Run(maxPeers, steps);
      e in s.entries && !HasStopped(PhaseOf(s, SourceOf(e)))
    ensures e in Next(Run(maxPeers, steps), SweepDead(k)).entries
  {
    EveryRunKeepsTheInvariant(maxPeers, steps);
    SweepsSpareTheLiving(Run(maxPeers, steps), k, e);
  }

  lemma {:induction false} NotedPeaksRise(entries: Entries, source: FrameSource, height: nat, e: PeerEntry)
    requires DistinctAddresses(entries) && e in entries
    ensures forall x :: x in NotePeak(entries, source, height) && SourceOf(x) == SourceOf(e) ==>
      x.lastPeak >= e.lastPeak
  {
    var after := NotePeak(entries, source, height);
    forall x | x in after && SourceOf(x) == SourceOf(e)
      ensures x.lastPeak >= e.lastPeak
    {
      var i :| 0 <= i < |after| && after[i] == x;
      var j :| 0 <= j < |entries| && entries[j] == e;
      assert entries[i].address == entries[j].address;
      assert i == j;
    }
  }

  /** The peak a held session has announced only rises while it is held. */
  lemma {:induction false} AnnouncedPeaksOnlyRise(
      maxPeers: nat, steps: seq<Step>, step: Step, e: PeerEntry, later: PeerEntry)
    requires e in Run(maxPeers, steps).entries
    requires later in Next(Run(maxPeers, steps), step).entries
    requires SourceOf(later) == SourceOf(e)
    ensures later.lastPeak >= e.lastPeak
  {
    var s := Run(maxPeers, steps);
    EveryRunKeepsTheInvariant(maxPeers, steps);
    PeaksRiseInOneStep(s, step, e, later);
  }

  lemma {:induction false} SameSourceSameEntry(entries: Entries, e: PeerEntry, x: PeerEntry)
    requires DistinctAddresses(entries) && e in entries && x in entries && SourceOf(e) == SourceOf(x)
    ensures e == x
  {
    var i :| 0 <= i < |entries| && entries[i] == e;
    var j :| 0 <= j < |entries| && entries[j] == x;
  }

  lemma {:induction false} PeaksRiseInOneStep(s: System, step: Step, e: PeerEntry, later: PeerEntry)
    requires DistinctAddresses(s.entries) && e in s.entries
    requires later in Next(s, step).entries && SourceOf(later) == SourceOf(e)
    requires step.Admit? && PhaseOf(s, step.source).Identified? ==> SourceOf(e) != step.source
    ensures later.lastPeak >= e.lastPeak
  {
    var t := Next(s, step);
    if step.Receive? && step.message.NewPeak? && t.entries != s.entries {
      NotedPeaksRise(s.entries, step.source, step.message.height, e);
    } else {
      EntriesOnlyLost(s, step, later);
      if later in s.entries {
        SameSourceSameEntry(s.entries, e, later);
      }
    }
  }

  /** Every entry was held a step before, with a peak no higher, or has just been seated. */
  lemma {:induction false} EntriesComeFromBefore(s: System, step: Step, later: PeerEntry)
    requires DistinctAddresses(s.entries) && later in Next(s, step).entries
    ensures (exists e :: e in s.entries && SameButForThePeak(e, later))
      || (step.Admit? && PhaseOf(s, step.source).Identified? && SourceOf(later) == step.source)
  {
    var t := Next(s, step);
    if step.Receive? && step.message.NewPeak? && t.entries != s.entries {
      var i :| 0 <= i < |t.entries| && t.entries[i] == later;
      assert s.entries[i] in s.entries && SameButForThePeak(s.entries[i], later);
    } else {
      EntriesOnlyLost(s, step, later);
      assert later in s.entries ==> SameButForThePeak(later, later);
    }
  }

  predicate SameButForThePeak(e: PeerEntry, later: PeerEntry)
  {
    SourceOf(later) == SourceOf(e) && later.origin == e.origin && later.lastPeak >= e.lastPeak
  }

  lemma {:induction false} OneStepLater(maxPeers: nat, steps: seq<Step>, more: seq<Step>)
    requires more != []
    ensures var n := |more| - 1;
      && Run(maxPeers, steps + more) == Next(Run(maxPeers, steps + more[..n]), more[n])
      && Invariant(Run(maxPeers, steps + more[..n]))
  {
    var n := |more| - 1;
    assert (steps + more)[..|steps| + n] == steps + more[..n];
    EveryRunKeepsTheInvariant(maxPeers, steps + more[..n]);
  }

  predicate HasBeenSeated(s: System, source: FrameSource)
  {
    source in s.phases && IsSeated(s.phases[source])
  }

  lemma {:induction false} SeatedForOneStep(s: System, t: System, step: Step, source: FrameSource)
    requires Invariant(s) && t == Next(s, step) && HasBeenSeated(s, source)
    ensures HasBeenSeated(t, source)
  {
    SeatedStaysSeated(s, step, source);
  }

  lemma {:induction false} BackOneStep(s: System, t: System, step: Step, later: PeerEntry)
    requires Invariant(s) && t == Next(s, step) && HasBeenSeated(s, SourceOf(later)) && later in t.entries
    ensures exists e :: e in s.entries && SameButForThePeak(e, later)
  {
    EntriesComeFromBefore(s, step, later);
  }

  lemma {:induction false} SeatedStaySeated(maxPeers: nat, steps: seq<Step>, more: seq<Step>, source: FrameSource)
    requires HasBeenSeated(Run(maxPeers, steps), source)
    ensures HasBeenSeated(Run(maxPeers, steps + more), source)
    decreases |more|
  {
    if more == [] {
      assert steps + more == steps;
    } else {
      var n := |more| - 1;
      OneStepLater(maxPeers, steps, more);
      SeatedStaySeated(maxPeers, steps, more[..n], source);
      SeatedForOneStep(Run(maxPeers, steps + more[..n]), Run(maxPeers, steps + more), more[n], source);
    }
  }

  /** A session that has been seated is never seated again, so an entry of it goes back to an entry of it
      at any earlier time since, with a peak no higher; there is none after a time without. */
  lemma {:induction false} SeatedEntriesGoBack(maxPeers: nat, steps: seq<Step>, more: seq<Step>, later: PeerEntry)
    requires HasBeenSeated(Run(maxPeers, steps), SourceOf(later))
    requires later in Run(maxPeers, steps + more).entries
    ensures exists e :: e in Run(maxPeers, steps).entries && SameButForThePeak(e, later)
    decreases |more|
  {
    if more == [] {
      assert steps + more == steps;
      assert SameButForThePeak(later, later);
    } else {
      var n := |more| - 1;
      var before := Run(maxPeers, steps + more[..n]);
      OneStepLater(maxPeers, steps, more);
      SeatedStaySeated(maxPeers, steps, more[..n], SourceOf(later));
      BackOneStep(before, Run(maxPeers, steps + more), more[n], later);
      var e :| e in before.entries && SameButForThePeak(e, later);
      SeatedEntriesGoBack(maxPeers, steps, more[..n], e);
      var first :| first in Run(maxPeers, steps).entries && SameButForThePeak(first, e);
      assert SameButForThePeak(first, later);
    }
  }

  /** Held now and held at any later time of the run, whatever happened in between: the peak a session
      has announced has not fallen. */
  lemma {:induction false} AnnouncedPeaksNeverFall(
      maxPeers: nat, steps: seq<Step>, more: seq<Step>, e: PeerEntry, later: PeerEntry)
    requires e in Run(maxPeers, steps).entries && later in Run(maxPeers, steps + more).entries
    requires SourceOf(later) == SourceOf(e)
    ensures later.lastPeak >= e.lastPeak
  {
    EveryRunKeepsTheInvariant(maxPeers, steps);
    SeatedEntriesGoBack(maxPeers, steps, more, later);
    var first :| first in Run(maxPeers, steps).entries && SameButForThePeak(first, later);
    SameSourceSameEntry(Run(maxPeers, steps).entries, e, first);
  }

  lemma {:induction false} EntriesOnlyLost(s: System, step: Step, later: PeerEntry)
    requires DistinctAddresses(s.entries)
    requires later in Next(s, step).entries
    requires !(step.Receive? && step.message.NewPeak?) || Next(s, step).entries == s.entries
    ensures later in s.entries
      || (step.Admit? && PhaseOf(s, step.source).Identified? && SourceOf(later) == step.source)
  {
    match step
    case Eject(address) => FilterMembers(s.entries, (e: PeerEntry) => e.address != address);
    case EvictLagging => EvictionKeepsAddresses(s.entries);
    case Rotate(now) => RotationKeepsAddresses(s.entries, now);
    case SweepDead(k) =>
      if k < |s.sweeps| {
        FilterMembers(s.entries, (e: PeerEntry) => SourceOf(e) !in s.sweeps[k]);
      }
    case _ =>
  }
}
