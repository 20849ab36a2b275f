/** How many times a subscription can be told that its session has begun. Opening a session takes the
    fan-out's lock twice, once to list the session and once to publish its Reset, and a subscriber may
    join in between. */
module Resets {
  import opened Prelude
  import opened Net
  import opened Frames
  import opened PeerPool
  import opened Sessions
  import opened Subscriptions

  lemma {:induction false} OnlyTheFirstFrameIsReset(phase: Phase, log: seq<PoolFrame>, i: nat)
    requires LogFits(phase, log) && i < |log|
    ensures log[i] == Reset <==> i == 0
  {
    if phase.Ended? && i < |log| - 1 {
      assert log[..|log| - 1][i] == log[i];
    }
  }

  /** A second Reset is owed to a subscription if and only if it joined before its session's own Reset
      was published, and that Reset has been published since. */
  lemma {:induction false} ASecondResetIffJoinedBeforeTheFirst(maxPeers: nat, steps: seq<Step>, id: nat)
    requires id < |Run(maxPeers, steps).follows|
    ensures var s := Run(maxPeers, steps);
      var f := s.follows[id];
      && f.joined <= |LogOf(s, f.source)|
      && ((exists i :: 1 <= i < |Owed(s, f)| && Owed(s, f)[i].frame == Reset)
          <==> (f.joined == 0 && LogOf(s, f.source) != []))
  {
    EveryRunKeepsTheInvariant(maxPeers, steps);
    ResetsOwed(Run(maxPeers, steps), id);
  }

  lemma {:induction false} ResetsOwed(s: System, id: nat)
    requires Invariant(s) && id < |s.follows|
    ensures var f := s.follows[id];
      && f.joined <= |LogOf(s, f.source)|
      && ((exists i :: 1 <= i < |Owed(s, f)| && Owed(s, f)[i].frame == Reset)
          <==> (f.joined == 0 && LogOf(s, f.source) != []))
  {
    var f := s.follows[id];
    assert FollowOk(s, id) && f in s.follows;
    SessionFacts(s, f.source);
    var log, owed := LogOf(s, f.source), Owed(s, f);
    forall i | 1 <= i < |owed|
      ensures owed[i].frame == log[f.joined + i - 1]
      ensures owed[i].frame == Reset <==> f.joined + i - 1 == 0
    {
      OnlyTheFirstFrameIsReset(s.phases[f.source], log, f.joined + i - 1);
    }
    if f.joined == 0 && log != [] {
      assert owed[1].frame == Reset;
    }
  }

  /** A subscription has a second Reset in its stream if and only if it joined before its session's own
      Reset was published and anything has reached it since. */
  lemma {:induction false} ToldTwiceIffJoinedEarly(maxPeers: nat, steps: seq<Step>, id: nat)
    requires id < |Run(maxPeers, steps).follows|
    ensures var s := Run(maxPeers, steps);
      && id < |s.fanout.channels|
      && ((exists i :: 1 <= i < |Stream(s, id)| && Stream(s, id)[i].frame == Reset)
          <==> (s.follows[id].joined == 0 && |Stream(s, id)| >= 2))
  {
    EveryRunKeepsTheInvariant(maxPeers, steps);
    ResetsInAStream(Run(maxPeers, steps), id);
  }

  lemma {:induction false} ResetsInAStream(s: System, id: nat)
    requires Invariant(s) && id < |s.follows|
    ensures id < |s.fanout.channels|
    ensures (exists i :: 1 <= i < |Stream(s, id)| && Stream(s, id)[i].frame == Reset)
      <==> (s.follows[id].joined == 0 && |Stream(s, id)| >= 2)
  {
    var f := s.follows[id];
    assert FollowOk(s, id) && f in s.follows;
    SessionFacts(s, f.source);
    var log, stream := LogOf(s, f.source), Stream(s, id);
    assert stream <= Owed(s, f);
    forall i | 1 <= i < |stream|
      ensures stream[i].frame == Reset <==> f.joined + i - 1 == 0
    {
      assert stream[i] == Owed(s, f)[i];
      OnlyTheFirstFrameIsReset(s.phases[f.source], log, f.joined + i - 1);
    }
    if f.joined == 0 && |stream| >= 2 {
      assert stream[1].frame == Reset;
    }
  }

  /** The session's own Reset terminates a subscription that joined before it if and only if the
      subscriber has hung up, or has room for one frame and has not yet read the Reset it opened with. */
  lemma {:induction false} CutOffByTheOpeningIff(maxPeers: nat, steps: seq<Step>, id: nat)
    requires id < |Run(maxPeers, steps).follows|
    requires var s := Run(maxPeers, steps);
      !s.follows[id].lapsed && PhaseOf(s, s.follows[id].source).Open?
    ensures var s := Run(maxPeers, steps);
      var t := Next(s, Announce(s.follows[id].source));
      && id < |s.fanout.channels| && id < |t.follows|
      && (t.follows[id].lapsed <==>
           (!s.fanout.channels[id].listening
            || (s.fanout.channels[id].capacity == 1 && s.follows[id].received == [])))
  {
    EveryRunKeepsTheInvariant(maxPeers, steps);
    AnnouncingCutsOffIff(Run(maxPeers, steps), id);
  }

  lemma {:induction false} AnnouncingCutsOffIff(s: System, id: nat)
    requires Invariant(s) && id < |s.follows|
    requires !s.follows[id].lapsed && PhaseOf(s, s.follows[id].source).Open?
    ensures var t := Next(s, Announce(s.follows[id].source));
      && id < |s.fanout.channels| && id < |t.follows|
      && (t.follows[id].lapsed <==>
           (!s.fanout.channels[id].listening
            || (s.fanout.channels[id].capacity == 1 && s.follows[id].received == [])))
  {
    var f, c := s.follows[id], s.fanout.channels[id];
    assert FollowOk(s, id) && f in s.follows;
    SessionFacts(s, f.source);
    assert LogOf(s, f.source) == [];
    assert Stream(s, id) == [SourcedFrame(f.source, Reset)];
    assert |f.received| + |c.queue| == 1;
    assert Next(s, Announce(f.source)).follows == Lapse(s, f.source);
  }

  // ---------------------------------------------------------------------------
  // Joining between the two locks
  // ---------------------------------------------------------------------------

  const PEER := SocketAddr(V4(10, 0, 0, 1), 8444)
  const SESSION := FrameSource(PEER, 0)
  const OPENED := SourcedFrame(SESSION, Reset)
  const LISTED: PeerEntry := PeerEntry(PEER, 0, Discovered, 0, 0)

  const LISTING: seq<Step> := [Allocate(PEER), Step.Admit(SESSION, Discovered, 0), Step.Register(SESSION)]

  /** A run in which a subscriber with room for `capacity` frames joins between the two locks. */
  function Opening(capacity: nat): seq<Step> { LISTING + [Join(PEER, capacity)] + [Announce(SESSION)] }

  lemma {:induction false} OneMoreStep(maxPeers: nat, steps: seq<Step>, step: Step)
    ensures Run(maxPeers, steps + [step]) == Next(Run(maxPeers, steps), step)
  {
    assert (steps + [step])[..|steps|] == steps;
  }

  function With(followers: seq<nat>, channels: seq<Channel>, follows: seq<Follow>): System
  {
    System(Fanout(map[SESSION := followers], channels, 1), follows,
           map[SESSION := Open], map[SESSION := []], [LISTED], 1, [], [])
  }

  lemma {:induction false} TheSessionIsListed()
    ensures Run(1, LISTING) == With([], [], [])
  {
    var known, seated: seq<Step> := [Allocate(PEER)], [Allocate(PEER), Step.Admit(SESSION, Discovered, 0)];
    OneMoreStep(1, [], Allocate(PEER));
    assert [] + [Allocate(PEER)] == known;
    OneMoreStep(1, known, Step.Admit(SESSION, Discovered, 0));
    assert known + [Step.Admit(SESSION, Discovered, 0)] == seated;
    OneMoreStep(1, seated, Step.Register(SESSION));
    assert seated + [Step.Register(SESSION)] == LISTING;
  }

  lemma {:induction false} JoiningTheListed(capacity: nat)
    ensures Next(With([], [], []), Join(PEER, capacity))
      == With([0], [Channel(MaxOne(capacity), [OPENED], true)], [Follow(SESSION, 0, [], false)])
  {
    var s, held := With([], [], []), Channel(MaxOne(capacity), [OPENED], true);
    assert [LISTED][..0] == [];
    assert FirstAt([LISTED], PEER) == Some(LISTED);
    assert s.fanout.channels + [held] == [held];
    assert s.fanout.followers[SESSION] + [|s.fanout.channels|] == [0];
    assert s.fanout.followers[SESSION := [0]] == map[SESSION := [0]];
    assert Joined(s.fanout, SESSION, capacity) == Fanout(map[SESSION := [0]], [held], 1);
  }

  lemma {:induction false} TheSubscriberJoins(capacity: nat)
    ensures Run(1, LISTING + [Join(PEER, capacity)])
      == With([0], [Channel(MaxOne(capacity), [OPENED], true)], [Follow(SESSION, 0, [], false)])
  {
    TheSessionIsListed();
    OneMoreStep(1, LISTING, Join(PEER, capacity));
    JoiningTheListed(capacity);
  }

  /** What becomes of that subscriber: with room for two frames it has two Resets, and with room for one
      it is terminated by its own session's opening. */
  lemma {:induction false} TheEarlySubscriber(capacity: nat)
    ensures var s := Run(1, Opening(capacity));
      && |s.follows| == 1 && |s.fanout.channels| == 1
      && s.follows[0].lapsed == (capacity <= 1)
      && Stream(s, 0) == if capacity <= 1 then [OPENED] else [OPENED, OPENED]
  {
    var before := LISTING + [Join(PEER, capacity)];
    TheSubscriberJoins(capacity);
    OneMoreStep(1, before, Announce(SESSION));
    PublicationIsExact(Run(1, before).fanout, SESSION, Reset, 0);
  }

  /** Exactly one Reset is not a promise the code keeps: a subscriber that joins between the two locks
      is told twice. */
  lemma {:induction false} ASubscriberCanBeToldTwice()
    ensures var s := Run(1, Opening(4));
      && |s.follows| == 1 && |s.fanout.channels| == 1
      && Stream(s, 0) == [SourcedFrame(SESSION, Reset), SourcedFrame(SESSION, Reset)]
  {
    TheEarlySubscriber(4);
  }

  /** Nor is a live subscription: one with room for a single frame is terminated by the very opening of
      its session, having been told once. */
  lemma {:induction false} ASubscriberCanBeCutOffByTheOpening()
    ensures var s := Run(1, Opening(1));
      && |s.follows| == 1 && |s.fanout.channels| == 1
      && s.follows[0].joined == 0 && s.follows[0].lapsed
      && SESSION in s.fanout.followers && Stream(s, 0) == [SourcedFrame(SESSION, Reset)]
  {
    var before := LISTING + [Join(PEER, 1)];
    TheEarlySubscriber(1);
    TheSubscriberJoins(1);
    OneMoreStep(1, before, Announce(SESSION));
  }
}
