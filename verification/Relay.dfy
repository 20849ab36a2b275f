/** What a session relays (the handler of a pooled connection in src/peer/pool.rs): its followers are told,
    message by message, what it heard, and its pool entry carries the highest peak it heard. */
module Relay {
  import opened Prelude
  import opened Net
  import opened Frames
  import opened PeerPool
  import opened Sessions
  import opened Subscriptions
  import opened Eviction

  // ---------------------------------------------------------------------------
  // Messages and frames
  // ---------------------------------------------------------------------------

  /** The frame tells of the message, field by field. */
  predicate Tells(frame: PoolFrame, message: Message)
  {
    match message
    case NewPeak(height, hash) => frame.Peak? && frame.height == height && frame.headerHash == hash
    case CoinUpdate(height, fork, hash, items) =>
      if |items| > 100_000 then frame.SessionEnded? && frame.reason.OversizedFrame?
      else
        && frame.CoinStates?
        && frame.height == height && frame.forkHeight == fork && frame.peakHash == hash && frame.items == items
    case Undecodable => frame.SessionEnded? && frame.reason.UndecodableFrame?
    case Closed => frame.SessionEnded? && frame.reason.Disconnected?
    case Unrelated => false
  }

  predicate TellsAll(frames: seq<PoolFrame>, messages: seq<Message>)
  {
    |frames| == |messages| && forall i :: 0 <= i < |frames| ==> Tells(frames[i], messages[i])
  }

  /** The messages a session took from its transport while its handler ran, but for the unrelated ones. */
  function Heard(maxPeers: nat, steps: seq<Step>, source: FrameSource): seq<Message>
  {
    if steps == [] then []
    else
      var n := |steps| - 1;
      Heard(maxPeers, steps[..n], source) + HeardIn(Run(maxPeers, steps[..n]), steps[n], source)
  }

  function HeardIn(s: System, step: Step, source: FrameSource): seq<Message>
  {
    if step.Receive? && step.source == source && PhaseOf(s, source).Running? && !step.message.Unrelated?
    then [step.message] else []
  }

  function Pending(phase: Phase): seq<PoolFrame>
  {
    match phase
    case Publishing(frame) => [frame]
    case Stopping(reason) => [SessionEnded(reason)]
    case Dying(reason) => [SessionEnded(reason)]
    case _ => []
  }

  /** What a session has published after its Reset, and what it is about to publish. */
  function Told(s: System, source: FrameSource): seq<PoolFrame>
  {
    var log := LogOf(s, source);
    (if log == [] then [] else log[1..]) + Pending(PhaseOf(s, source))
  }

  ghost predicate TellsMore(before: seq<PoolFrame>, after: seq<PoolFrame>, messages: seq<Message>)
  {
    exists more :: after == before + more && TellsAll(more, messages)
  }

  lemma {:induction false} TellingMore(
      before: seq<PoolFrame>, after: seq<PoolFrame>, heard: seq<Message>, messages: seq<Message>)
    requires TellsAll(before, heard) && TellsMore(before, after, messages)
    ensures TellsAll(after, heard + messages)
  {
    var more :| after == before + more && TellsAll(more, messages);
  }

  lemma {:induction false} QuietTells(s: System, t: System, source: FrameSource)
    requires LogOf(t, source) == LogOf(s, source)
    requires Pending(PhaseOf(t, source)) == Pending(PhaseOf(s, source))
    ensures Told(t, source) == Told(s, source)
  {
  }

  lemma {:induction false} PublishingTells(s: System, t: System, source: FrameSource, frame: PoolFrame)
    requires LogOf(s, source) != [] && LogOf(t, source) == LogOf(s, source) + [frame]
    requires Pending(PhaseOf(s, source)) == [frame] && Pending(PhaseOf(t, source)) == []
    ensures Told(t, source) == Told(s, source)
  {
  }

  lemma {:induction false} HearingTells(s: System, t: System, source: FrameSource)
    requires LogOf(t, source) == LogOf(s, source) && Pending(PhaseOf(s, source)) == []
    ensures Told(t, source) == Told(s, source) + Pending(PhaseOf(t, source))
  {
  }

  lemma {:induction false} ReceivingTells(s: System, source: FrameSource, message: Message)
    requires KnownSession(s, source)
    ensures var t := Next(s, Receive(source, message));
      TellsMore(Told(s, source), Told(t, source), HeardIn(s, Receive(source, message), source))
  {
    var t := Next(s, Receive(source, message));
    if t == s {
      assert Told(t, source) == Told(s, source) + [];
    } else {
      HearingTells(s, t, source);
    }
  }

  lemma {:induction false} OtherTaskStepsTell(s: System, step: Step, source: FrameSource)
    requires KnownSession(s, source) && IsTaskStep(step) && step.source == source && !step.Receive?
    ensures Told(Next(s, step), source) == Told(s, source)
  {
    var t := Next(s, step);
    if step.PublishFrame? && PhaseOf(s, source).Publishing? {
      PublishingTells(s, t, source, PhaseOf(s, source).frame);
    } else if step.PublishEnd? && PhaseOf(s, source).Dying? {
      PublishingTells(s, t, source, SessionEnded(PhaseOf(s, source).reason));
    } else if step.Announce? && PhaseOf(s, source).Open? {
      assert LogOf(t, source) == [Reset];
    } else {
      QuietTells(s, t, source);
    }
  }

  lemma {:induction false} AllocationsTellNothing(s: System, address: SocketAddr, source: FrameSource)
    requires SessionsOk(s)
    ensures Told(Next(s, Allocate(address)), source) == Told(s, source)
  {
    if source == FrameSource(address, s.fanout.nextSession) {
      assert source !in s.phases && source !in s.logs;
    } else {
      QuietTells(s, Next(s, Allocate(address)), source);
    }
  }

  lemma {:induction false} TasksOfOthersTellNothing(s: System, step: Step, source: FrameSource)
    requires SessionsOk(s) && IsTaskStep(step) && step.source != source
    ensures Told(Next(s, step), source) == Told(s, source)
  {
    if step.source in s.phases { SessionFacts(s, step.source); }
    TaskStepMoves(s, step);
    OthersAreUnmoved(s, Next(s, step), step.source, source);
    QuietTells(s, Next(s, step), source);
  }

  lemma {:induction false} OthersAreUnmoved(s: System, t: System, mover: FrameSource, source: FrameSource)
    requires source != mover
    requires t == s || Moves(s, t, mover, PhaseOf(t, mover), LogOf(t, mover))
    ensures PhaseOf(t, source) == PhaseOf(s, source) && LogOf(t, source) == LogOf(s, source)
  {
  }

  lemma {:induction false} StepsOfOthersTellNothing(s: System, step: Step, source: FrameSource)
    requires SessionsOk(s) && !(IsTaskStep(step) && step.source == source)
    ensures Told(Next(s, step), source) == Told(s, source)
  {
    if step.Allocate? {
      AllocationsTellNothing(s, step.address, source);
    } else if IsTaskStep(step) {
      TasksOfOthersTellNothing(s, step, source);
    } else {
      OtherStepsMoveNoSession(s, step);
      QuietTells(s, Next(s, step), source);
    }
  }

  lemma {:induction false} OneStepTells(s: System, step: Step, source: FrameSource)
    requires SessionsOk(s)
    ensures TellsMore(Told(s, source), Told(Next(s, step), source), HeardIn(s, step, source))
  {
    if source in s.phases { SessionFacts(s, source); }
    if step.Receive? && step.source == source {
      ReceivingTells(s, source, step.message);
    } else {
      if IsTaskStep(step) && step.source == source {
        OtherTaskStepsTell(s, step, source);
      } else {
        StepsOfOthersTellNothing(s, step, source);
      }
      assert Told(Next(s, step), source) == Told(s, source) + [];
    }
  }

  /** Over every run: what a session has published after its Reset, and what it is about to, tells in
      order and field by field of exactly the messages it heard, the one that stopped it included. */
  lemma {:induction false} FollowersAreToldWhatWasHeard(maxPeers: nat, steps: seq<Step>, source: FrameSource)
    ensures TellsAll(Told(Run(maxPeers, steps), source), Heard(maxPeers, steps, source))
  {
    if steps != [] {
      var n := |steps| - 1;
      var s := Run(maxPeers, steps[..n]);
      FollowersAreToldWhatWasHeard(maxPeers, steps[..n], source);
      EveryRunKeepsTheInvariant(maxPeers, steps[..n]);
      OneStepTells(s, steps[n], source);
      TellingMore(Told(s, source), Told(Next(s, steps[n]), source),
                  Heard(maxPeers, steps[..n], source), HeardIn(s, steps[n], source));
    }
  }

  /** Frame `i` of a stream that joined after `joined` publications tells of what was heard then. */
  predicate StreamTells(joined: nat, stream: seq<SourcedFrame>, heard: seq<Message>, i: nat)
    requires 1 <= i < |stream|
  {
    if joined + i == 1 then stream[i].frame.Reset?
    else joined + i - 2 < |heard| && Tells(stream[i].frame, heard[joined + i - 2])
  }

  /** What a subscription has been sent after its own Reset tells, with no gap, of the messages that its
      session heard from the time it joined; a subscription that joined before the session's Reset has
      that Reset first. */
  lemma {:induction false} SubscribersAreToldWhatWasHeard(maxPeers: nat, steps: seq<Step>, id: nat, i: nat)
    requires id < |Run(maxPeers, steps).follows|
    ensures id < |Run(maxPeers, steps).fanout.channels|
    ensures var s := Run(maxPeers, steps);
      var f := s.follows[id];
      1 <= i < |Stream(s, id)| ==> StreamTells(f.joined, Stream(s, id), Heard(maxPeers, steps, f.source), i)
  {
    var s := Run(maxPeers, steps);
    EveryRunKeepsTheInvariant(maxPeers, steps);
    FollowersAreToldWhatWasHeard(maxPeers, steps, s.follows[id].source);
    StreamsTell(s, id, i, Heard(maxPeers, steps, s.follows[id].source));
  }

  lemma {:induction false} StreamsTell(s: System, id: nat, i: nat, heard: seq<Message>)
    requires Invariant(s) && id < |s.follows| && TellsAll(Told(s, s.follows[id].source), heard)
    ensures id < |s.fanout.channels|
    ensures 1 <= i < |Stream(s, id)| ==> StreamTells(s.follows[id].joined, Stream(s, id), heard, i)
  {
    var f := s.follows[id];
    assert FollowOk(s, id) && f in s.follows;
    SessionFacts(s, f.source);
    if 1 <= i < |Stream(s, id)| {
      var log := LogOf(s, f.source);
      assert Stream(s, id)[i] == Owed(s, f)[i];
      assert Owed(s, f)[i].frame == log[f.joined + i - 1];
      if f.joined + i > 1 {
        assert Told(s, f.source)[f.joined + i - 2] == log[1..][f.joined + i - 2];
      } else {
        FirstIsReset(s.phases[f.source], log);
      }
    }
  }

  lemma {:induction false} FirstIsReset(phase: Phase, log: seq<PoolFrame>)
    requires LogFits(phase, log) && log != []
    ensures log[0] == Reset
  {
    if phase.Ended? {
      assert log[..|log| - 1][0] == log[0];
    }
  }

  // ---------------------------------------------------------------------------
  // The announced peak
  // ---------------------------------------------------------------------------

  /** The highest of the peaks in the messages, or zero. */
  function HighestPeak(messages: seq<Message>): (highest: nat)
    ensures forall m :: m in messages && m.NewPeak? ==> m.height <= highest
    ensures highest == 0 || exists m :: m in messages && m.NewPeak? && m.height == highest
  {
    if messages == [] then 0
    else
      var n := |messages| - 1;
      var rest, m := HighestPeak(messages[..n]), messages[n];
      assert messages == messages[..n] + [m];
      if m.NewPeak? && m.height > rest then m.height else rest
  }

  lemma {:induction false} HighestOfOneMore(messages: seq<Message>, m: Message)
    ensures HighestPeak(messages + [m])
      == if m.NewPeak? && m.height > HighestPeak(messages) then m.height else HighestPeak(messages)
  {
    assert (messages + [m])[..|messages|] == messages;
  }

  lemma {:induction false} NothingHeardBeforeSeating(maxPeers: nat, steps: seq<Step>, source: FrameSource)
    requires PhaseOf(Run(maxPeers, steps), source).Identified?
    ensures Heard(maxPeers, steps, source) == []
  {
    var s := Run(maxPeers, steps);
    EveryRunKeepsTheInvariant(maxPeers, steps);
    SessionFacts(s, source);
    FollowersAreToldWhatWasHeard(maxPeers, steps, source);
  }

  lemma {:induction false} PeaksInOneStep(
      s: System, step: Step, later: PeerEntry, before: seq<Message>)
    requires DistinctAddresses(s.entries) && later in Next(s, step).entries
    requires forall e :: e in s.entries && SourceOf(e) == SourceOf(later) ==> e.lastPeak == HighestPeak(before)
    requires PhaseOf(s, SourceOf(later)).Identified? ==> before == []
    requires forall e :: e in s.entries ==> !PhaseOf(s, SourceOf(e)).Identified?
    ensures later.lastPeak == HighestPeak(before + HeardIn(s, step, SourceOf(later)))
  {
    var t := Next(s, step);
    var heard := HeardIn(s, step, SourceOf(later));
    if heard != [] {
      HighestOfOneMore(before, heard[0]);
      assert heard == [heard[0]];
    } else {
      assert before + heard == before;
    }
    if step.Receive? && step.message.NewPeak? && PhaseOf(s, step.source).Running? {
      var i :| 0 <= i < |t.entries| && t.entries[i] == later;
      assert s.entries[i] in s.entries;
    } else {
      EntriesOnlyLost(s, step, later);
    }
  }

  /** Over every run: a held entry carries the highest peak that its session has heard. */
  lemma {:induction false} AnEntryCarriesTheHighestPeakHeard(maxPeers: nat, steps: seq<Step>, e: PeerEntry)
    requires e in Run(maxPeers, steps).entries
    ensures e.lastPeak == HighestPeak(Heard(maxPeers, steps, SourceOf(e)))
  {
    if steps != [] {
      var n := |steps| - 1;
      var s := Run(maxPeers, steps[..n]);
      EveryRunKeepsTheInvariant(maxPeers, steps[..n]);
      forall old_ | old_ in s.entries && SourceOf(old_) == SourceOf(e)
        ensures old_.lastPeak == HighestPeak(Heard(maxPeers, steps[..n], SourceOf(e)))
      {
        AnEntryCarriesTheHighestPeakHeard(maxPeers, steps[..n], old_);
      }
      if PhaseOf(s, SourceOf(e)).Identified? {
        NothingHeardBeforeSeating(maxPeers, steps[..n], SourceOf(e));
      }
      PeaksInOneStep(s, steps[n], e, Heard(maxPeers, steps[..n], SourceOf(e)));
    }
  }

  // ---------------------------------------------------------------------------
  // What a session can always do
  // ---------------------------------------------------------------------------

  /** A session whose address is not held, with room in the pool, can come up: it is then held, listed
      and running, and has published its Reset. */
  lemma {:induction false} ASessionCanComeUp(
      maxPeers: nat, steps: seq<Step>, source: FrameSource, origin: PeerOrigin, now: nat)
    requires var s := Run(maxPeers, steps);
      && PhaseOf(s, source).Identified? && |s.entries| < s.maxPeers
      && forall e :: e in s.entries ==> e.address != source.address
    ensures var s := Run(maxPeers, steps);
      var open := Next(Next(s, Step.Admit(source, origin, now)), Step.Register(source));
      var t := Next(Next(open, Announce(source)), Spawn(source));
      && t.entries == s.entries + [PeerEntry(source.address, source.session, origin, 0, now)]
      && source in t.fanout.followers && PhaseOf(t, source).Running? && LogOf(t, source) == [Reset]
  {
    EveryRunKeepsTheInvariant(maxPeers, steps);
    SessionFacts(Run(maxPeers, steps), source);
    assert [] + [Reset] == [Reset];
  }

  /** A running session publishes what it hears and runs on. */
  lemma {:induction false} ARunningSessionRelays(
      maxPeers: nat, steps: seq<Step>, source: FrameSource, message: Message)
    requires PhaseOf(Run(maxPeers, steps), source).Running?
    requires message.NewPeak? || (message.CoinUpdate? && |message.items| <= 100_000)
    ensures var s := Run(maxPeers, steps);
      var t := Next(Next(s, Receive(source, message)), PublishFrame(source));
      && PhaseOf(t, source).Running?
      && |LogOf(t, source)| == |LogOf(s, source)| + 1 && LogOf(s, source) <= LogOf(t, source)
      && Tells(LogOf(t, source)[|LogOf(s, source)|], message)
  {
    EveryRunKeepsTheInvariant(maxPeers, steps);
    SessionFacts(Run(maxPeers, steps), source);
  }

  /** The handler stopped by a message: its last steps of its own. */
  function OnceStopped(s: System, source: FrameSource, message: Message): System
  {
    Next(Next(Next(s, Receive(source, message)), RecordDeath(source)), PublishEnd(source))
  }

  predicate StopsASession(message: Message)
  {
    message.Closed? || message.Undecodable? || (message.CoinUpdate? && |message.items| > 100_000)
  }

  lemma {:induction false} StoppingSaysSo(s: System, source: FrameSource, message: Message)
    requires KnownSession(s, source) && PhaseOf(s, source).Running? && StopsASession(message)
    ensures var t := OnceStopped(s, source, message);
      && |LogOf(t, source)| == |LogOf(s, source)| + 1 && LogOf(s, source) <= LogOf(t, source)
      && Tells(LogOf(t, source)[|LogOf(s, source)|], message)
      && source !in t.fanout.followers
      && t.entries == s.entries && t.dead == s.dead + [source] && t.sweeps == s.sweeps
  {
  }

  lemma {:induction false} AMaintenanceSweepsTheDead(s: System, e: PeerEntry)
    ensures var t := Next(Next(s, TakeDead), SweepDead(|s.sweeps|));
      && t.logs == s.logs && t.fanout == s.fanout && t.dead == [] && t.sweeps == s.sweeps
      && (e in t.entries <==> e in s.entries && FrameSource(e.address, e.session) !in s.dead)
  {
    var taken := Next(s, TakeDead);
    assert taken.sweeps == s.sweeps + [s.dead];
    FilterMembers(s.entries, (x: PeerEntry) => SourceOf(x) !in s.dead);
  }

  /** A session that is closed, garbled or flooded says so last and is listed no more, and the next
      maintenance sweeps it from the pool, with the others that have died and nobody else. */
  lemma {:induction false} AStoppedSessionLeaves(
      maxPeers: nat, steps: seq<Step>, source: FrameSource, message: Message, e: PeerEntry)
    requires PhaseOf(Run(maxPeers, steps), source).Running? && StopsASession(message)
    ensures var s := Run(maxPeers, steps);
      var ended := OnceStopped(s, source, message);
      var t := Next(Next(ended, TakeDead), SweepDead(|ended.sweeps|));
      && |LogOf(t, source)| == |LogOf(s, source)| + 1 && LogOf(s, source) <= LogOf(t, source)
      && Tells(LogOf(t, source)[|LogOf(s, source)|], message)
      && source !in t.fanout.followers
      && (e in t.entries <==>
           e in s.entries && FrameSource(e.address, e.session) !in s.dead
           && (e.address != source.address || e.session != source.session))
  {
    var s := Run(maxPeers, steps);
    EveryRunKeepsTheInvariant(maxPeers, steps);
    SessionFacts(s, source);
    StoppingSaysSo(s, source, message);
    AMaintenanceSweepsTheDead(OnceStopped(s, source, message), e);
  }

  /** An ejection takes the entries at the address and nothing else. */
  lemma {:induction false} EjectionsTakeExactly(s: System, address: SocketAddr, e: PeerEntry)
    ensures var t := Next(s, Eject(address));
      t == s.(entries := t.entries) && (e in t.entries <==> e in s.entries && e.address != address)
  {
    FilterMembers(s.entries, (x: PeerEntry) => x.address != address);
  }

  lemma {:induction false} OneIsTaken(entries: Entries, after: Entries, i: nat, e: PeerEntry)
    requires i < |entries| && after == entries[..i] + entries[i + 1..]
    ensures |after| == |entries| - 1 && (e in entries && e != entries[i] ==> e in after)
  {
    assert entries == entries[..i] + [entries[i]] + entries[i + 1..];
  }

  /** A rotation takes one discovered peer over age while there are any, and nothing else. */
  lemma {:induction false} RotationsTakeOne(s: System, now: nat, e: PeerEntry)
    ensures var t := Next(s, Rotate(now));
      && t == s.(entries := t.entries)
      && |t.entries| == |s.entries| - (if exists x :: x in s.entries && OverAge(x, now) then 1 else 0)
      && (e in s.entries && !OverAge(e, now) ==> e in t.entries)
  {
    RotationTakesTheOldest(s.entries, now);
    var after := WithoutOldest(s.entries, now);
    if after != s.entries {
      var i :| 0 <= i < |s.entries| && after == s.entries[..i] + s.entries[i + 1..] && OverAge(s.entries[i], now);
      OneIsTaken(s.entries, after, i, e);
    }
  }

  /** A subscription has a sender, and so is not at its end once read, exactly until a publication fails to
      reach it or its session ends. */
  lemma {:induction false} ASubscriptionEndsIff(maxPeers: nat, steps: seq<Step>, id: nat)
    requires id < |Run(maxPeers, steps).follows|
    ensures var s := Run(maxPeers, steps);
      var f := s.follows[id];
      (exists a :: a in s.fanout.followers && id in s.fanout.followers[a])
      <==> !f.lapsed && f.source in s.fanout.followers
  {
    EveryRunKeepsTheInvariant(maxPeers, steps);
    SendersOf(Run(maxPeers, steps), id);
  }

  lemma {:induction false} SendersOf(s: System, id: nat)
    requires FollowsOk(s) && id < |s.follows|
    ensures (exists a :: a in s.fanout.followers && id in s.fanout.followers[a])
      <==> !s.follows[id].lapsed && s.follows[id].source in s.fanout.followers
  {
    assert FollowOk(s, id);
  }

  /** A subscriber that leaves is let go at the next publication of its session, and is sent no more. */
  lemma {:induction false} ALeaverIsLetGo(maxPeers: nat, steps: seq<Step>, id: nat)
    requires id < |Run(maxPeers, steps).follows| && !Run(maxPeers, steps).follows[id].lapsed
    requires PhaseOf(Run(maxPeers, steps), Run(maxPeers, steps).follows[id].source).Publishing?
    ensures var s := Run(maxPeers, steps);
      var source := s.follows[id].source;
      var t := Next(Next(s, Leave(id)), PublishFrame(source));
      && id < |t.follows| && t.follows[id].lapsed && id < |t.fanout.channels| && id < |s.fanout.channels|
      && t.fanout.channels[id].queue == s.fanout.channels[id].queue
      && source in t.fanout.followers && id !in t.fanout.followers[source]
  {
    EveryRunKeepsTheInvariant(maxPeers, steps);
    LiveFollowers(Run(maxPeers, steps), id);
    LeavingLapses(Run(maxPeers, steps), id);
  }

  lemma {:induction false} LiveFollowers(s: System, id: nat)
    requires Invariant(s) && id < |s.follows| && !s.follows[id].lapsed
    requires PhaseOf(s, s.follows[id].source).Publishing?
    ensures var source := s.follows[id].source;
      && id < |s.fanout.channels| && source in s.fanout.followers && id in s.fanout.followers[source]
      && !PhaseOf(s, source).frame.SessionEnded?
  {
    var f := s.follows[id];
    assert FollowOk(s, id) && f in s.follows;
    SessionFacts(s, f.source);
  }

  lemma {:induction false} LeavingLapses(s: System, id: nat)
    requires id < |s.follows| && id < |s.fanout.channels|
    requires var source := s.follows[id].source;
      && source in s.fanout.followers && id in s.fanout.followers[source]
      && PhaseOf(s, source).Publishing? && !PhaseOf(s, source).frame.SessionEnded?
    ensures var source := s.follows[id].source;
      var t := Next(Next(s, Leave(id)), PublishFrame(source));
      && id < |t.follows| && t.follows[id].lapsed && id < |t.fanout.channels|
      && t.fanout.channels[id].queue == s.fanout.channels[id].queue
      && source in t.fanout.followers && id !in t.fanout.followers[source]
  {
    var source := s.follows[id].source;
    PublishingLapses(Next(s, Leave(id)), source, PhaseOf(s, source).frame, id);
  }

  lemma {:induction false} PublishingLapses(s: System, source: FrameSource, frame: PoolFrame, id: nat)
    requires source in s.fanout.followers && id in s.fanout.followers[source] && !frame.SessionEnded?
    requires id < |s.follows| && id < |s.fanout.channels| && !s.fanout.channels[id].listening
    ensures var t := Publish(s, source, frame);
      && |t.follows| == |s.follows| && t.follows[id].lapsed
      && |t.fanout.channels| == |s.fanout.channels| && t.fanout.channels[id] == s.fanout.channels[id]
      && source in t.fanout.followers && id !in t.fanout.followers[source]
  {
    FilterMembers(s.fanout.followers[source], (i: nat) => AcceptsAt(s.fanout.channels, i));
  }

  /** Reading takes the head of the queue, in order and whole, while the reader listens. */
  lemma {:induction false} AReadTakesTheHead(maxPeers: nat, steps: seq<Step>, id: nat)
    requires id < |Run(maxPeers, steps).follows|
    ensures var s := Run(maxPeers, steps);
      var t := Next(s, Read(id));
      && id < |s.fanout.channels| && id < |t.fanout.channels| && id < |t.follows|
      && (s.fanout.channels[id].listening && s.fanout.channels[id].queue != [] ==>
           && t.follows[id].received == s.follows[id].received + [s.fanout.channels[id].queue[0]]
           && t.fanout.channels[id].queue == s.fanout.channels[id].queue[1..])
  {
    EveryRunKeepsTheInvariant(maxPeers, steps);
  }
}
