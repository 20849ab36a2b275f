/** Sessions, the pool and its subscribers together, as interleaved atomic steps (src/peer/pool.rs,
    src/peer/frames.rs).

    One step is what one task does between two points at which another may run: an acquisition of the
    pool's lock, of the fan-out's, or of the dead list's, or one message taken from the transport.
    What arrives from the network, which task moves next, and when subscribers read, are all arbitrary.
    A step whose task is not at that point leaves the system as it is. */
module Sessions {
  import opened Prelude
  import opened Net
  import opened Frames
  import opened PeerPool
  import CoinCache

  // ---------------------------------------------------------------------------
  // The system
  // ---------------------------------------------------------------------------

  /** Where one connection stands. `Publishing` holds a frame taken from the transport and
      not yet published. */
  datatype Phase =
    | Identified | Rejected | Seated | Open | Announced
    | Running | Publishing(frame: PoolFrame)
    | Stopping(reason: SessionEndReason) | Dying(reason: SessionEndReason) | Ended

  /** The history of one subscription: when it joined its source's log, what it has read, and whether
      a publication ever failed to reach it. */
  datatype Follow = Follow(
    source: FrameSource, joined: nat, received: seq<SourcedFrame>, lapsed: bool)

  datatype Message =
    | NewPeak(height: nat, headerHash: nat)
    | CoinUpdate(height: nat, forkHeight: nat, peakHash: nat, items: seq<CoinCache.CoinState>)
    | Undecodable
    | Unrelated
    | Closed

  datatype System = System(
    fanout: Fanout,
    follows: seq<Follow>,
    phases: map<FrameSource, Phase>,
    logs: map<FrameSource, seq<PoolFrame>>,
    entries: Entries,
    maxPeers: nat,
    dead: seq<FrameSource>,
    sweeps: seq<seq<FrameSource>>)

  function Start(maxPeers: nat): System
  {
    System(EMPTY_FANOUT, [], map[], map[], [], maxPeers, [], [])
  }

  datatype Step =
    | Allocate(address: SocketAddr)
    | Admit(source: FrameSource, origin: PeerOrigin, now: nat)
    | Register(source: FrameSource)
    | Announce(source: FrameSource)
    | Spawn(source: FrameSource)
    | Receive(source: FrameSource, message: Message)
    | PublishFrame(source: FrameSource)
    | RecordDeath(source: FrameSource)
    | PublishEnd(source: FrameSource)
    | Join(address: SocketAddr, capacity: nat)
    | Read(id: nat)
    | Leave(id: nat)
    | Eject(address: SocketAddr)
    | EvictLagging
    | Rotate(now: nat)
    | TakeDead
    | SweepDead(k: nat)

  function PhaseOf(s: System, source: FrameSource): Phase
  {
    if source in s.phases then s.phases[source] else Rejected
  }

  function LogOf(s: System, source: FrameSource): seq<PoolFrame>
  {
    if source in s.logs then s.logs[source] else []
  }

  function Moved(s: System, source: FrameSource, phase: Phase): System
  {
    s.(phases := s.phases[source := phase])
  }

  function Lapse(s: System, source: FrameSource): seq<Follow>
    requires source in s.fanout.followers
  {
    seq(|s.follows|, i requires 0 <= i < |s.follows| =>
      if i in s.fanout.followers[source] && !AcceptsAt(s.fanout.channels, i)
      then s.follows[i].(lapsed := true) else s.follows[i])
  }

  function Publish(s: System, source: FrameSource, frame: PoolFrame): System
  {
    if source !in s.fanout.followers then s
    else s.(
      fanout := Published(s.fanout, source, frame),
      logs := s.logs[source := LogOf(s, source) + [frame]],
      follows := Lapse(s, source))
  }

  /** `last_peak` is shared between a session's task and its pool entry, and only rises. */
  function NotePeak(entries: Entries, source: FrameSource, height: nat): Entries
  {
    seq(|entries|, i requires 0 <= i < |entries| =>
      if SourceOf(entries[i]) == source && entries[i].lastPeak < height
      then entries[i].(lastPeak := height) else entries[i])
  }

  function FirstAt(entries: Entries, address: SocketAddr): (e: Option<PeerEntry>)
    ensures e.Some? ==> e.value in entries && e.value.address == address
  {
    if entries == [] then None
    else
      var rest := FirstAt(entries[..|entries| - 1], address);
      var last := entries[|entries| - 1];
      if rest.Some? then rest else if last.address == address then Some(last) else None
  }

  /** The body of the handler's loop for one message. */
  function Handle(s: System, source: FrameSource, message: Message): System
  {
    match message
    case NewPeak(height, hash) =>
      Moved(s, source, Publishing(Peak(height, hash))).(entries := NotePeak(s.entries, source, height))
    case CoinUpdate(height, fork, hash, items) =>
      if |items| > MAX_FRAME_COIN_STATES then Moved(s, source, Stopping(OversizedFrame))
      else Moved(s, source, Publishing(CoinStates(height, fork, hash, items)))
    case Undecodable => Moved(s, source, Stopping(UndecodableFrame))
    case Closed => Moved(s, source, Stopping(Disconnected))
    case Unrelated => s
  }

  function Next(s: System, step: Step): System
  {
    match step
    case Allocate(address) =>
      var source := FrameSource(address, s.fanout.nextSession);
      Moved(s, source, Identified).(
        fanout := s.fanout.(nextSession := s.fanout.nextSession + 1), logs := s.logs[source := []])
    case Admit(source, origin, now) =>
      if !PhaseOf(s, source).Identified? then s
      else if !Admissible(s.entries, s.maxPeers, source.address) then Moved(s, source, Rejected)
      else Moved(s, source, Seated).(
        entries := s.entries + [PeerEntry(source.address, source.session, origin, 0, now)])
    case Register(source) =>
      if !PhaseOf(s, source).Seated? then s
      else Moved(s, source, Open).(fanout := Registered(s.fanout, source))
    case Announce(source) =>
      if !PhaseOf(s, source).Open? then s else Moved(Publish(s, source, Reset), source, Announced)
    case Spawn(source) =>
      if !PhaseOf(s, source).Announced? then s else Moved(s, source, Running)
    case Receive(source, message) =>
      if !PhaseOf(s, source).Running? then s else Handle(s, source, message)
    case PublishFrame(source) =>
      if !PhaseOf(s, source).Publishing? then s
      else Moved(Publish(s, source, PhaseOf(s, source).frame), source, Running)
    case RecordDeath(source) =>
      if !PhaseOf(s, source).Stopping? then s
      else Moved(s, source, Dying(PhaseOf(s, source).reason)).(dead := s.dead + [source])
    case PublishEnd(source) =>
      if !PhaseOf(s, source).Dying? then s
      else Moved(Publish(s, source, SessionEnded(PhaseOf(s, source).reason)), source, Ended)
    case Join(address, capacity) =>
      var e := FirstAt(s.entries, address);
      if e.None? || SourceOf(e.value) !in s.fanout.followers then s
      else
        var source := SourceOf(e.value);
        s.(fanout := Joined(s.fanout, source, capacity),
           follows := s.follows + [Follow(source, |LogOf(s, source)|, [], false)])
    case Read(id) =>
      if id >= |s.fanout.channels| || id >= |s.follows|
         || s.fanout.channels[id].queue == [] || !s.fanout.channels[id].listening then s
      else
        var first := s.fanout.channels[id].queue[0];
        s.(fanout := Received(s.fanout, id),
           follows := s.follows[id := s.follows[id].(received := s.follows[id].received + [first])])
    case Leave(id) => s.(fanout := Hushed(s.fanout, id))
    case Eject(address) => s.(entries := WithoutAddress(s.entries, address))
    case EvictLagging => s.(entries := WithoutLagging(s.entries))
    case Rotate(now) => s.(entries := WithoutOldest(s.entries, now))
    case TakeDead => s.(dead := [], sweeps := s.sweeps + [s.dead])
    case SweepDead(k) =>
      if k >= |s.sweeps| then s
      else s.(entries := WithoutDead(s.entries, s.sweeps[k]), sweeps := s.sweeps[..k] + s.sweeps[k + 1..])
  }

  function Run(maxPeers: nat, steps: seq<Step>): System
  {
    if steps == [] then Start(maxPeers)
    else Next(Run(maxPeers, steps[..|steps| - 1]), steps[|steps| - 1])
  }

  // ---------------------------------------------------------------------------
  // What every run keeps
  // ---------------------------------------------------------------------------

  predicate IsLive(phase: Phase)
  {
    phase.Open? || phase.Announced? || phase.Running? || phase.Publishing? || phase.Stopping? || phase.Dying?
  }

  predicate HasStopped(phase: Phase) { phase.Dying? || phase.Ended? }

  predicate IsSeated(phase: Phase) { phase.Seated? || IsLive(phase) || phase.Ended? }

  predicate BodyFrame(f: PoolFrame)
  {
    f.Peak? || (f.CoinStates? && |f.items| <= MAX_FRAME_COIN_STATES)
  }

  /** Reset, then peaks and bounded coin updates. */
  predicate Opened(log: seq<PoolFrame>)
  {
    log != [] && log[0] == Reset && forall i :: 1 <= i < |log| ==> BodyFrame(log[i])
  }

  predicate LogFits(phase: Phase, log: seq<PoolFrame>)
  {
    match phase
    case Identified => log == []
    case Rejected => log == []
    case Seated => log == []
    case Open => log == []
    case Publishing(frame) => Opened(log) && BodyFrame(frame)
    case Ended => log != [] && log[|log| - 1].SessionEnded? && Opened(log[..|log| - 1])
    case _ => Opened(log)
  }

  /** Every session has its own number, below the next one to be given out. */
  ghost predicate Numbered(s: System)
  {
    && s.logs.Keys == s.phases.Keys
    && (forall a :: a in s.phases ==> a.session < s.fanout.nextSession)
    && (forall a, b :: a in s.phases && b in s.phases && a.session == b.session ==> a == b)
  }

  ghost predicate LogsFit(s: System)
  {
    forall a :: a in s.phases && a in s.logs ==> LogFits(s.phases[a], s.logs[a])
  }

  /** The fan-out lists exactly the sessions that have opened and whose handlers have not finished. */
  ghost predicate RegisteredAreLive(s: System)
  {
    forall a :: a in s.fanout.followers <==> a in s.phases && IsLive(s.phases[a])
  }

  ghost predicate Stopped(s: System, d: FrameSource) { d in s.phases && HasStopped(s.phases[d]) }

  ghost predicate DeadHaveStopped(s: System)
  {
    && (forall d :: d in s.dead ==> Stopped(s, d))
    && (forall k, d :: 0 <= k < |s.sweeps| && d in s.sweeps[k] ==> Stopped(s, d))
  }

  ghost predicate SessionsOk(s: System)
  {
    Numbered(s) && LogsFit(s) && RegisteredAreLive(s) && DeadHaveStopped(s)
  }

  /** The pool is bounded, holds each address once, and holds only connections it seated. */
  ghost predicate PoolOk(s: System)
  {
    && |s.entries| <= s.maxPeers
    && DistinctAddresses(s.entries)
    && (forall e :: e in s.entries ==> SourceOf(e) in s.phases && IsSeated(s.phases[SourceOf(e)]))
  }

  /** What a subscription is owed: its own Reset, then its source's log since it joined. */
  function Owed(s: System, f: Follow): seq<SourcedFrame>
    requires f.joined <= |LogOf(s, f.source)|
  {
    var log := LogOf(s, f.source);
    [SourcedFrame(f.source, Reset)]
    + seq(|log| - f.joined, i requires 0 <= i < |log| - f.joined => SourcedFrame(f.source, log[f.joined + i]))
  }

  function Stream(s: System, id: nat): seq<SourcedFrame>
    requires id < |s.follows| && id < |s.fanout.channels|
  {
    s.follows[id].received + s.fanout.channels[id].queue
  }

  /** The state of one subscription: its queue is bounded, what it has read and has queued is a
      prefix of what it is owed, all of it unless a publication failed to reach it, and while its
      session is live it is on the follower list exactly until that happens. */
  predicate FollowOk(s: System, id: nat)
    requires id < |s.follows| && id < |s.fanout.channels|
  {
    var f, c := s.follows[id], s.fanout.channels[id];
    && f.joined <= |LogOf(s, f.source)|
    && 1 <= c.capacity && |c.queue| <= c.capacity
    && Stream(s, id) <= Owed(s, f)
    && (!f.lapsed ==> Stream(s, id) == Owed(s, f))
    && (f.source in s.fanout.followers ==> (id in s.fanout.followers[f.source] <==> !f.lapsed))
    && (f.source !in s.fanout.followers ==> f.joined < |LogOf(s, f.source)|)
  }

  ghost predicate FollowsOk(s: System)
  {
    && |s.follows| == |s.fanout.channels|
    && WellFormed(s.fanout)
    && (forall a, id :: a in s.fanout.followers && id in s.fanout.followers[a] ==> s.follows[id].source == a)
    && (forall id :: 0 <= id < |s.follows| ==> FollowOk(s, id))
  }

  /** A session that has opened, whether or not it has ended. */
  predicate HasBegun(phase: Phase) { IsLive(phase) || phase.Ended? }

  ghost predicate FollowedHaveBegun(s: System)
  {
    forall f :: f in s.follows ==> f.source in s.phases && HasBegun(s.phases[f.source])
  }

  ghost predicate Invariant(s: System)
  {
    SessionsOk(s) && PoolOk(s) && FollowedHaveBegun(s) && FollowsOk(s)
  }

  // ---------------------------------------------------------------------------
  // Sessions
  // ---------------------------------------------------------------------------

  /** One session, new or not, moves to `phase` with its log now `log`; the others stand. */
  ghost predicate Moves(s: System, t: System, source: FrameSource, phase: Phase, log: seq<PoolFrame>)
  {
    && t.phases == s.phases[source := phase] && t.logs == s.logs[source := log]
    && (if source in s.phases then t.fanout.nextSession == s.fanout.nextSession
        else source.session == s.fanout.nextSession && t.fanout.nextSession == s.fanout.nextSession + 1)
    && LogFits(phase, log)
    && t.fanout.followers.Keys
         == (if IsLive(phase) then s.fanout.followers.Keys + {source} else s.fanout.followers.Keys - {source})
    && (Stopped(s, source) ==> HasStopped(phase))
    && (t.dead == s.dead || (t.dead == s.dead + [source] && HasStopped(phase)))
    && t.sweeps == s.sweeps
  }

  lemma {:induction false} MovingStaysNumbered(
      s: System, t: System, source: FrameSource, phase: Phase, log: seq<PoolFrame>)
    requires Numbered(s) && Moves(s, t, source, phase, log)
    ensures Numbered(t)
  {
  }

  lemma {:induction false} MovingStaysRegistered(
      s: System, t: System, source: FrameSource, phase: Phase, log: seq<PoolFrame>)
    requires RegisteredAreLive(s) && Moves(s, t, source, phase, log)
    ensures RegisteredAreLive(t)
  {
    forall a
      ensures a in t.fanout.followers <==> a in t.phases && IsLive(t.phases[a])
    {
      assert a in t.fanout.followers <==> a in t.fanout.followers.Keys;
    }
  }

  lemma {:induction false} MovingStaysStopped(
      s: System, t: System, source: FrameSource, phase: Phase, log: seq<PoolFrame>)
    requires DeadHaveStopped(s) && Moves(s, t, source, phase, log)
    ensures DeadHaveStopped(t)
  {
    forall d | Stopped(s, d)
      ensures Stopped(t, d)
    {
    }
  }

  lemma {:induction false} MovingKeepsLogsFit(
      s: System, t: System, source: FrameSource, phase: Phase, log: seq<PoolFrame>)
    requires LogsFit(s) && Moves(s, t, source, phase, log)
    ensures LogsFit(t)
  {
  }

  lemma {:induction false} OneSessionMoves(s: System, t: System, source: FrameSource, phase: Phase, log: seq<PoolFrame>)
    requires SessionsOk(s) && Moves(s, t, source, phase, log)
    ensures SessionsOk(t)
  {
    MovingStaysNumbered(s, t, source, phase, log);
    MovingKeepsLogsFit(s, t, source, phase, log);
    MovingStaysRegistered(s, t, source, phase, log);
    MovingStaysStopped(s, t, source, phase, log);
  }

  /** No session moves; whatever is listed as dead was listed before. */
  lemma {:induction false} NoSessionMoves(s: System, t: System)
    requires SessionsOk(s)
    requires t.phases == s.phases && t.logs == s.logs
    requires t.fanout.nextSession == s.fanout.nextSession
    requires t.fanout.followers.Keys == s.fanout.followers.Keys
    requires forall d :: d in t.dead ==> d in s.dead
    requires forall k :: 0 <= k < |t.sweeps| ==> t.sweeps[k] == s.dead || t.sweeps[k] in s.sweeps
    ensures SessionsOk(t)
  {
    forall a
      ensures a in t.fanout.followers <==> a in s.fanout.followers
    {
      assert a in t.fanout.followers <==> a in t.fanout.followers.Keys;
    }
    forall k, d | 0 <= k < |t.sweeps| && d in t.sweeps[k]
      ensures Stopped(t, d)
    {
      if t.sweeps[k] in s.sweeps {
        var j :| 0 <= j < |s.sweeps| && s.sweeps[j] == t.sweeps[k];
      }
      assert Stopped(s, d);
    }
  }

  /** What the steps of one session's task need to know about it. */
  lemma {:induction false} SessionFacts(s: System, source: FrameSource)
    requires SessionsOk(s) && source in s.phases
    ensures source in s.logs && LogFits(s.phases[source], s.logs[source])
    ensures source in s.fanout.followers <==> IsLive(s.phases[source])
  {
  }

  predicate KnownSession(s: System, source: FrameSource)
  {
    source in s.phases ==>
      && source in s.logs && LogFits(s.phases[source], s.logs[source])
      && (source in s.fanout.followers <==> IsLive(s.phases[source]))
  }

  lemma {:induction false} AllocateMoves(s: System, address: SocketAddr)
    requires s.phases.Keys == s.logs.Keys && FrameSource(address, s.fanout.nextSession) !in s.phases
    requires FrameSource(address, s.fanout.nextSession) !in s.fanout.followers
    ensures Moves(s, Next(s, Allocate(address)), FrameSource(address, s.fanout.nextSession), Identified, [])
  {
  }

  lemma {:induction false} AdmitMoves(s: System, source: FrameSource, origin: PeerOrigin, now: nat)
    requires KnownSession(s, source)
    ensures var t := Next(s, Admit(source, origin, now));
      t == s || Moves(s, t, source, PhaseOf(t, source), [])
  {
  }

  lemma {:induction false} RegisterMoves(s: System, source: FrameSource)
    requires KnownSession(s, source)
    ensures var t := Next(s, Register(source));
      t == s || Moves(s, t, source, Open, [])
  {
  }

  lemma {:induction false} AnnounceMoves(s: System, source: FrameSource)
    requires KnownSession(s, source)
    ensures var t := Next(s, Announce(source));
      t == s || Moves(s, t, source, Announced, [Reset])
  {
    assert [] + [Reset] == [Reset];
  }

  lemma {:induction false} HandlerMoves(s: System, source: FrameSource, message: Message)
    requires KnownSession(s, source)
    ensures var t := Next(s, Receive(source, message));
      t == s || Moves(s, t, source, PhaseOf(t, source), LogOf(t, source))
  {
  }

  lemma {:induction false} PublishFrameMoves(s: System, source: FrameSource)
    requires KnownSession(s, source)
    ensures var t := Next(s, PublishFrame(source));
      t == s || Moves(s, t, source, Running, LogOf(t, source))
  {
  }

  lemma {:induction false} DeathMoves(s: System, source: FrameSource)
    requires KnownSession(s, source)
    ensures var t := Next(s, RecordDeath(source));
      t == s || Moves(s, t, source, PhaseOf(t, source), LogOf(t, source))
  {
  }

  lemma {:induction false} EndMoves(s: System, source: FrameSource)
    requires KnownSession(s, source)
    ensures var t := Next(s, PublishEnd(source));
      t == s || Moves(s, t, source, Ended, LogOf(t, source))
  {
    if source in s.logs && PhaseOf(s, source).Dying? {
      var log := s.logs[source] + [SessionEnded(PhaseOf(s, source).reason)];
      assert log[..|log| - 1] == s.logs[source];
    }
  }

  lemma {:induction false} SpawnMoves(s: System, source: FrameSource)
    requires KnownSession(s, source)
    ensures var t := Next(s, Spawn(source));
      t == s || Moves(s, t, source, Running, LogOf(t, source))
  {
  }

  /** The source whose task takes this step. */
  predicate IsTaskStep(step: Step)
  {
    step.Admit? || step.Register? || step.Announce? || step.Spawn? || step.Receive?
    || step.PublishFrame? || step.RecordDeath? || step.PublishEnd?
  }

  lemma {:induction false} TaskStepMoves(s: System, step: Step)
    requires IsTaskStep(step) && KnownSession(s, step.source)
    ensures var t := Next(s, step);
      t == s || Moves(s, t, step.source, PhaseOf(t, step.source), LogOf(t, step.source))
  {
    match step
    case Admit(source, origin, now) => AdmitMoves(s, source, origin, now);
    case Register(source) => RegisterMoves(s, source);
    case Announce(source) => AnnounceMoves(s, source);
    case Spawn(source) => SpawnMoves(s, source);
    case Receive(source, message) => HandlerMoves(s, source, message);
    case PublishFrame(source) => PublishFrameMoves(s, source);
    case RecordDeath(source) => DeathMoves(s, source);
    case PublishEnd(source) => EndMoves(s, source);
  }

  lemma {:induction false} TaskStepKeepsSessions(s: System, step: Step)
    requires SessionsOk(s) && IsTaskStep(step)
    ensures SessionsOk(Next(s, step))
  {
    var t := Next(s, step);
    if step.source in s.phases {
      SessionFacts(s, step.source);
    }
    TaskStepMoves(s, step);
    if t != s {
      OneSessionMoves(s, t, step.source, PhaseOf(t, step.source), LogOf(t, step.source));
    }
  }

  lemma {:induction false} AllocationKeepsSessions(s: System, address: SocketAddr)
    requires SessionsOk(s)
    ensures SessionsOk(Next(s, Allocate(address)))
  {
    var source := FrameSource(address, s.fanout.nextSession);
    AllocateMoves(s, address);
    OneSessionMoves(s, Next(s, Allocate(address)), source, Identified, []);
  }

  lemma {:induction false} SweepsAreTaken(s: System, step: Step)
    requires !IsTaskStep(step) && !step.Allocate?
    ensures var t := Next(s, step);
      && (forall d :: d in t.dead ==> d in s.dead)
      && (forall k :: 0 <= k < |t.sweeps| ==> t.sweeps[k] == s.dead || t.sweeps[k] in s.sweeps)
  {
    var t := Next(s, step);
    if !step.TakeDead? && !step.SweepDead? {
      assert t.dead == s.dead && t.sweeps == s.sweeps;
    }
  }

  lemma {:induction false} OtherStepsMoveNoSession(s: System, step: Step)
    requires !IsTaskStep(step) && !step.Allocate?
    ensures var t := Next(s, step);
      && t.phases == s.phases && t.logs == s.logs
      && t.fanout.nextSession == s.fanout.nextSession
      && t.fanout.followers.Keys == s.fanout.followers.Keys
      && (forall d :: d in t.dead ==> d in s.dead)
      && (forall k :: 0 <= k < |t.sweeps| ==> t.sweeps[k] == s.dead || t.sweeps[k] in s.sweeps)
  {
    SweepsAreTaken(s, step);
  }

  lemma {:induction false} SessionsStayOk(s: System, step: Step)
    requires SessionsOk(s)
    ensures SessionsOk(Next(s, step))
  {
    if step.Allocate? {
      AllocationKeepsSessions(s, step.address);
    } else if IsTaskStep(step) {
      TaskStepKeepsSessions(s, step);
    } else {
      OtherStepsMoveNoSession(s, step);
      NoSessionMoves(s, Next(s, step));
    }
  }

  // ---------------------------------------------------------------------------
  // The pool
  // ---------------------------------------------------------------------------

  lemma {:induction false} SeatedStaysSeated(s: System, step: Step, source: FrameSource)
    requires source in s.phases && source.session < s.fanout.nextSession
    ensures var t := Next(s, step);
      && source in t.phases
      && (IsSeated(s.phases[source]) ==> IsSeated(t.phases[source]))
      && (HasBegun(s.phases[source]) ==> HasBegun(t.phases[source]))
      && (HasStopped(s.phases[source]) ==> HasStopped(t.phases[source]))
  {
  }

  lemma {:induction false} NotedPeaksKeepSources(entries: Entries, source: FrameSource, height: nat)
    requires DistinctAddresses(entries)
    ensures var after := NotePeak(entries, source, height);
      && |after| == |entries| && DistinctAddresses(after)
      && (forall i :: 0 <= i < |after| ==> SourceOf(after[i]) == SourceOf(entries[i]))
  {
  }

  /** What one step may do to the entries. */
  lemma {:induction false} EntriesShrinkOrSeatOne(s: System, step: Step)
    requires DistinctAddresses(s.entries) && |s.entries| <= s.maxPeers
    ensures var t := Next(s, step);
      && t.maxPeers == s.maxPeers
      && |t.entries| <= s.maxPeers && DistinctAddresses(t.entries)
      && (forall e :: e in t.entries ==>
           || (exists old_ :: old_ in s.entries && SourceOf(old_) == SourceOf(e))
           || (step.Admit? && SourceOf(e) == step.source && PhaseOf(t, step.source).Seated?
               && step.source in t.phases))
  {
    match step
    case Admit(source, origin, now) =>
      var e := PeerEntry(source.address, source.session, origin, 0, now);
      assert SourceOf(e) == source;
    case Receive(source, message) =>
      if message.NewPeak? {
        NotedPeaksKeepSources(s.entries, source, message.height);
        var after := NotePeak(s.entries, source, message.height);
        forall e | e in after
          ensures exists old_ :: old_ in s.entries && SourceOf(old_) == SourceOf(e)
        {
          var i :| 0 <= i < |after| && after[i] == e;
          assert s.entries[i] in s.entries;
        }
      }
    case Eject(address) => FilterKeepsAddresses(s.entries, (e: PeerEntry) => e.address != address);
    case EvictLagging => EvictionKeepsAddresses(s.entries);
    case Rotate(now) => RotationKeepsAddresses(s.entries, now);
    case SweepDead(k) =>
      if k < |s.sweeps| {
        FilterKeepsAddresses(s.entries, (e: PeerEntry) => SourceOf(e) !in s.sweeps[k]);
      }
    case _ =>
  }

  lemma {:induction false} PoolStaysOk(s: System, step: Step)
    requires SessionsOk(s) && PoolOk(s)
    ensures PoolOk(Next(s, step))
  {
    var t := Next(s, step);
    EntriesShrinkOrSeatOne(s, step);
    forall e | e in t.entries
      ensures SourceOf(e) in t.phases && IsSeated(t.phases[SourceOf(e)])
    {
      if old_ :| old_ in s.entries && SourceOf(old_) == SourceOf(e) {
        SeatedStaysSeated(s, step, SourceOf(old_));
      }
    }
  }
}
