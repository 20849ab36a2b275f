/** The per-session fan-out of inbound frames (src/peer/frames.rs).

    A subscription is a bounded channel. Channels live in an arena, in the order they were opened, and
    a follower list holds their indices; `followers` is the source's locked map of senders. Each method
    body is what one acquisition of that lock does, except `OpenSession`, which acquires it twice. */
module Frames {
  import opened Prelude
  import opened Net
  import CoinCache

  datatype FrameSource = FrameSource(address: SocketAddr, session: nat)

  datatype SessionEndReason = Disconnected | UndecodableFrame | OversizedFrame

  const MAX_FRAME_COIN_STATES: nat := 100_000

  datatype PoolFrame =
    | Reset
    | Peak(height: nat, headerHash: nat)
    | CoinStates(height: nat, forkHeight: nat, peakHash: nat, items: seq<CoinCache.CoinState>)
    | SessionEnded(reason: SessionEndReason)

  datatype SourcedFrame = SourcedFrame(source: FrameSource, frame: PoolFrame)

  datatype Channel = Channel(capacity: nat, queue: seq<SourcedFrame>, listening: bool)

  datatype Fanout = Fanout(
    followers: map<FrameSource, seq<nat>>, channels: seq<Channel>, nextSession: nat)

  const EMPTY_FANOUT := Fanout(map[], [], 0)

  /** Whether a send to this channel succeeds: it is neither closed nor full. */
  predicate Accepts(c: Channel) { c.listening && |c.queue| < c.capacity }

  function Send(c: Channel, f: SourcedFrame): Channel { c.(queue := c.queue + [f]) }

  function Deliver(channels: seq<Channel>, ids: seq<nat>, f: SourcedFrame): seq<Channel>
  {
    seq(|channels|, i requires 0 <= i < |channels| =>
      if i in ids && Accepts(channels[i]) then Send(channels[i], f) else channels[i])
  }

  predicate AcceptsAt(channels: seq<Channel>, i: nat) { i < |channels| && Accepts(channels[i]) }

  /** The followers in `ids` that can take a frame. */
  function Taking(channels: seq<Channel>, ids: seq<nat>): seq<nat>
  {
    Filter(ids, (i: nat) => AcceptsAt(channels, i))
  }

  function Published(f: Fanout, source: FrameSource, frame: PoolFrame): Fanout
  {
    if source !in f.followers then f
    else
      var ids := f.followers[source];
      f.(channels := Deliver(f.channels, ids, SourcedFrame(source, frame)),
         followers := if frame.SessionEnded? then f.followers - {source}
                      else f.followers[source := Taking(f.channels, ids)])
  }

  function Registered(f: Fanout, source: FrameSource): Fanout
  {
    if source in f.followers then f else f.(followers := f.followers[source := []])
  }

  function MaxOne(capacity: nat): nat { if capacity == 0 then 1 else capacity }

  /** A new subscription opens with its own Reset. */
  function Joined(f: Fanout, source: FrameSource, capacity: nat): Fanout
  {
    if source !in f.followers then f
    else f.(
      channels := f.channels + [Channel(MaxOne(capacity), [SourcedFrame(source, Reset)], true)],
      followers := f.followers[source := f.followers[source] + [|f.channels|]])
  }

  function Received(f: Fanout, id: nat): Fanout
  {
    if id < |f.channels| && f.channels[id].queue != []
    then f.(channels := f.channels[id := f.channels[id].(queue := f.channels[id].queue[1..])])
    else f
  }

  function Hushed(f: Fanout, id: nat): Fanout
  {
    if id < |f.channels| then f.(channels := f.channels[id := f.channels[id].(listening := false)]) else f
  }

  datatype Reception = Delivered(frame: SourcedFrame) | NothingYet | Terminated

  predicate IsFollowing(f: Fanout, id: nat) { exists s :: s in f.followers && id in f.followers[s] }

  predicate DistinctIds(ids: seq<nat>)
  {
    forall i, j :: 0 <= i < j < |ids| ==> ids[i] != ids[j]
  }

  /** No follower list names a channel twice or a channel that does not exist. */
  predicate WellFormed(f: Fanout)
  {
    forall s :: s in f.followers ==>
      && (forall i :: i in f.followers[s] ==> i < |f.channels|)
      && DistinctIds(f.followers[s])
  }

  class FrameFanout {
    var followers: map<FrameSource, seq<nat>>
    var channels: seq<Channel>
    var nextSession: nat

    function View(): Fanout
      reads this
    {
      Fanout(followers, channels, nextSession)
    }

    constructor ()
      ensures View() == EMPTY_FANOUT
    {
      followers, channels, nextSession := map[], [], 0;
    }

    method AllocateSession(address: SocketAddr) returns (source: FrameSource)
      modifies this`nextSession
      ensures source == FrameSource(address, old(nextSession))
      ensures View() == old(View()).(nextSession := old(nextSession) + 1)
    {
      source := FrameSource(address, nextSession);
      nextSession := nextSession + 1;
    }

    method Subscribe(source: FrameSource, capacity: nat) returns (id: Option<nat>)
      modifies this
      ensures View() == Joined(old(View()), source, capacity)
      ensures id == if source in old(followers) then Some(|old(channels)|) else None
      ensures id.Some? ==>
        && |channels| == |old(channels)| + 1
        && channels[id.value].capacity == (if capacity >= 1 then capacity else 1)
        && channels[id.value].queue == [SourcedFrame(source, Reset)] && channels[id.value].listening
    {
      var channel := Channel(if capacity == 0 then 1 else capacity, [], true);
      if source !in followers {
        return None;
      }
      channel := Send(channel, SourcedFrame(source, Reset));
      assert channel.queue == [SourcedFrame(source, Reset)];
      id := Some(|channels|);
      channels := channels + [channel];
      followers := followers[source := followers[source] + [id.value]];
    }

    method Register(source: FrameSource)
      modifies this`followers
      ensures View() == Registered(old(View()), source)
    {
      if source !in followers {
        followers := followers[source := []];
      }
    }

    /** Register, then announce; another task may act between the two. */
    method OpenSession(source: FrameSource)
      requires WellFormed(View())
      modifies this
      ensures View() == Published(Registered(old(View()), source), source, Reset)
    {
      Register(source);
      Publish(source, Reset);
    }

    /** `publish`: offer the frame to every follower and drop those that cannot take it. */
    method Publish(source: FrameSource, frame: PoolFrame)
      requires WellFormed(View())
      modifies this
      ensures View() == Published(old(View()), source, frame)
    {
      if source !in followers {
        return;
      }
      var ids := followers[source];
      var sourced := SourcedFrame(source, frame);
      ghost var before := View();
      var kept: seq<nat> := [];
      for k := 0 to |ids|
        invariant followers == before.followers && nextSession == before.nextSession
        invariant |channels| == |before.channels|
        invariant channels == Deliver(before.channels, ids[..k], sourced)
        invariant kept == Taking(before.channels, ids[..k])
      {
        var id := ids[k];
        assert id in before.followers[source];
        assert ids[..k + 1] == ids[..k] + [id];
        assert (ids[..k] + [id])[..k] == ids[..k];
        assert id !in ids[..k];
        if Accepts(channels[id]) {
          channels := channels[id := Send(channels[id], sourced)];
          kept := kept + [id];
        }
        assert channels == Deliver(before.channels, ids[..k + 1], sourced);
      }
      assert ids[..|ids|] == ids;
      followers := followers[source := kept];
      if frame.SessionEnded? {
        followers := followers - {source};
      }
      assert frame.SessionEnded? ==> followers == before.followers - {source};
    }

    /** `try_recv`. A subscription has ended once no follower list holds its sender, and it tells so only
        when everything queued has been read; `recv` waits where this finds the queue empty. */
    method TryRecv(id: nat) returns (r: Reception)
      requires id < |channels|
      modifies this`channels
      ensures View() == Received(old(View()), id)
      ensures r.Delivered? <==> old(channels)[id].queue != []
      ensures r.Delivered? ==> r.frame == old(channels)[id].queue[0]
      ensures r.Terminated? <==>
        (old(channels)[id].queue == [] && forall s :: s in old(followers) ==> id !in old(followers)[s])
    {
      var queue := channels[id].queue;
      if queue == [] {
        return if IsFollowing(View(), id) then NothingYet else Terminated;
      }
      channels := channels[id := channels[id].(queue := queue[1..])];
      return Delivered(queue[0]);
    }
  }

  // ---------------------------------------------------------------------------
  // One publication
  // ---------------------------------------------------------------------------

  lemma {:induction false} FilterKeepsOrderDistinct(ids: seq<nat>, keep: nat -> bool)
    requires DistinctIds(ids)
    ensures DistinctIds(Filter(ids, keep))
  {
    if ids != [] {
      var n := |ids| - 1;
      FilterKeepsOrderDistinct(ids[..n], keep);
      FilterMembers(ids[..n], keep);
      var kept := Filter(ids[..n], keep);
      forall i | 0 <= i < |kept|
        ensures kept[i] != ids[n]
      {
        assert kept[i] in ids[..n];
      }
    }
  }

  lemma {:induction false} PublishingStaysWellFormed(f: Fanout, source: FrameSource, frame: PoolFrame)
    requires WellFormed(f)
    ensures WellFormed(Published(f, source, frame))
  {
    if source in f.followers {
      FilterKeepsOrderDistinct(f.followers[source], (i: nat) => AcceptsAt(f.channels, i));
      FilterMembers(f.followers[source], (i: nat) => AcceptsAt(f.channels, i));
    }
  }

  lemma {:induction false} OneMoreId(ids: seq<nat>, n: nat)
    requires DistinctIds(ids) && forall i :: i in ids ==> i < n
    ensures DistinctIds(ids + [n])
  {
    forall i | 0 <= i < |ids|
      ensures ids[i] != n
    {
      assert ids[i] in ids;
    }
  }

  lemma {:induction false} JoiningStaysWellFormed(f: Fanout, source: FrameSource, capacity: nat)
    requires WellFormed(f)
    ensures WellFormed(Joined(f, source, capacity))
  {
    var after, n := Joined(f, source, capacity), |f.channels|;
    forall s | s in after.followers
      ensures forall i :: i in after.followers[s] ==> i < |after.channels|
      ensures DistinctIds(after.followers[s])
    {
      assert s in f.followers && DistinctIds(f.followers[s]);
      if s == source {
        OneMoreId(f.followers[s], n);
      }
    }
  }

  /** A publication reaches exactly the followers of its own source that can take it: each gains
      this one frame, every other queue is untouched, and exactly the followers that could not take
      it are let go. */
  lemma {:induction false} PublicationIsExact(f: Fanout, source: FrameSource, frame: PoolFrame, i: nat)
    requires source in f.followers && i < |f.channels|
    ensures var after := Published(f, source, frame);
      var follows := i in f.followers[source];
      && |after.channels| == |f.channels|
      && (follows && Accepts(f.channels[i]) ==>
           after.channels[i].queue == f.channels[i].queue + [SourcedFrame(source, frame)])
      && (!follows || !Accepts(f.channels[i]) ==> after.channels[i] == f.channels[i])
      && (source in after.followers <==> !frame.SessionEnded?)
      && (source in after.followers ==> (i in after.followers[source] <==> follows && Accepts(f.channels[i])))
      && (forall s :: s != source ==> (s in after.followers <==> s in f.followers))
      && (forall s :: s != source && s in f.followers ==> after.followers[s] == f.followers[s])
  {
    FilterMembers(f.followers[source], (i: nat) => AcceptsAt(f.channels, i));
  }
}
