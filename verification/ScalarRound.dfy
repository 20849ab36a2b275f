/** The scalar round (`read_opt_corroborated` in src/peer/mod.rs) and what the router makes of it
    (src/router.rs): one claim, put to every independent voice, graded by agreement. */
module ScalarRound {
  import opened Prelude
  import opened Net
  import opened PeerPool

  datatype OptAnswer<+T> =
    | Found(value: T)
    | UncorroboratedFound(value: T)
    | CorroboratedAbsent
    | UncorroboratedAbsent
  {
    predicate IsFact() { Found? || CorroboratedAbsent? }

    /** What the answer says, whatever its grade. */
    function Content(): Option<T>
    {
      if Found? || UncorroboratedFound? then Some(value) else None
    }
  }

  type Reply<T> = Result<Option<T>, QueryError>

  /** What an answer says about the chain: a claim, or that there is nothing. */
  function Says<T>(answer: Option<T>, claim: T -> string): Option<string>
  {
    if answer.None? then None else Some(claim(answer.value))
  }

  predicate Agrees<T>(first: Option<T>, reply: Reply<T>, claim: T -> string)
  {
    reply.Ok? && Says(reply.value, claim) == Says(first, claim)
  }

  predicate Contradicts<T>(first: Option<T>, reply: Reply<T>, claim: T -> string)
  {
    reply.Ok? && Says(reply.value, claim) != Says(first, claim)
  }

  predicate Contradicted<T>(first: Option<T>, replies: seq<Reply<T>>, claim: T -> string)
  {
    exists i :: 0 <= i < |replies| && Contradicts(first, replies[i], claim)
  }

  function Agreed<T>(first: Option<T>, replies: seq<Reply<T>>, claim: T -> string): nat
  {
    if replies == [] then 0
    else
      Agreed(first, replies[..|replies| - 1], claim)
        + if Agrees(first, replies[|replies| - 1], claim) then 1 else 0
  }

  function Graded<T>(first: Option<T>, fact: bool): OptAnswer<T>
  {
    match first
    case Some(v) => if fact then Found(v) else UncorroboratedFound(v)
    case None => if fact then CorroboratedAbsent else UncorroboratedAbsent
  }

  /** The verdict on `first`, the asked peer's answer, given everybody else's. */
  function Grade<T>(readiness: Readiness, first: Option<T>, replies: seq<Reply<T>>, claim: T -> string)
    : Result<OptAnswer<T>, QueryError>
  {
    if Contradicted(first, replies, claim) then Err(SourcesDisagree)
    else Ok(Graded(first, IsCorroborated(readiness, Agreed(first, replies, claim))))
  }

  // ---------------------------------------------------------------------------
  // The loops
  // ---------------------------------------------------------------------------

  /** The addresses, in order, whose replies are failures. */
  function Failed<T>(voices: Entries, replies: seq<Reply<T>>): seq<SocketAddr>
    requires |voices| == |replies|
  {
    if voices == [] then []
    else
      var n := |voices| - 1;
      Failed(voices[..n], replies[..n]) + if replies[n].Err? then [voices[n].address] else []
  }

  /** `corroborate_presence`, after every voice has been heard. */
  method CorroboratePresence<T>(
      readiness: Readiness, found: T, voices: Entries, replies: seq<Reply<T>>, claim: T -> string)
    returns (verdict: Result<OptAnswer<T>, QueryError>, failed: seq<SocketAddr>)
    requires |voices| == |replies|
    ensures verdict == Grade(readiness, Some(found), replies, claim)
    ensures failed == Failed(voices, replies)
  {
    failed := [];
    if voices == [] {
      return Ok(UncorroboratedFound(found)), failed;
    }
    var mine := claim(found);
    var agreed, disagreement := 0, false;
    for i := 0 to |replies|
      invariant agreed == Agreed(Some(found), replies[..i], claim)
      invariant disagreement <==> Contradicted(Some(found), replies[..i], claim)
      invariant failed == Failed(voices[..i], replies[..i])
    {
      assert replies[..i + 1][..i] == replies[..i] && voices[..i + 1][..i] == voices[..i];
      match replies[i] {
        case Ok(Some(other)) =>
          if claim(other) == mine {
            agreed := agreed + 1;
          } else {
            disagreement := true;
          }
        case Ok(None) =>
          disagreement := true;
        case Err(_) =>
          failed := failed + [voices[i].address];
      }
    }
    assert replies[..|replies|] == replies && voices[..|voices|] == voices;
    if disagreement {
      verdict := Err(SourcesDisagree);
    } else if !IsCorroborated(readiness, agreed) {
      verdict := Ok(UncorroboratedFound(found));
    } else {
      verdict := Ok(Found(found));
    }
  }

  /** `corroborate_absence`, after every voice has been heard. */
  method CorroborateAbsence<T>(readiness: Readiness, voices: Entries, replies: seq<Reply<T>>, claim: T -> string)
    returns (verdict: Result<OptAnswer<T>, QueryError>, failed: seq<SocketAddr>)
    requires |voices| == |replies|
    ensures verdict == Grade(readiness, None, replies, claim)
    ensures failed == Failed(voices, replies)
  {
    failed := [];
    if voices == [] {
      return Ok(UncorroboratedAbsent), failed;
    }
    var agreed, disagreement := 0, false;
    for i := 0 to |replies|
      invariant agreed == Agreed(None, replies[..i], claim)
      invariant disagreement <==> Contradicted(None, replies[..i], claim)
      invariant failed == Failed(voices[..i], replies[..i])
    {
      assert replies[..i + 1][..i] == replies[..i] && voices[..i + 1][..i] == voices[..i];
      match replies[i] {
        case Ok(None) =>
          agreed := agreed + 1;
        case Ok(Some(_)) =>
          disagreement := true;
        case Err(_) =>
          failed := failed + [voices[i].address];
      }
    }
    assert replies[..|replies|] == replies && voices[..|voices|] == voices;
    if disagreement {
      verdict := Err(SourcesDisagree);
    } else if !IsCorroborated(readiness, agreed) {
      verdict := Ok(UncorroboratedAbsent);
    } else {
      verdict := Ok(CorroboratedAbsent);
    }
  }

  /** What each voice replied, in order. */
  function Heard<T>(voices: Entries, reply: SocketAddr -> Reply<T>): seq<Reply<T>>
  {
    seq(|voices|, i requires 0 <= i < |voices| => reply(voices[i].address))
  }

  /** `read_opt_corroborated` on a pool that nobody else changes meanwhile: `asked` is the peer picked,
      `reply` what any peer would answer. A peer whose read fails is ejected, and no other. */
  method ReadOptCorroborated<T>(pool: Pool, asked: SocketAddr, reply: SocketAddr -> Reply<T>, claim: T -> string)
    returns (verdict: Result<OptAnswer<T>, QueryError>, voices: Entries)
    modifies pool`entries
    ensures reply(asked).Err? ==>
      verdict == Err(reply(asked).error) && pool.entries == WithoutAddress(old(pool.entries), asked)
    ensures reply(asked).Ok? ==>
      && OnePerOtherHost(voices, old(pool.entries), asked)
      && verdict == Grade(
           ReadinessFor(|DiscoveredHosts(old(pool.entries)) - {asked.ip}|),
           reply(asked).value, Heard(voices, reply), claim)
      && pool.entries == WithoutAddresses(old(pool.entries), Failed(voices, Heard(voices, reply)))
  {
    voices := [];
    var first := reply(asked);
    if first.Err? {
      pool.EjectPeer(asked);
      return Err(first.error), voices;
    }
    var readiness := pool.CorroborationReadiness(asked);
    voices := pool.Corroborators(asked);
    var replies := Heard(voices, reply);
    var failed;
    if first.value.Some? {
      verdict, failed := CorroboratePresence(readiness, first.value.value, voices, replies, claim);
    } else {
      verdict, failed := CorroborateAbsence(readiness, voices, replies, claim);
    }
    pool.EjectAll(failed);
  }

  // ---------------------------------------------------------------------------
  // The verdict does not depend on who answers first
  // ---------------------------------------------------------------------------

  lemma {:induction false} AgreedConcat<T>(
      first: Option<T>, a: seq<Reply<T>>, b: seq<Reply<T>>, claim: T -> string)
    ensures Agreed(first, a + b, claim) == Agreed(first, a, claim) + Agreed(first, b, claim)
  {
    if b == [] {
      assert a + b == a;
    } else {
      var n := |b| - 1;
      assert (a + b)[..|a| + n] == a + b[..n];
      AgreedConcat(first, a, b[..n], claim);
    }
  }

  lemma {:induction false} AgreedWithout<T>(first: Option<T>, replies: seq<Reply<T>>, claim: T -> string, i: nat)
    requires i < |replies|
    ensures Agreed(first, replies, claim)
      == Agreed(first, replies[..i] + replies[i + 1..], claim) + if Agrees(first, replies[i], claim) then 1 else 0
  {
    var before, after := replies[..i], replies[i + 1..];
    assert replies == replies[..i + 1] + after && replies[..i + 1][..i] == before;
    AgreedConcat(first, replies[..i + 1], after, claim);
    AgreedConcat(first, before, after, claim);
  }

  lemma {:induction false} RemovedOne<T>(s: seq<T>, i: nat)
    requires i < |s|
    ensures multiset(s[..i] + s[i + 1..]) == multiset(s) - multiset{s[i]}
  {
    assert s == s[..i] + [s[i]] + s[i + 1..];
  }

  lemma {:induction false} IndexIn<T>(s: seq<T>, x: T) returns (i: nat)
    requires x in multiset(s)
    ensures i < |s| && s[i] == x
  {
    assert x in s;
    i :| 0 <= i < |s| && s[i] == x;
  }

  lemma {:induction false} AgreedIgnoresOrder<T>(
      first: Option<T>, replies: seq<Reply<T>>, others: seq<Reply<T>>, claim: T -> string)
    requires multiset(replies) == multiset(others)
    ensures Agreed(first, replies, claim) == Agreed(first, others, claim)
  {
    if replies == [] {
      assert |multiset(others)| == |others|;
    } else {
      var n := |replies| - 1;
      var i := IndexIn(others, replies[n]);
      RemovedOne(replies, n);
      RemovedOne(others, i);
      assert replies[..n] + replies[n + 1..] == replies[..n];
      AgreedIgnoresOrder(first, replies[..n], others[..i] + others[i + 1..], claim);
      AgreedWithout(first, others, claim, i);
    }
  }

  lemma {:induction false} ContradictionMoves<T>(
      first: Option<T>, replies: seq<Reply<T>>, others: seq<Reply<T>>, claim: T -> string)
    requires multiset(replies) == multiset(others)
    requires Contradicted(first, replies, claim)
    ensures Contradicted(first, others, claim)
  {
    var i :| 0 <= i < |replies| && Contradicts(first, replies[i], claim);
    var j := IndexIn(others, replies[i]);
  }

  /** Permuting the corroborators' answers never changes the verdict. */
  lemma {:induction false} VerdictIgnoresOrder<T>(
      readiness: Readiness, first: Option<T>, replies: seq<Reply<T>>, others: seq<Reply<T>>, claim: T -> string)
    requires multiset(replies) == multiset(others)
    ensures Grade(readiness, first, replies, claim) == Grade(readiness, first, others, claim)
  {
    AgreedIgnoresOrder(first, replies, others, claim);
    if Contradicted(first, replies, claim) {
      ContradictionMoves(first, replies, others, claim);
    }
    if Contradicted(first, others, claim) {
      ContradictionMoves(first, others, replies, claim);
    }
  }

  // ---------------------------------------------------------------------------
  // What a fact rests on
  // ---------------------------------------------------------------------------

  predicate OneAgrees<T>(first: Option<T>, replies: seq<Reply<T>>, claim: T -> string)
  {
    exists i :: 0 <= i < |replies| && Agrees(first, replies[i], claim)
  }

  predicate TwoAgree<T>(first: Option<T>, replies: seq<Reply<T>>, claim: T -> string)
  {
    exists i, j :: 0 <= i < j < |replies| && Agrees(first, replies[i], claim) && Agrees(first, replies[j], claim)
  }

  lemma {:induction false} AgreedCountsVoices<T>(first: Option<T>, replies: seq<Reply<T>>, claim: T -> string)
    ensures Agreed(first, replies, claim) >= 1 <==> OneAgrees(first, replies, claim)
    ensures Agreed(first, replies, claim) >= 2 <==> TwoAgree(first, replies, claim)
  {
    if replies != [] {
      var n := |replies| - 1;
      var before := replies[..n];
      AgreedCountsVoices(first, before, claim);
      if OneAgrees(first, before, claim) {
        var i :| 0 <= i < n && Agrees(first, before[i], claim);
        assert Agrees(first, replies[i], claim);
      }
      if i, j :| 0 <= i < j < |replies| && Agrees(first, replies[i], claim) && Agrees(first, replies[j], claim) {
        assert Agrees(first, before[i], claim);
        assert j < n ==> Agrees(first, before[j], claim);
      }
      if TwoAgree(first, before, claim) {
        var i, j :| 0 <= i < j < n && Agrees(first, before[i], claim) && Agrees(first, before[j], claim);
        assert Agrees(first, replies[i], claim) && Agrees(first, replies[j], claim);
      }
    }
  }

  /** A round establishes a fact if and only if the pool was armed before it, two voices agreed with
      the asked peer, and nobody who answered said otherwise. */
  lemma {:induction false} AFactNeedsTwoVoicesAndNoDissent<T>(
      readiness: Readiness, first: Option<T>, replies: seq<Reply<T>>, claim: T -> string)
    ensures (Grade(readiness, first, replies, claim).Ok? && Grade(readiness, first, replies, claim).value.IsFact())
      <==> (readiness.Armed? && TwoAgree(first, replies, claim) && !Contradicted(first, replies, claim))
  {
    AgreedCountsVoices(first, replies, claim);
  }

  /** Two answers say different things: something and nothing, or two claims. */
  predicate Differ<T>(a: Option<T>, b: Option<T>, claim: T -> string)
  {
    match (a, b)
    case (Some(v), Some(w)) => claim(v) != claim(w)
    case (None, None) => false
    case _ => true
  }

  /** The whole verdict: a refusal if anybody who answered says something else; otherwise the asked peer's
      own answer, as a fact if the pool was armed and two voices answered, and as one peer's word if not. */
  lemma {:induction false} TheVerdictIs<T>(
      readiness: Readiness, first: Option<T>, replies: seq<Reply<T>>, claim: T -> string)
    ensures var dissent := exists i :: 0 <= i < |replies| && replies[i].Ok? && Differ(first, replies[i].value, claim);
      var two := exists i, j :: 0 <= i < j < |replies| && replies[i].Ok? && replies[j].Ok?;
      var fact := readiness.Armed? && two;
      Grade(readiness, first, replies, claim)
        == if dissent then Err(SourcesDisagree)
           else if first.Some? then Ok(if fact then Found(first.value) else UncorroboratedFound(first.value))
           else Ok(if fact then CorroboratedAbsent else UncorroboratedAbsent)
  {
    forall i | 0 <= i < |replies|
      ensures Contradicts(first, replies[i], claim) <==> replies[i].Ok? && Differ(first, replies[i].value, claim)
      ensures Agrees(first, replies[i], claim) <==> replies[i].Ok? && !Differ(first, replies[i].value, claim)
    {
    }
    AgreedCountsVoices(first, replies, claim);
  }

  /** The two voices are two machines, neither of them the one asked. */
  lemma {:induction false} AFactRestsOnTwoOtherHosts<T>(
      entries: Entries, voices: Entries, asked: SocketAddr, readiness: Readiness, reply: SocketAddr -> Reply<T>,
      claim: T -> string)
    returns (a: PeerEntry, b: PeerEntry)
    requires OnePerOtherHost(voices, entries, asked) && reply(asked).Ok?
    requires Grade(readiness, reply(asked).value, Heard(voices, reply), claim).Ok?
    requires Grade(readiness, reply(asked).value, Heard(voices, reply), claim).value.IsFact()
    ensures a in entries && b in entries && a.origin.Discovered? && b.origin.Discovered?
    ensures a.address.ip != b.address.ip && a.address.ip != asked.ip && b.address.ip != asked.ip
    ensures Agrees(reply(asked).value, reply(a.address), claim)
    ensures Agrees(reply(asked).value, reply(b.address), claim)
  {
    var first, heard := reply(asked).value, Heard(voices, reply);
    AFactNeedsTwoVoicesAndNoDissent(readiness, first, heard, claim);
    var i, j :| 0 <= i < j < |heard| && Agrees(first, heard[i], claim) && Agrees(first, heard[j], claim);
    a, b := voices[i], voices[j];
    assert a in voices && b in voices;
  }

  // ---------------------------------------------------------------------------
  // Honesty; `truth` is what the chain says
  // ---------------------------------------------------------------------------

  predicate Truthful<T>(reply: Reply<T>, truth: Option<string>, claim: T -> string)
  {
    reply.Err? || Says(reply.value, claim) == truth
  }

  /** One voice that answered truthfully makes whatever the round answers true. */
  lemma {:induction false} OneHonestAnswererMakesItTrue<T>(
      readiness: Readiness, first: Option<T>, replies: seq<Reply<T>>, claim: T -> string, truth: Option<string>, k: nat)
    requires k < |replies| && replies[k].Ok? && Truthful(replies[k], truth, claim)
    requires Grade(readiness, first, replies, claim).Ok?
    ensures Says(Grade(readiness, first, replies, claim).value.Content(), claim) == truth
  {
    assert !Contradicts(first, replies[k], claim);
  }

  function Answered<T>(replies: seq<Reply<T>>): nat
  {
    if replies == [] then 0
    else Answered(replies[..|replies| - 1]) + if replies[|replies| - 1].Ok? then 1 else 0
  }

  lemma {:induction false} HonestVoicesAllAgree<T>(
      first: Option<T>, replies: seq<Reply<T>>, claim: T -> string)
    requires forall r :: r in replies ==> Truthful(r, Says(first, claim), claim)
    ensures Agreed(first, replies, claim) == Answered(replies)
    ensures !Contradicted(first, replies, claim)
  {
    if replies != [] {
      var n := |replies| - 1;
      HonestVoicesAllAgree(first, replies[..n], claim);
      assert replies[n] in replies;
      forall i | 0 <= i < |replies|
        ensures !Contradicts(first, replies[i], claim)
      {
        assert replies[i] in replies;
      }
    }
  }

  /** Honest peers never disagree, however many time out, and establish the fact exactly when the pool
      was armed and enough of them answered. */
  lemma {:induction false} HonestRoundsAnswer<T>(
      readiness: Readiness, first: Option<T>, replies: seq<Reply<T>>, claim: T -> string)
    requires forall r :: r in replies ==> Truthful(r, Says(first, claim), claim)
    ensures var fact := readiness.Armed? && Answered(replies) >= CORROBORATION_FLOOR;
      Grade(readiness, first, replies, claim) == Ok(Graded(first, fact))
  {
    HonestVoicesAllAgree(first, replies, claim);
  }

  /** A false fact takes three liars: the asked peer (position 0) and two voices (position `i + 1` is
      voice `i`). */
  lemma {:induction false} AFalseFactTakesThreeLiars<T>(
      readiness: Readiness, first: Option<T>, replies: seq<Reply<T>>, claim: T -> string, truth: Option<string>,
      liars: set<nat>)
    requires 0 !in liars ==> Says(first, claim) == truth
    requires forall i: nat :: i < |replies| && i + 1 !in liars ==> Truthful(replies[i], truth, claim)
    requires Grade(readiness, first, replies, claim).Ok? && Grade(readiness, first, replies, claim).value.IsFact()
    ensures Says(first, claim) == truth || |liars| >= 3
  {
    AFactNeedsTwoVoicesAndNoDissent(readiness, first, replies, claim);
    var i: nat, j: nat :| i < j < |replies| && Agrees(first, replies[i], claim) && Agrees(first, replies[j], claim);
    if Says(first, claim) != truth {
      var three := {0, i + 1, j + 1};
      assert three <= liars;
      assert |three| == 3;
      SubsetIsNoLarger(three, liars);
    }
  }

  // ---------------------------------------------------------------------------
  // Who is ejected
  // ---------------------------------------------------------------------------

  lemma {:induction false} FailedMembers<T>(voices: Entries, reply: SocketAddr -> Reply<T>, a: SocketAddr)
    ensures a in Failed(voices, Heard(voices, reply)) <==> Holds(voices, a) && reply(a).Err?
  {
    if voices != [] {
      var n := |voices| - 1;
      FailedMembers(voices[..n], reply, a);
      assert Heard(voices, reply)[..n] == Heard(voices[..n], reply);
      assert voices == voices[..n] + [voices[n]];
      assert voices[n] in voices;
    }
  }

  /** A round removes from the pool exactly the voices whose read failed. A peer that contradicts the
      asked one keeps its place. */
  lemma {:induction false} OnlyFailuresAreEjected<T>(
      entries: Entries, voices: Entries, reply: SocketAddr -> Reply<T>, e: PeerEntry)
    ensures e in WithoutAddresses(entries, Failed(voices, Heard(voices, reply)))
      <==> e in entries && !(Holds(voices, e.address) && reply(e.address).Err?)
  {
    WithoutAddressesMembers(entries, Failed(voices, Heard(voices, reply)), e);
    FailedMembers(voices, reply, e.address);
  }

  // ---------------------------------------------------------------------------
  // The router
  // ---------------------------------------------------------------------------

  /** `settle_uncorroborated_absence`; `coinset` is `None` when the fallback tier is disabled. */
  function SettleAbsence<T>(coinset: Option<Reply<T>>): Reply<T>
  {
    match coinset
    case None => Err(UncorroboratedAbsence)
    case Some(Ok(None)) => Ok(None)
    case Some(Ok(Some(_))) => Err(SourcesDisagree)
    case Some(Err(_)) => Err(UncorroboratedAbsence)
  }

  /** `settle_uncorroborated_presence`. */
  function SettlePresence<T>(found: T, coinset: Option<Reply<T>>, claim: T -> string): Reply<T>
  {
    match coinset
    case None => Err(UncorroboratedPresence)
    case Some(Ok(Some(other))) => if claim(other) == claim(found) then Ok(Some(found)) else Err(SourcesDisagree)
    case Some(Ok(None)) => Err(SourcesDisagree)
    case Some(Err(_)) => Err(UncorroboratedPresence)
  }

  function SettlePeerAnswer<T>(answer: OptAnswer<T>, coinset: Reply<T>, enabled: bool, claim: T -> string): Reply<T>
  {
    match answer
    case Found(v) => Ok(Some(v))
    case CorroboratedAbsent => Ok(None)
    case UncorroboratedFound(v) => SettlePresence(v, if enabled then Some(coinset) else None, claim)
    case UncorroboratedAbsent => SettleAbsence(if enabled then Some(coinset) else None)
  }

  /** `peer_then_coinset_opt`: a peer attempt, one retry, then the coinset tier alone. */
  function PeerThenCoinsetOpt<T>(
      first: Result<OptAnswer<T>, QueryError>, retry: Result<OptAnswer<T>, QueryError>,
      coinset: Reply<T>, enabled: bool, claim: T -> string): Reply<T>
  {
    if first.Ok? then SettlePeerAnswer(first.value, coinset, enabled, claim)
    else if retry.Ok? then SettlePeerAnswer(retry.value, coinset, enabled, claim)
    else if !enabled then Err(retry.error)
    else if coinset.Err? then Err(AllSourcesFailed)
    else coinset
  }

  /** Once a peer has answered, the router answers if and only if the peer tier established the fact
      or the enabled coinset tier says the same, and then it answers what that peer said. */
  lemma {:induction false} RouterAnswersIffSeconded<T>(
      first: Result<OptAnswer<T>, QueryError>, retry: Result<OptAnswer<T>, QueryError>,
      coinset: Reply<T>, enabled: bool, claim: T -> string)
    requires first.Ok? || retry.Ok?
    ensures var answer := if first.Ok? then first.value else retry.value;
      var r := PeerThenCoinsetOpt(first, retry, coinset, enabled, claim);
      && (r.Ok? <==> (answer.IsFact()
           || (enabled && coinset.Ok? && Says(coinset.value, claim) == Says(answer.Content(), claim))))
      && (r.Ok? ==> r.value == answer.Content())
  {
  }

  /** When neither attempt was answered the router answers, if it may, what the coinset tier says. */
  lemma {:induction false} CoinsetAnswersAloneIff<T>(
      first: Result<OptAnswer<T>, QueryError>, retry: Result<OptAnswer<T>, QueryError>,
      coinset: Reply<T>, enabled: bool, claim: T -> string)
    requires first.Err? && retry.Err?
    ensures var r := PeerThenCoinsetOpt(first, retry, coinset, enabled, claim);
      && (r.Ok? <==> enabled && coinset.Ok?)
      && (r.Ok? ==> r == coinset)
      && (r.Err? ==> r.error == if enabled then AllSourcesFailed else retry.error)
  {
  }

  /** A refusal says why: the two tiers contradict each other exactly when both spoke of a thing that was
      not established and said different things; otherwise nobody could second it. */
  lemma {:induction false} RefusalsSayWhy<T>(
      first: Result<OptAnswer<T>, QueryError>, retry: Result<OptAnswer<T>, QueryError>,
      coinset: Reply<T>, enabled: bool, claim: T -> string)
    requires first.Ok? || retry.Ok?
    requires PeerThenCoinsetOpt(first, retry, coinset, enabled, claim).Err?
    ensures var answer := if first.Ok? then first.value else retry.value;
      var error := PeerThenCoinsetOpt(first, retry, coinset, enabled, claim).error;
      if enabled && coinset.Ok? then error == SourcesDisagree
      else if answer.Content().Some? then error == UncorroboratedPresence
      else error == UncorroboratedAbsence
  {
  }

  /** One attempt at the peer tier: no peer could be read, or one was and the voices were consulted. */
  datatype Attempt<T> =
    | Unread(error: QueryError)
    | Round(readiness: Readiness, asked: Option<T>, replies: seq<Reply<T>>)

  function Outcome<T>(attempt: Attempt<T>, claim: T -> string): Result<OptAnswer<T>, QueryError>
  {
    match attempt
    case Unread(error) => Err(error)
    case Round(readiness, asked, replies) => Grade(readiness, asked, replies, claim)
  }

  /** All but the liars tell the truth or nothing: position 0 is the asked peer, `i + 1` is voice `i`. */
  predicate TruthfulBut<T>(attempt: Attempt<T>, liars: set<nat>, truth: Option<string>, claim: T -> string)
  {
    attempt.Round? ==>
      && (0 !in liars ==> Says(attempt.asked, claim) == truth)
      && (forall i: nat :: i < |attempt.replies| && i + 1 !in liars ==> Truthful(attempt.replies[i], truth, claim))
  }

  lemma {:induction false} RoundAnswersAreTrue<T>(
      round: Attempt<T>, coinset: Reply<T>, enabled: bool, claim: T -> string, truth: Option<string>, liars: set<nat>)
    requires Outcome(round, claim).Ok? && TruthfulBut(round, liars, truth, claim)
    ensures var r := SettlePeerAnswer(Outcome(round, claim).value, coinset, enabled, claim);
      r.Ok? && Says(r.value, claim) != truth ==>
        |liars| >= 3 || (0 in liars && enabled && !Truthful(coinset, truth, claim))
  {
    var answer := Outcome(round, claim);
    RouterAnswersIffSeconded(answer, answer, coinset, enabled, claim);
    if answer.value.IsFact() {
      AFalseFactTakesThreeLiars(round.readiness, round.asked, round.replies, claim, truth, liars);
    }
  }

  /** The rounds and the router together: an answer is false only if, in the round of the attempt that
      produced it, the retry's included, three peers lied or the asked peer and the coinset tier both
      did; or if neither attempt produced an answer and the coinset tier lied. */
  lemma {:induction false} RouterAnswersAreTrue<T>(
      first: Attempt<T>, retry: Attempt<T>, coinset: Reply<T>, enabled: bool,
      claim: T -> string, truth: Option<string>, liars: set<nat>)
    requires TruthfulBut(if Outcome(first, claim).Ok? then first else retry, liars, truth, claim)
    ensures var r := PeerThenCoinsetOpt(Outcome(first, claim), Outcome(retry, claim), coinset, enabled, claim);
      r.Ok? && Says(r.value, claim) != truth ==>
        if Outcome(first, claim).Ok? || Outcome(retry, claim).Ok?
        then |liars| >= 3 || (0 in liars && enabled && !Truthful(coinset, truth, claim))
        else enabled && !Truthful(coinset, truth, claim)
  {
    if Outcome(first, claim).Ok? {
      RoundAnswersAreTrue(first, coinset, enabled, claim, truth, liars);
    } else if Outcome(retry, claim).Ok? {
      RoundAnswersAreTrue(retry, coinset, enabled, claim, truth, liars);
    }
  }
}
