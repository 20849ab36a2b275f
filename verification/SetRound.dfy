/** One graded population read: the round `read_set_corroborated` (src/peer/mod.rs) and the router's
    settlement of its answer (src/router.rs). What the network returned is an input. */
module SetRound {
  import opened Prelude
  import opened Net
  import opened PeerPool
  import opened ChainClaims
  import opened SetAgreement

  datatype SetAnswer =
    | Corroborated(items: seq<CoinRecord>, asOfHeight: nat)
    | Uncorroborated(items: seq<CoinRecord>, asOfHeight: nat)

  datatype CorroboratedSet = CorroboratedSet(items: seq<CoinRecord>, asOfHeight: nat)

  type Reply = (SocketAddr, Result<HeightedSet, QueryError>)

  // ---------------------------------------------------------------------------
  // The round
  // ---------------------------------------------------------------------------

  /** The sets of the corroborators that answered. */
  function Answering(replies: seq<Reply>): seq<HeightedSet>
  {
    if replies == [] then []
    else
      var rest := Answering(replies[..|replies| - 1]);
      var reply := replies[|replies| - 1];
      if reply.1.Ok? then rest + [reply.1.value] else rest
  }

  function Failing(replies: seq<Reply>): seq<SocketAddr>
  {
    if replies == [] then []
    else
      var rest := Failing(replies[..|replies| - 1]);
      var reply := replies[|replies| - 1];
      if reply.1.Err? then rest + [reply.0] else rest
  }

  function Heights(sets: seq<HeightedSet>): seq<nat>
  {
    seq(|sets|, i requires 0 <= i < |sets| => sets[i].asOfHeight)
  }

  function PrintAt(s: HeightedSet, h: nat): map<string, string> { Fingerprint(NormaliseAt(s.items, h)) }

  /** The verdict of a round in which the sources `[first] + others` answered. */
  function Verdict(readiness: Readiness, first: HeightedSet, others: seq<HeightedSet>, p: SetProjection)
    : Result<SetAnswer, QueryError>
  {
    var common := CommonHeight(Heights([first] + others), p.endHeight);
    if common.None? then Err(UncorroboratedPresence)
    else
      var h := common.value;
      if exists s :: s in others && PrintAt(s, h) != PrintAt(first, h) then Err(SourcesDisagree)
      else
        var items := Project(NormaliseAt(first.items, h), p);
        if (p.startHeight.None? || p.startHeight.value <= h) && IsCorroborated(readiness, |others|)
        then Ok(Corroborated(items, h))
        else Ok(Uncorroborated(items, h))
  }

  /** What each voice returned, in order. */
  function Heard(voices: Entries, read: SocketAddr -> Result<HeightedSet, QueryError>): seq<Reply>
  {
    seq(|voices|, i requires 0 <= i < |voices| => (voices[i].address, read(voices[i].address)))
  }

  /** `read_set_corroborated` on a pool that nobody else changes meanwhile: `asked` is the peer picked,
      `read` what any peer would return. A source that failed is ejected and takes no part; a source
      that disagreed is kept. */
  method ReadSetCorroborated(
      pool: Pool, asked: SocketAddr, read: SocketAddr -> Result<HeightedSet, QueryError>, p: SetProjection)
    returns (r: Result<SetAnswer, QueryError>, voices: Entries)
    modifies pool`entries
    ensures read(asked).Err? ==>
      r == Err(read(asked).error) && pool.entries == WithoutAddress(old(pool.entries), asked)
    ensures read(asked).Ok? ==>
      && OnePerOtherHost(voices, old(pool.entries), asked)
      && r == Verdict(
           ReadinessFor(|DiscoveredHosts(old(pool.entries)) - {asked.ip}|),
           read(asked).value, Answering(Heard(voices, read)), p)
      && pool.entries == WithoutAddresses(old(pool.entries), Failing(Heard(voices, read)))
  {
    voices := [];
    var readiness := pool.CorroborationReadiness(asked);
    var first := read(asked);
    if first.Err? {
      pool.EjectPeer(asked);
      return Err(first.error), voices;
    }
    voices := pool.Corroborators(asked);
    var others, failed := SortReplies(Heard(voices, read));
    pool.EjectAll(failed);
    r := GradeSets(readiness, first.value, others, p);
  }

  /** The grading of the sets that were returned. */
  method GradeSets(readiness: Readiness, first: HeightedSet, others: seq<HeightedSet>, p: SetProjection)
    returns (r: Result<SetAnswer, QueryError>)
    ensures r == Verdict(readiness, first, others, p)
  {
    var asOf := [first.asOfHeight];
    for i := 0 to |others|
      invariant asOf == Heights([first] + others[..i])
    {
      asOf := asOf + [others[i].asOfHeight];
    }
    assert others[..|others|] == others;
    var common := CommonHeight(asOf, p.endHeight);
    if common.None? {
      return Err(UncorroboratedPresence);
    }
    var height := common.value;
    var normalised := NormaliseAt(first.items, height);
    var agreed, disagreed := CountAgreeing(Fingerprint(normalised), others, height);
    if disagreed {
      return Err(SourcesDisagree);
    }
    var items := Project(normalised, p);
    if p.startHeight.Some? && p.startHeight.value > height {
      return Ok(Uncorroborated(items, height));
    }
    if !IsCorroborated(readiness, agreed) {
      return Ok(Uncorroborated(items, height));
    }
    return Ok(Corroborated(items, height));
  }

  method SortReplies(replies: seq<Reply>) returns (others: seq<HeightedSet>, failed: seq<SocketAddr>)
    ensures others == Answering(replies)
    ensures failed == Failing(replies)
  {
    others, failed := [], [];
    for i := 0 to |replies|
      invariant others == Answering(replies[..i])
      invariant failed == Failing(replies[..i])
    {
      assert replies[..i + 1][..i] == replies[..i];
      match replies[i].1
      case Ok(set_) => others := others + [set_];
      case Err(_) => failed := failed + [replies[i].0];
    }
    assert replies[..|replies|] == replies;
  }

  /** How many of the sets print as `claim`. */
  function Agreeing(claim: map<string, string>, others: seq<HeightedSet>, height: nat): nat
  {
    if others == [] then 0
    else
      Agreeing(claim, others[..|others| - 1], height)
        + if PrintAt(others[|others| - 1], height) == claim then 1 else 0
  }

  lemma {:induction false} AllAgreeIff(claim: map<string, string>, others: seq<HeightedSet>, height: nat)
    ensures Agreeing(claim, others, height) <= |others|
    ensures Agreeing(claim, others, height) == |others| <==> forall s :: s in others ==> PrintAt(s, height) == claim
  {
    if others != [] {
      var n := |others| - 1;
      AllAgreeIff(claim, others[..n], height);
      assert others == others[..n] + [others[n]];
    }
  }

  method CountAgreeing(claim: map<string, string>, others: seq<HeightedSet>, height: nat)
    returns (agreed: nat, disagreed: bool)
    ensures disagreed <==> exists s :: s in others && PrintAt(s, height) != claim
    ensures agreed == Agreeing(claim, others, height)
    ensures !disagreed ==> agreed == |others|
  {
    agreed, disagreed := 0, false;
    for i := 0 to |others|
      invariant agreed == Agreeing(claim, others[..i], height) <= i
      invariant disagreed <==> agreed < i
    {
      assert others[..i + 1][..i] == others[..i];
      var difference := Contradiction(claim, PrintAt(others[i], height));
      if difference.None? {
        agreed := agreed + 1;
      } else {
        disagreed := true;
      }
    }
    assert others[..|others|] == others;
    AllAgreeIff(claim, others, height);
  }

  lemma {:induction false} FailedMembers(
      voices: Entries, read: SocketAddr -> Result<HeightedSet, QueryError>, a: SocketAddr)
    ensures a in Failing(Heard(voices, read)) <==> Holds(voices, a) && read(a).Err?
  {
    if voices != [] {
      var n := |voices| - 1;
      FailedMembers(voices[..n], read, a);
      assert Heard(voices, read)[..n] == Heard(voices[..n], read);
      assert voices == voices[..n] + [voices[n]];
      assert voices[n] in voices;
    }
  }

  /** A round removes from the pool exactly the sources whose read failed; one that contradicted the asked
      peer keeps its place. */
  lemma {:induction false} OnlyFailedSourcesAreEjected(
      entries: Entries, voices: Entries, read: SocketAddr -> Result<HeightedSet, QueryError>, e: PeerEntry)
    ensures e in WithoutAddresses(entries, Failing(Heard(voices, read)))
      <==> e in entries && !(Holds(voices, e.address) && read(e.address).Err?)
  {
    WithoutAddressesMembers(entries, Failing(Heard(voices, read)), e);
    FailedMembers(voices, read, e.address);
  }

  // ---------------------------------------------------------------------------
  // The common height
  // ---------------------------------------------------------------------------

  lemma {:induction false} HeightsMember(sets: seq<HeightedSet>, s: HeightedSet)
    requires s in sets
    ensures s.asOfHeight in Heights(sets)
  {
    var i :| 0 <= i < |sets| && sets[i] == s;
    assert Heights(sets)[i] == s.asOfHeight;
  }

  /** Every source of a round has passed its common height by the settled margin. */
  lemma {:induction false} EverySourceHasPassed(sets: seq<HeightedSet>, end: Option<nat>, s: HeightedSet)
    requires s in sets
    requires CommonHeight(Heights(sets), end).Some?
    ensures CommonHeight(Heights(sets), end).value + SETTLED_LAG <= s.asOfHeight
    ensures end.Some? ==> CommonHeight(Heights(sets), end).value <= end.value
  {
    HeightsMember(sets, s);
  }

  /** Two blocks below the lowest source, or the caller's end if that is lower. */
  ghost predicate IsCommonHeight(h: nat, sets: seq<HeightedSet>, end: Option<nat>)
  {
    && (forall s :: s in sets ==> h + 2 <= s.asOfHeight)
    && (end.Some? ==> h <= end.value)
    && (end == Some(h) || exists s :: s in sets && s.asOfHeight == h + 2)
  }

  /** A round has a common height unless some source is within two blocks of genesis, and it is as high
      as its sources and the caller allow. */
  lemma {:induction false} TheCommonHeightIs(sets: seq<HeightedSet>, end: Option<nat>, h: nat)
    requires sets != []
    ensures CommonHeight(Heights(sets), end).None? <==> exists s :: s in sets && s.asOfHeight < 2
    ensures CommonHeight(Heights(sets), end) == Some(h) <==> IsCommonHeight(h, sets, end)
  {
    var low := Lowest(Heights(sets));
    var i :| 0 <= i < |Heights(sets)| && Heights(sets)[i] == low;
    assert sets[i] in sets && sets[i].asOfHeight == low;
    forall s | s in sets
      ensures low <= s.asOfHeight
    {
      HeightsMember(sets, s);
    }
  }

  /** Further sources can only lower the common height, or leave none. */
  lemma {:induction false} MoreSourcesOnlyLower(sets: seq<HeightedSet>, more: seq<HeightedSet>, end: Option<nat>)
    requires sets != []
    requires CommonHeight(Heights(sets + more), end).Some?
    ensures CommonHeight(Heights(sets), end).Some?
    ensures CommonHeight(Heights(sets + more), end).value <= CommonHeight(Heights(sets), end).value
  {
    var low := Lowest(Heights(sets));
    var i :| 0 <= i < |Heights(sets)| && Heights(sets)[i] == low;
    HeightsMember(sets + more, sets[i]);
  }

  // ---------------------------------------------------------------------------
  // Completeness and soundness
  // ---------------------------------------------------------------------------

  /** Honest sources at different peaks never contradict one another: the round answers with the
      chain at the common height, and is corroborated whenever enough of them answered. */
  lemma {:induction false} HonestLagNeverDisagrees(
      readiness: Readiness, first: HeightedSet, others: seq<HeightedSet>, p: SetProjection, truth: Facts)
    requires forall s :: s in [first] + others ==> Honest(s, truth)
    ensures var v := Verdict(readiness, first, others, p);
      var common := CommonHeight(Heights([first] + others), p.endHeight);
      && (common.None? ==> v == Err(UncorroboratedPresence))
      && (common.Some? ==>
           && v.Ok? && v.value.asOfHeight == common.value
           && States(v.value.items, ProjectFacts(AtHeight(truth, common.value), p))
           && (v.value.Corroborated? <==>
                readiness.Armed? && |others| >= CORROBORATION_FLOOR
                && (p.startHeight.Some? ==> p.startHeight.value <= common.value)))
  {
    var common := CommonHeight(Heights([first] + others), p.endHeight);
    if common.Some? {
      var h := common.value;
      forall s | s in [first] + others
        ensures FactsOf(NormaliseAt(s.items, h)) == AtHeight(truth, h)
        ensures PlainRecords(NormaliseAt(s.items, h)) && Distinct(NormaliseAt(s.items, h))
      {
        EverySourceHasPassed([first] + others, p.endHeight, s);
        HonestAnswerAtHeight(s, truth, h);
      }
      assert first in [first] + others;
      forall s | s in others
        ensures PrintAt(s, h) == PrintAt(first, h)
      {
        assert s in [first] + others;
        FingerprintsAgreeIffFactsDo(NormaliseAt(s.items, h), NormaliseAt(first.items, h));
      }
      ProjectedFacts(NormaliseAt(first.items, h), p);
      ProjectionStaysDistinct(NormaliseAt(first.items, h), p);
    }
  }

  /** One honest answer makes the round true: whatever the other sources are, a round that ends in an
      answer holds, before the caller's projection, exactly the facts of the chain at its height. */
  lemma {:induction false} OneHonestSourceMakesItTrue(
      readiness: Readiness, first: HeightedSet, others: seq<HeightedSet>, p: SetProjection,
      truth: Facts, honest: HeightedSet)
    requires honest in [first] + others && Honest(honest, truth)
    requires Verdict(readiness, first, others, p).Ok?
    ensures var h := Verdict(readiness, first, others, p).value.asOfHeight;
      && FactsOf(NormaliseAt(first.items, h)) == AtHeight(truth, h)
      && h + SETTLED_LAG <= honest.asOfHeight
  {
    var h := Verdict(readiness, first, others, p).value.asOfHeight;
    EverySourceHasPassed([first] + others, p.endHeight, honest);
    HonestAnswerAtHeight(honest, truth, h);
    FingerprintsAgreeIffFactsDo(NormaliseAt(honest.items, h), NormaliseAt(first.items, h));
    assert PrintAt(honest, h) == PrintAt(first, h);
  }

  /** Held to the height, the two answers state the same facts. */
  predicate SameFacts(a: HeightedSet, b: HeightedSet, h: nat)
  {
    FactsOf(NormaliseAt(a.items, h)) == FactsOf(NormaliseAt(b.items, h))
  }

  /** Over an asked source whose texts are plain, a round with a common height is answered at it if and only
      if everybody who answered states the same facts there, and is refused as a disagreement otherwise. */
  lemma {:induction false} ARoundAnswersIffFactsAgree(
      readiness: Readiness, first: HeightedSet, others: seq<HeightedSet>, p: SetProjection, h: nat)
    requires PlainRecords(first.items) && IsCommonHeight(h, [first] + others, p.endHeight)
    ensures var v := Verdict(readiness, first, others, p);
      if forall s :: s in others ==> SameFacts(s, first, h) then v.Ok? && v.value.asOfHeight == h
      else v == Err(SourcesDisagree)
  {
    TheCommonHeightIs([first] + others, p.endHeight, h);
    SomePrintDiffersIff(first, others, h);
  }

  lemma {:induction false} SomePrintDiffersIff(first: HeightedSet, others: seq<HeightedSet>, h: nat)
    requires PlainRecords(first.items)
    ensures (exists s :: s in others && PrintAt(s, h) != PrintAt(first, h))
      <==> !(forall s :: s in others ==> SameFacts(s, first, h))
  {
    forall s | s in others
      ensures PrintAt(s, h) == PrintAt(first, h) <==> SameFacts(s, first, h)
    {
      PrintsAgreeIffFactsDo(first, s, h);
    }
  }

  lemma {:induction false} PrintsAgreeIffFactsDo(first: HeightedSet, s: HeightedSet, h: nat)
    requires PlainRecords(first.items)
    ensures PrintAt(s, h) == PrintAt(first, h) <==> SameFacts(s, first, h)
  {
    NormalisationStaysPlain(first.items, h);
    FingerprintsAgreeIffFactsDo(NormaliseAt(first.items, h), NormaliseAt(s.items, h));
  }

  lemma {:induction false} NormalisationStaysPlain(items: seq<CoinRecord>, h: nat)
    requires PlainRecords(items)
    ensures PlainRecords(NormaliseAt(items, h))
  {
    forall r | r in NormaliseAt(items, h)
      ensures PlainCoin(r.coin, ':')
    {
      NormalisedRecords(items, h, r);
    }
  }

  lemma {:induction false} WithoutAHeightNothingIsAnswered(
      readiness: Readiness, first: HeightedSet, others: seq<HeightedSet>, p: SetProjection)
    requires exists s :: s in [first] + others && s.asOfHeight < 2
    ensures Verdict(readiness, first, others, p) == Err(UncorroboratedPresence)
  {
    TheCommonHeightIs([first] + others, p.endHeight, 0);
  }

  lemma {:induction false} AnsweringVoices(replies: seq<Reply>, n: nat)
    requires n < |Answering(replies)|
    ensures exists i :: 0 <= i < |replies| && replies[i].1.Ok?
    ensures n > 0 ==> exists i, j :: 0 <= i < j < |replies| && replies[i].1.Ok? && replies[j].1.Ok?
  {
    var m := |replies| - 1;
    var before := replies[..m];
    if replies[m].1.Ok? {
      if n > 0 {
        AnsweringVoices(before, n - 1);
        var i :| 0 <= i < m && before[i].1.Ok?;
        assert replies[i].1.Ok?;
      }
    } else {
      AnsweringVoices(before, n);
      var i :| 0 <= i < m && before[i].1.Ok?;
      assert replies[i].1.Ok?;
      if n > 0 {
        var j, k :| 0 <= j < k < m && before[j].1.Ok? && before[k].1.Ok?;
        assert replies[j].1.Ok? && replies[k].1.Ok?;
      }
    }
  }

  lemma {:induction false} AnswersAreOthers(replies: seq<Reply>, i: nat)
    requires i < |replies| && replies[i].1.Ok?
    ensures replies[i].1.value in Answering(replies)
  {
    var n := |replies| - 1;
    if i < n {
      AnswersAreOthers(replies[..n], i);
    }
  }

  /** A corroborated set was returned, up to its height, by two machines besides the one asked. */
  lemma {:induction false} ACorroboratedSetRestsOnTwoOtherHosts(
      entries: Entries, voices: Entries, asked: SocketAddr, readiness: Readiness,
      read: SocketAddr -> Result<HeightedSet, QueryError>, p: SetProjection)
    returns (a: PeerEntry, b: PeerEntry)
    requires OnePerOtherHost(voices, entries, asked) && read(asked).Ok?
    requires Verdict(readiness, read(asked).value, Answering(Heard(voices, read)), p).Ok?
    requires Verdict(readiness, read(asked).value, Answering(Heard(voices, read)), p).value.Corroborated?
    ensures a in entries && b in entries && a.origin.Discovered? && b.origin.Discovered?
    ensures a.address.ip != b.address.ip && a.address.ip != asked.ip && b.address.ip != asked.ip
    ensures var h := Verdict(readiness, read(asked).value, Answering(Heard(voices, read)), p).value.asOfHeight;
      && read(a.address).Ok? && PrintAt(read(a.address).value, h) == PrintAt(read(asked).value, h)
      && read(b.address).Ok? && PrintAt(read(b.address).value, h) == PrintAt(read(asked).value, h)
  {
    var heard := Heard(voices, read);
    AnsweringVoices(heard, 1);
    var i: nat, j: nat :| i < j < |heard| && heard[i].1.Ok? && heard[j].1.Ok?;
    AnswersAreOthers(heard, i);
    AnswersAreOthers(heard, j);
    a, b := voices[i], voices[j];
    assert a in voices && b in voices;
  }

  /** A corroborated set is true unless at least three of the sources that answered lied; `liars` are
      positions in the list of answering sources, the asked source first. */
  lemma {:induction false} ThreeMustLie(
      readiness: Readiness, first: HeightedSet, others: seq<HeightedSet>, p: SetProjection,
      truth: Facts, liars: set<nat>)
    requires Verdict(readiness, first, others, p).Ok? && Verdict(readiness, first, others, p).value.Corroborated?
    requires |liars| < 3
    requires forall i: nat :: i < |[first] + others| && i !in liars ==> Honest(([first] + others)[i], truth)
    ensures readiness.Armed?
    ensures var h := Verdict(readiness, first, others, p).value.asOfHeight;
      FactsOf(NormaliseAt(first.items, h)) == AtHeight(truth, h)
  {
    var three := {0, 1, 2};
    assert |three| == 3;
    if three <= liars {
      SubsetIsNoLarger(three, liars);
    }
    var i: nat :| i in three && i !in liars;
    OneHonestSourceMakesItTrue(readiness, first, others, p, truth, ([first] + others)[i]);
  }

  // ---------------------------------------------------------------------------
  // Repeated identities
  // ---------------------------------------------------------------------------

  /** Every record that a truthful round returns is true, under every projection, if and only if the
      asked source's normalised answer says no two different things of one coin. */
  lemma {:induction false} ReturnedRecordsAreTrueIffConsistent(items: seq<CoinRecord>, h: nat, truth: Facts)
    requires FactsOf(NormaliseAt(items, h)) == AtHeight(truth, h)
    ensures (forall p :: TrueRecords(Project(NormaliseAt(items, h), p), ProjectFacts(AtHeight(truth, h), p)))
      <==> Consistent(NormaliseAt(items, h))
  {
    var normalised := NormaliseAt(items, h);
    TrueIffConsistent(normalised);
    if Consistent(normalised) {
      forall p
        ensures TrueRecords(Project(normalised, p), ProjectFacts(AtHeight(truth, h), p))
      {
        ProjectionStaysTrue(normalised, AtHeight(truth, h), p);
      }
    } else {
      var everything := SetProjection(None, None, true);
      ProjectingEverything(normalised);
      assert ProjectFacts(AtHeight(truth, h), everything) == AtHeight(truth, h);
      assert !TrueRecords(Project(normalised, everything), ProjectFacts(AtHeight(truth, h), everything));
    }
  }

  /** The items of a truthful round state the chain, each coin once, under every projection, exactly
      when the asked source's normalised answer names no coin twice. */
  lemma {:induction false} EachCoinIsStatedOnceIffDistinct(items: seq<CoinRecord>, h: nat, truth: Facts)
    requires FactsOf(NormaliseAt(items, h)) == AtHeight(truth, h)
    ensures (forall p :: States(Project(NormaliseAt(items, h), p), ProjectFacts(AtHeight(truth, h), p)))
      <==> Distinct(NormaliseAt(items, h))
  {
    var normalised := NormaliseAt(items, h);
    if Distinct(normalised) {
      forall p
        ensures States(Project(normalised, p), ProjectFacts(AtHeight(truth, h), p))
      {
        ProjectedFacts(normalised, p);
        ProjectionStaysDistinct(normalised, p);
      }
    } else {
      var everything := SetProjection(None, None, true);
      ProjectingEverything(normalised);
      assert !States(Project(normalised, everything), ProjectFacts(AtHeight(truth, h), everything));
    }
  }

  lemma {:induction false} ProjectingEverything(items: seq<CoinRecord>)
    ensures Project(items, SetProjection(None, None, true)) == items
  {
    if items != [] {
      ProjectingEverything(items[..|items| - 1]);
    }
  }

  const COIN := Coin("aa", "bb", 1)
  const SPENT_RECORD := CoinRecord(COIN, 10, 20, true, false, 0)
  const UNSPENT_RECORD := CoinRecord(COIN, 10, 0, false, false, 0)

  lemma {:induction false} OneRecord(r: CoinRecord, h: nat)
    requires r.confirmedBlockIndex <= h
    ensures NormaliseAt([r], h) == [HeldTo(r, h)]
    ensures FactsOf([r]) == map[r.coin := FactOf(r)]
    ensures Fingerprint([r]) == map[Identity(r.coin) := RecordClaim(r)]
  {
    assert [r][..0] == [];
  }

  const HONEST_ANSWER := HeightedSet([SPENT_RECORD], 100)
  const DOUBLED_ANSWER := HeightedSet([UNSPENT_RECORD, SPENT_RECORD], 100)
  const UNSPENT_ONLY := SetProjection(None, None, false)

  lemma {:induction false} TheDoubledAnswerComparesEqual()
    ensures NormaliseAt(DOUBLED_ANSWER.items, 98) == DOUBLED_ANSWER.items
    ensures PrintAt(DOUBLED_ANSWER, 98) == PrintAt(HONEST_ANSWER, 98)
  {
    OneRecord(SPENT_RECORD, 98);
    OneRecord(UNSPENT_RECORD, 98);
    assert SPENT_RECORD.confirmedBlockIndex <= 98;
    assert HeldTo(SPENT_RECORD, 98) == SPENT_RECORD && HeldTo(UNSPENT_RECORD, 98) == UNSPENT_RECORD;
    var both := DOUBLED_ANSWER.items;
    assert both[..1] == [UNSPENT_RECORD];
    assert NormaliseAt(both, 98) == [UNSPENT_RECORD] + [SPENT_RECORD] == both;
  }

  lemma {:induction false} TheDoubledAnswerKeepsTheUnspentRecord()
    ensures Project(DOUBLED_ANSWER.items, UNSPENT_ONLY) == [UNSPENT_RECORD]
  {
    var both := DOUBLED_ANSWER.items;
    assert both[..1] == [UNSPENT_RECORD] && [UNSPENT_RECORD][..0] == [];
    assert Project([UNSPENT_RECORD], UNSPENT_ONLY)
        == Filter([], r => Wanted(r, UNSPENT_ONLY)) + [UNSPENT_RECORD];
  }

  lemma {:induction false} ThreeAtOneHundred(first: HeightedSet, second: HeightedSet, third: HeightedSet)
    requires first.asOfHeight == second.asOfHeight == third.asOfHeight == 100
    ensures CommonHeight(Heights([first] + [second, third]), None) == Some(98)
  {
    var heights := Heights([first] + [second, third]);
    assert heights == [100, 100, 100];
    assert Lowest(heights) in heights;
  }

  lemma {:induction false} TheDoubledAnswerIsCorroborated()
    ensures Verdict(Armed(2), DOUBLED_ANSWER, [HONEST_ANSWER, HONEST_ANSWER], UNSPENT_ONLY)
      == Ok(Corroborated([UNSPENT_RECORD], 98))
  {
    TheDoubledAnswerComparesEqual();
    TheDoubledAnswerKeepsTheUnspentRecord();
    ThreeAtOneHundred(DOUBLED_ANSWER, HONEST_ANSWER, HONEST_ANSWER);
    var honest, liar := HONEST_ANSWER, DOUBLED_ANSWER;
    forall s | s in [honest, honest]
      ensures PrintAt(s, 98) == PrintAt(liar, 98)
    {
    }
  }

  lemma {:induction false} TheHonestAnswerIsPlain()
    ensures PlainRecords([SPENT_RECORD])
  {
    HexIsPlain(COIN);
  }

  lemma {:induction false} TheHonestAnswerStatesTheChain(truth: Facts)
    requires truth == map[COIN := Fact(10, Some(20))]
    ensures FactsOf([SPENT_RECORD]) == AtHeight(truth, 100)
  {
    OneRecord(SPENT_RECORD, 98);
    assert FactOf(SPENT_RECORD) == Fact(10, Some(20));
    assert AtHeight(truth, 100) == truth;
  }

  lemma {:induction false} TheHonestAnswerIsHonest()
    ensures Honest(HONEST_ANSWER, map[COIN := Fact(10, Some(20))])
  {
    TheHonestAnswerIsPlain();
    TheHonestAnswerStatesTheChain(map[COIN := Fact(10, Some(20))]);
  }

  /** Where an answer names a coin twice the last record is compared and every record is returned: a
      source that appends the true record to a false one is corroborated by two honest sources, and
      a caller asking for unspent coins is handed a coin that all of them know to be spent. */
  lemma {:induction false} RepeatedCoinsEscapeTheComparison()
    ensures var truth: Facts := map[COIN := Fact(10, Some(20))];
      && Honest(HONEST_ANSWER, truth)
      && Verdict(Armed(2), DOUBLED_ANSWER, [HONEST_ANSWER, HONEST_ANSWER], UNSPENT_ONLY)
           == Ok(Corroborated([UNSPENT_RECORD], 98))
      && ProjectFacts(AtHeight(truth, 98), UNSPENT_ONLY) == map[]
  {
    TheHonestAnswerIsHonest();
    TheDoubledAnswerIsCorroborated();
  }

  // ---------------------------------------------------------------------------
  // The router
  // ---------------------------------------------------------------------------

  /** `settle_uncorroborated_set`; `coinset` is `None` when the fallback tier is disabled. */
  function SettleUncorroboratedSet(
      items: seq<CoinRecord>, asOf: nat, p: SetProjection,
      coinset: Option<Result<seq<CoinRecord>, QueryError>>): Result<CorroboratedSet, QueryError>
  {
    match coinset
    case None => Err(UncorroboratedPresence)
    case Some(Err(_)) => Err(UncorroboratedPresence)
    case Some(Ok(raw)) =>
      if Fingerprint(items) == Fingerprint(Project(NormaliseAt(raw, asOf), p))
      then Ok(CorroboratedSet(items, asOf))
      else Err(SourcesDisagree)
  }

  function SettleSetAnswer(
      answer: SetAnswer, p: SetProjection, enabled: bool, raw: Result<seq<CoinRecord>, QueryError>)
    : Result<CorroboratedSet, QueryError>
  {
    match answer
    case Corroborated(items, asOf) => Ok(CorroboratedSet(items, asOf))
    case Uncorroborated(items, asOf) =>
      SettleUncorroboratedSet(items, asOf, p, if enabled then Some(raw) else None)
  }

  /** The coinset tier on its own, dated by its own peak. */
  function CoinsetOnlySet(
      peak: Result<Option<nat>, QueryError>, raw: Result<seq<CoinRecord>, QueryError>, p: SetProjection)
    : Result<CorroboratedSet, QueryError>
  {
    if peak.Err? || peak.value.None? || CommonHeight([peak.value.value], p.endHeight).None? || raw.Err?
    then Err(AllSourcesFailed)
    else
      var h := CommonHeight([peak.value.value], p.endHeight).value;
      Ok(CorroboratedSet(Project(NormaliseAt(raw.value, h), p), h))
  }

  /** `peer_then_coinset_set`: a peer attempt, one retry, then the coinset tier alone. */
  function PeerThenCoinsetSet(
      first: Result<SetAnswer, QueryError>, retry: Result<SetAnswer, QueryError>,
      peak: Result<Option<nat>, QueryError>, raw: Result<seq<CoinRecord>, QueryError>,
      p: SetProjection, enabled: bool): Result<CorroboratedSet, QueryError>
  {
    if first.Ok? then SettleSetAnswer(first.value, p, enabled, raw)
    else if retry.Ok? then SettleSetAnswer(retry.value, p, enabled, raw)
    else if !enabled then Err(retry.error)
    else CoinsetOnlySet(peak, raw, p)
  }

  /** A set the peer tier could not second is returned only when the coinset tier says the same, and
      then one honest source of the two is enough: an honest coinset that has reached the height, or
      a peer set that states the chain. */
  lemma {:induction false} SettledSetIsSeconded(
      items: seq<CoinRecord>, asOf: nat, p: SetProjection,
      coinset: Option<Result<seq<CoinRecord>, QueryError>>, truth: Facts, tip: nat)
    requires SettleUncorroboratedSet(items, asOf, p, coinset).Ok?
    requires Honest(HeightedSet(coinset.value.value, tip), truth) && asOf <= tip
    ensures SettleUncorroboratedSet(items, asOf, p, coinset).value == CorroboratedSet(items, asOf)
    ensures FactsOf(items) == ProjectFacts(AtHeight(truth, asOf), p)
  {
    var raw := coinset.value.value;
    HonestAnswerAtHeight(HeightedSet(raw, tip), truth, asOf);
    ProjectedFacts(NormaliseAt(raw, asOf), p);
    FilterMembers(NormaliseAt(raw, asOf), r => Wanted(r, p));
    FingerprintsAgreeIffFactsDo(Project(NormaliseAt(raw, asOf), p), items);
  }

  /** An honest peer set and an honest coinset that has reached its height always settle. */
  lemma {:induction false} HonestTiersSettle(
      s: HeightedSet, asOf: nat, p: SetProjection, raw: seq<CoinRecord>, tip: nat, truth: Facts)
    requires Honest(s, truth) && asOf <= s.asOfHeight
    requires Honest(HeightedSet(raw, tip), truth) && asOf <= tip
    ensures var items := Project(NormaliseAt(s.items, asOf), p);
      SettleUncorroboratedSet(items, asOf, p, Some(Ok(raw))) == Ok(CorroboratedSet(items, asOf))
  {
    var items, theirs := Project(NormaliseAt(s.items, asOf), p), Project(NormaliseAt(raw, asOf), p);
    HonestAnswerAtHeight(s, truth, asOf);
    HonestAnswerAtHeight(HeightedSet(raw, tip), truth, asOf);
    ProjectedFacts(NormaliseAt(s.items, asOf), p);
    ProjectedFacts(NormaliseAt(raw, asOf), p);
    FilterMembers(NormaliseAt(s.items, asOf), r => Wanted(r, p));
    FilterMembers(NormaliseAt(raw, asOf), r => Wanted(r, p));
    FingerprintsAgreeIffFactsDo(items, theirs);
  }

  /** Once a peer has answered, the router answers if and only if the peer tier corroborated the set or the
      enabled coinset tier returned an equal one, and then it answers that peer's set. */
  lemma {:induction false} RouterNeverReturnsALoneSet(
      first: Result<SetAnswer, QueryError>, retry: Result<SetAnswer, QueryError>,
      peak: Result<Option<nat>, QueryError>, raw: Result<seq<CoinRecord>, QueryError>,
      p: SetProjection, enabled: bool)
    requires first.Ok? || retry.Ok?
    ensures var answer := if first.Ok? then first.value else retry.value;
      var r := PeerThenCoinsetSet(first, retry, peak, raw, p, enabled);
      && (r.Ok? <==>
           answer.Corroborated?
           || (enabled && raw.Ok?
               && Fingerprint(Project(NormaliseAt(raw.value, answer.asOfHeight), p)) == Fingerprint(answer.items)))
      && (r.Ok? ==> r.value == CorroboratedSet(answer.items, answer.asOfHeight))
      && (r.Err? ==> r.error == if enabled && raw.Ok? then SourcesDisagree else UncorroboratedPresence)
  {
  }

  /** Where the peer's texts are plain and the coinset tier names no coin twice, an equal set is one that
      states what the coinset tier's facts come to at the height, under the caller's projection. */
  lemma {:induction false} EqualSetsStateTheSame(
      items: seq<CoinRecord>, raw: seq<CoinRecord>, h: nat, p: SetProjection)
    requires PlainRecords(items) && Distinct(raw)
    ensures Fingerprint(Project(NormaliseAt(raw, h), p)) == Fingerprint(items)
      <==> ProjectFacts(AtHeight(FactsOf(raw), h), p) == FactsOf(items)
  {
    NormalisedMembers(raw, h);
    NormalisedFacts(raw, h);
    ProjectedFacts(NormaliseAt(raw, h), p);
    FingerprintsAgreeIffFactsDo(items, Project(NormaliseAt(raw, h), p));
  }

  // ---------------------------------------------------------------------------
  // The coinset tier alone
  // ---------------------------------------------------------------------------

  /** When neither attempt was answered, the router answers if and only if the fallback is enabled and
      the coinset tier names a peak of at least two and can be read; the answer is dated two blocks
      below that peak, or at the caller's end if that is lower. */
  lemma {:induction false} CoinsetAnswersAloneIff(
      first: Result<SetAnswer, QueryError>, retry: Result<SetAnswer, QueryError>,
      peak: Result<Option<nat>, QueryError>, raw: Result<seq<CoinRecord>, QueryError>,
      p: SetProjection, enabled: bool)
    requires first.Err? && retry.Err?
    ensures var r := PeerThenCoinsetSet(first, retry, peak, raw, p, enabled);
      && (r.Ok? <==> enabled && peak.Ok? && peak.value.Some? && peak.value.value >= 2 && raw.Ok?)
      && (r.Ok? ==>
           var h := r.value.asOfHeight;
           && h + 2 <= peak.value.value
           && (p.endHeight.Some? ==> h <= p.endHeight.value)
           && (p.endHeight == Some(h) || h + 2 == peak.value.value))
      && (r.Err? ==> r.error == if enabled then AllSourcesFailed else retry.error)
  {
    if peak.Ok? && peak.value.Some? {
      assert Lowest([peak.value.value]) == peak.value.value;
    }
  }

  /** And an honest coinset that has reached the peak it names is answered truthfully: exactly the facts
      of the chain at that height that the caller asked for, each coin once. */
  lemma {:induction false} AnHonestCoinsetAloneIsTrue(
      first: Result<SetAnswer, QueryError>, retry: Result<SetAnswer, QueryError>,
      peak: Result<Option<nat>, QueryError>, raw: Result<seq<CoinRecord>, QueryError>,
      p: SetProjection, enabled: bool, truth: Facts, tip: nat)
    requires first.Err? && retry.Err?
    requires PeerThenCoinsetSet(first, retry, peak, raw, p, enabled).Ok?
    requires raw.Ok? && peak.Ok? && peak.value.Some? && peak.value.value <= tip
    requires Honest(HeightedSet(raw.value, tip), truth)
    ensures var answer := PeerThenCoinsetSet(first, retry, peak, raw, p, enabled).value;
      States(answer.items, ProjectFacts(AtHeight(truth, answer.asOfHeight), p))
  {
    CoinsetAnswersAloneIff(first, retry, peak, raw, p, enabled);
    var h := PeerThenCoinsetSet(first, retry, peak, raw, p, enabled).value.asOfHeight;
    HonestAnswerAtHeight(HeightedSet(raw.value, tip), truth, h);
    ProjectedFacts(NormaliseAt(raw.value, h), p);
    ProjectionStaysDistinct(NormaliseAt(raw.value, h), p);
  }
}
