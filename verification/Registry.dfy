/** The provider registry (src/provider_registry/registry.rs): the custody view, which answers from an
    operator-trusted source or a quorum of independent groups, and the discovery view. A query is the
    answer each provider would give; two answers agree when their canonical forms are equal. */
module Registry {
  import opened Prelude
  import opened StableSort

  datatype TrustLevel = Trusted | Untrusted

  datatype ProviderKind = LocalNode | PublicOracle | DigPeers | Custom

  datatype SourceError = NoProvider | TooManyRecords(count: nat, limit: nat) | Unanswered(reason: nat)

  /** `handle` names the boxed source. */
  datatype Registration = Registration(handle: nat, trust: TrustLevel, group: string, priority: int)

  type Providers = seq<Registration>

  type Query<T> = Registration -> Result<T, SourceError>

  const PUBLIC_QUORUM_THRESHOLD: nat := 2

  const COINSET_INDEPENDENCE_GROUP := "coinset.org"
  const CHIA_PEERS_INDEPENDENCE_GROUP := "chia-peers"

  function IndependenceGroupFor(coinsetReachable: bool): string
  {
    if coinsetReachable then COINSET_INDEPENDENCE_GROUP else CHIA_PEERS_INDEPENDENCE_GROUP
  }

  function DefaultTrust(kind: ProviderKind): TrustLevel
  {
    if kind.LocalNode? then Trusted else Untrusted
  }

  /** How one type of answer is compared (`QuorumComparable`): by canonical form, once the answer is
      small enough to look at. */
  datatype Comparison<!T, !K(==)> = Comparison(canonical: T -> K, validate: T -> Result<(), SourceError>)
  {
    predicate Agree(a: T, b: T) { canonical(a) == canonical(b) }
  }

  /** The provider answered, and its answer is small enough to compare. */
  predicate Usable<T, K(==)>(reg: Registration, query: Query<T>, cmp: Comparison<T, K>)
  {
    query(reg).Ok? && cmp.validate(query(reg).value).Ok?
  }

  // ---------------------------------------------------------------------------
  // The quorum
  // ---------------------------------------------------------------------------

  datatype Voice<+T> = Voice(group: string, answer: T)

  predicate Spoken<T>(voices: seq<Voice<T>>, group: string)
  {
    exists i :: 0 <= i < |voices| && voices[i].group == group
  }

  /** One answer for each group: the first usable one. */
  function Voices<T, K(==)>(providers: Providers, query: Query<T>, cmp: Comparison<T, K>): seq<Voice<T>>
  {
    if providers == [] then []
    else
      var n := |providers| - 1;
      var rest, reg := Voices(providers[..n], query, cmp), providers[n];
      if Spoken(rest, reg.group) || !Usable(reg, query, cmp) then rest
      else rest + [Voice(reg.group, query(reg).value)]
  }

  function CountAgreeing<T, K(==)>(voices: seq<Voice<T>>, candidate: T, cmp: Comparison<T, K>): nat
  {
    if voices == [] then 0
    else
      CountAgreeing(voices[..|voices| - 1], candidate, cmp)
        + if cmp.Agree(voices[|voices| - 1].answer, candidate) then 1 else 0
  }

  /** The groups that agree with `candidate`. */
  function Backers<T, K(==)>(voices: seq<Voice<T>>, candidate: T, cmp: Comparison<T, K>): set<string>
  {
    set i | 0 <= i < |voices| && cmp.Agree(voices[i].answer, candidate) :: voices[i].group
  }

  predicate OneVoicePerGroup<T>(voices: seq<Voice<T>>)
  {
    forall i, j :: 0 <= i < j < |voices| ==> voices[i].group != voices[j].group
  }

  lemma {:induction false} VoicesAreDistinct<T, K>(providers: Providers, query: Query<T>, cmp: Comparison<T, K>)
    ensures OneVoicePerGroup(Voices(providers, query, cmp))
  {
    if providers != [] {
      VoicesAreDistinct(providers[..|providers| - 1], query, cmp);
    }
  }

  lemma {:induction false} OneMoreBacker<T, K>(voices: seq<Voice<T>>, v: Voice<T>, candidate: T, cmp: Comparison<T, K>)
    ensures Backers(voices + [v], candidate, cmp)
      == Backers(voices, candidate, cmp) + if cmp.Agree(v.answer, candidate) then {v.group} else {}
  {
    var all := voices + [v];
    assert all[|voices|] == v;
    forall i | 0 <= i < |voices|
      ensures all[i] == voices[i]
    {
    }
    forall g | g in Backers(voices, candidate, cmp)
      ensures g in Backers(all, candidate, cmp)
    {
      var i :| 0 <= i < |voices| && cmp.Agree(voices[i].answer, candidate) && voices[i].group == g;
      assert all[i].group == g;
    }
  }

  lemma {:induction false} CountIsBackers<T, K>(voices: seq<Voice<T>>, candidate: T, cmp: Comparison<T, K>)
    requires OneVoicePerGroup(voices)
    ensures CountAgreeing(voices, candidate, cmp) == |Backers(voices, candidate, cmp)|
  {
    if voices != [] {
      var n := |voices| - 1;
      CountIsBackers(voices[..n], candidate, cmp);
      OneMoreBacker(voices[..n], voices[n], candidate, cmp);
      assert voices == voices[..n] + [voices[n]];
      assert voices[n].group !in Backers(voices[..n], candidate, cmp);
    }
  }

  /** What the quorum read answers: the first voice with enough groups behind it. */
  ghost predicate IsQuorum<T, K>(
      r: Result<T, SourceError>, voices: seq<Voice<T>>, threshold: nat, cmp: Comparison<T, K>)
  {
    match r
    case Ok(v) =>
      exists i :: 0 <= i < |voices| && voices[i].answer == v
        && |Backers(voices, v, cmp)| >= threshold
        && forall j :: 0 <= j < i ==> |Backers(voices, voices[j].answer, cmp)| < threshold
    case Err(e) =>
      e == NoProvider && forall j :: 0 <= j < |voices| ==> |Backers(voices, voices[j].answer, cmp)| < threshold
  }

  /** How many groups say the same as the candidate. */
  method CountGroups<T, K(==)>(perGroup: seq<Voice<T>>, candidate: T, cmp: Comparison<T, K>) returns (agreeing: nat)
    requires OneVoicePerGroup(perGroup)
    ensures agreeing == |Backers(perGroup, candidate, cmp)|
  {
    agreeing := 0;
    for j := 0 to |perGroup|
      invariant agreeing == CountAgreeing(perGroup[..j], candidate, cmp)
    {
      assert perGroup[..j + 1][..j] == perGroup[..j];
      if cmp.canonical(perGroup[j].answer) == cmp.canonical(candidate) {
        agreeing := agreeing + 1;
      }
    }
    assert perGroup[..|perGroup|] == perGroup;
    CountIsBackers(perGroup, candidate, cmp);
  }

  /** The second half of `quorum_read`: the first voice with enough groups behind it. */
  method FirstBacked<T, K(==)>(perGroup: seq<Voice<T>>, threshold: nat, cmp: Comparison<T, K>)
    returns (r: Result<T, SourceError>)
    requires OneVoicePerGroup(perGroup)
    ensures IsQuorum(r, perGroup, threshold, cmp)
  {
    for i := 0 to |perGroup|
      invariant forall j :: 0 <= j < i ==> |Backers(perGroup, perGroup[j].answer, cmp)| < threshold
    {
      var candidate := perGroup[i].answer;
      var agreeing := CountGroups(perGroup, candidate, cmp);
      if agreeing >= threshold {
        return Ok(candidate);
      }
    }
    return Err(NoProvider);
  }

  /** `quorum_read`. */
  method QuorumRead<T, K(==)>(providers: Providers, threshold: nat, query: Query<T>, cmp: Comparison<T, K>)
    returns (r: Result<T, SourceError>)
    ensures IsQuorum(r, Voices(providers, query, cmp), threshold, cmp)
  {
    var perGroup: seq<Voice<T>> := [];
    for i := 0 to |providers|
      invariant perGroup == Voices(providers[..i], query, cmp)
    {
      var reg := providers[i];
      assert providers[..i + 1][..i] == providers[..i];
      if Spoken(perGroup, reg.group) {
        continue;
      }
      var answer := query(reg);
      if answer.Ok? {
        if cmp.validate(answer.value).Err? {
          continue;
        }
        perGroup := perGroup + [Voice(reg.group, answer.value)];
      }
    }
    assert providers[..|providers|] == providers;
    VoicesAreDistinct(providers, query, cmp);
    r := FirstBacked(perGroup, threshold, cmp);
  }

  // ---------------------------------------------------------------------------
  // What a quorum rests on
  // ---------------------------------------------------------------------------

  /** Provider `i` speaks for its group: it is the first of the group with a usable answer. */
  ghost predicate SpeaksFirst<T, K>(providers: Providers, i: nat, query: Query<T>, cmp: Comparison<T, K>)
    requires i < |providers|
  {
    && Usable(providers[i], query, cmp)
    && forall j :: 0 <= j < i && providers[j].group == providers[i].group ==> !Usable(providers[j], query, cmp)
  }

  lemma {:induction false} SilentGroups<T, K>(
      providers: Providers, query: Query<T>, cmp: Comparison<T, K>, group: string)
    ensures Spoken(Voices(providers, query, cmp), group)
      <==> exists i :: 0 <= i < |providers| && providers[i].group == group && Usable(providers[i], query, cmp)
  {
    if providers != [] {
      var n := |providers| - 1;
      var rest, all := Voices(providers[..n], query, cmp), Voices(providers, query, cmp);
      SilentGroups(providers[..n], query, cmp, group);
      assert forall p :: 0 <= p < n ==> providers[..n][p] == providers[p];
      if Spoken(rest, group) {
        var i :| 0 <= i < |rest| && rest[i].group == group;
        assert all[i].group == group;
        var p :| 0 <= p < n && providers[..n][p].group == group && Usable(providers[..n][p], query, cmp);
        assert providers[p].group == group;
      } else if p :| 0 <= p < |providers| && providers[p].group == group && Usable(providers[p], query, cmp) {
        assert p == n && all[|rest|].group == group;
      }
    }
  }

  /** Provider `i` is the one that speaks as `v`. */
  ghost predicate SpeaksAs<T, K>(
      providers: Providers, i: nat, query: Query<T>, cmp: Comparison<T, K>, v: Voice<T>)
    requires i < |providers|
  {
    SpeaksFirst(providers, i, query, cmp)
      && providers[i].group == v.group && query(providers[i]).value == v.answer
  }

  lemma {:induction false} SpeakingDependsOnThePast<T, K>(
      providers: Providers, n: nat, i: nat, query: Query<T>, cmp: Comparison<T, K>, v: Voice<T>)
    requires i < n <= |providers|
    ensures SpeaksAs(providers[..n], i, query, cmp, v) <==> SpeaksAs(providers, i, query, cmp, v)
  {
    if SpeaksAs(providers[..n], i, query, cmp, v) {
      forall j | 0 <= j < i && providers[j].group == providers[i].group
        ensures !Usable(providers[j], query, cmp)
      {
        assert providers[..n][j] == providers[j];
      }
    }
  }

  lemma {:induction false} TheNewVoice<T, K>(
      providers: Providers, n: nat, query: Query<T>, cmp: Comparison<T, K>, v: Voice<T>)
    requires |providers| == n + 1
    ensures v in Voices(providers, query, cmp)
      <==> v in Voices(providers[..n], query, cmp) || SpeaksAs(providers, n, query, cmp, v)
  {
    SilentGroups(providers[..n], query, cmp, providers[n].group);
    if i :| 0 <= i < n && providers[i].group == providers[n].group && Usable(providers[i], query, cmp) {
      assert providers[..n][i] == providers[i];
    }
  }

  /** The voices of a quorum are exactly the first usable answers of their groups. */
  lemma {:induction false} VoicesAreFirstAnswers<T, K>(
      providers: Providers, query: Query<T>, cmp: Comparison<T, K>, v: Voice<T>)
    ensures v in Voices(providers, query, cmp)
      <==> exists i :: 0 <= i < |providers| && SpeaksAs(providers, i, query, cmp, v)
  {
    if providers != [] {
      var n := |providers| - 1;
      VoicesAreFirstAnswers(providers[..n], query, cmp, v);
      TheNewVoice(providers, n, query, cmp, v);
      forall i | 0 <= i < n
        ensures SpeaksAs(providers[..n], i, query, cmp, v) <==> SpeaksAs(providers, i, query, cmp, v)
      {
        SpeakingDependsOnThePast(providers, n, i, query, cmp, v);
      }
    }
  }

  /** A provider that fails to answer, or floods, loses its own vote and changes nothing else. */
  lemma {:induction false} UnusableProvidersDoNotMatter<T, K>(
      providers: Providers, query: Query<T>, cmp: Comparison<T, K>)
    ensures Voices(providers, query, cmp)
      == Voices(Filter(providers, p => Usable(p, query, cmp)), query, cmp)
  {
    if providers != [] {
      var n := |providers| - 1;
      UnusableProvidersDoNotMatter(providers[..n], query, cmp);
      var rest := Filter(providers[..n], p => Usable(p, query, cmp));
      if Usable(providers[n], query, cmp) {
        assert (rest + [providers[n]])[..|rest|] == rest;
      }
    }
  }

  /** Some provider of the group answered, and agrees with `v`. */
  ghost predicate BackedBy<T, K>(
      providers: Providers, query: Query<T>, cmp: Comparison<T, K>, group: string, v: T)
  {
    exists i :: 0 <= i < |providers| && providers[i].group == group && Usable(providers[i], query, cmp)
      && cmp.Agree(query(providers[i]).value, v)
  }

  /** Every quorum rests on as many distinct groups as the threshold asks for, each with a provider
      that answered the same. */
  lemma {:induction false} AQuorumIsIndependentGroups<T, K>(
      r: Result<T, SourceError>, providers: Providers, threshold: nat, query: Query<T>, cmp: Comparison<T, K>)
    returns (groups: set<string>)
    requires IsQuorum(r, Voices(providers, query, cmp), threshold, cmp) && r.Ok?
    ensures |groups| >= threshold
    ensures forall g :: g in groups ==>
      BackedBy(providers, query, cmp, g, r.value)
  {
    var voices := Voices(providers, query, cmp);
    groups := Backers(voices, r.value, cmp);
    forall g | g in groups
      ensures BackedBy(providers, query, cmp, g, r.value)
    {
      var k :| 0 <= k < |voices| && cmp.Agree(voices[k].answer, r.value) && voices[k].group == g;
      VoicesAreFirstAnswers(providers, query, cmp, voices[k]);
    }
  }

  /** Sources registered in one group, such as all those that can reach the coinset endpoint, are one
      voice: they never make a quorum by themselves. */
  lemma {:induction false} OneGroupIsOneVoice<T, K>(
      r: Result<T, SourceError>, providers: Providers, query: Query<T>, cmp: Comparison<T, K>, group: string)
    requires IsQuorum(r, Voices(providers, query, cmp), PUBLIC_QUORUM_THRESHOLD, cmp)
    requires forall i :: 0 <= i < |providers| ==> providers[i].group == group
    ensures r == Err(NoProvider)
  {
    if r.Ok? {
      var groups := AQuorumIsIndependentGroups(r, providers, PUBLIC_QUORUM_THRESHOLD, query, cmp);
      assert groups <= {group};
      SubsetIsNoLarger(groups, {group});
    }
  }

  lemma {:induction false} CoinsetAloneIsNoQuorum<T, K>(
      r: Result<T, SourceError>, providers: Providers, query: Query<T>, cmp: Comparison<T, K>,
      reachesCoinset: Registration -> bool)
    requires IsQuorum(r, Voices(providers, query, cmp), PUBLIC_QUORUM_THRESHOLD, cmp)
    requires forall i :: 0 <= i < |providers| ==>
      providers[i].group == IndependenceGroupFor(reachesCoinset(providers[i])) && reachesCoinset(providers[i])
    ensures r == Err(NoProvider)
  {
    OneGroupIsOneVoice(r, providers, query, cmp, COINSET_INDEPENDENCE_GROUP);
  }

  ghost predicate HonestOutside<T, K>(
      providers: Providers, query: Query<T>, cmp: Comparison<T, K>, liars: set<string>, truth: T)
  {
    forall i :: 0 <= i < |providers| && providers[i].group !in liars && Usable(providers[i], query, cmp) ==>
      cmp.Agree(query(providers[i]).value, truth)
  }

  /** With fewer dishonest groups than the threshold, whatever the quorum answers is true. */
  lemma {:induction false} QuorumAnswersAreTrue<T, K>(
      r: Result<T, SourceError>, providers: Providers, threshold: nat, query: Query<T>, cmp: Comparison<T, K>,
      liars: set<string>, truth: T)
    requires IsQuorum(r, Voices(providers, query, cmp), threshold, cmp)
    requires HonestOutside(providers, query, cmp, liars, truth) && |liars| < threshold
    ensures r.Ok? ==> cmp.Agree(r.value, truth)
  {
    if r.Ok? {
      var groups := AQuorumIsIndependentGroups(r, providers, threshold, query, cmp);
      if groups <= liars {
        SubsetIsNoLarger(groups, liars);
      }
      var g :| g in groups && g !in liars;
    }
  }

  /** With as many honest groups answering as the threshold, the quorum answers. */
  lemma {:induction false} HonestGroupsReachTheQuorum<T, K>(
      r: Result<T, SourceError>, providers: Providers, threshold: nat, query: Query<T>, cmp: Comparison<T, K>,
      liars: set<string>, truth: T, honest: set<string>)
    requires IsQuorum(r, Voices(providers, query, cmp), threshold, cmp)
    requires HonestOutside(providers, query, cmp, liars, truth)
    requires 0 < threshold <= |honest| && honest !! liars
    requires forall g :: g in honest ==> Spoken(Voices(providers, query, cmp), g)
    ensures r.Ok?
  {
    var voices := Voices(providers, query, cmp);
    var first :| first in honest;
    var k :| 0 <= k < |voices| && voices[k].group == first;
    HonestVoices(providers, query, cmp, liars, truth);
    var backers := Backers(voices, voices[k].answer, cmp);
    forall g | g in honest
      ensures g in backers
    {
      var j :| 0 <= j < |voices| && voices[j].group == g;
      assert cmp.Agree(voices[j].answer, voices[k].answer);
    }
    SubsetIsNoLarger(honest, backers);
  }

  /** A source that reaches coinset and one that cannot are two voices: if every source of each group that
      answers says the truth, and each group has one that does, there is a quorum. */
  lemma {:induction false} CoinsetAndPeersMakeAQuorum<T, K>(
      r: Result<T, SourceError>, providers: Providers, query: Query<T>, cmp: Comparison<T, K>,
      reachesCoinset: Registration -> bool, a: nat, b: nat, truth: T)
    requires IsQuorum(r, Voices(providers, query, cmp), PUBLIC_QUORUM_THRESHOLD, cmp)
    requires a < |providers| && b < |providers| && reachesCoinset(providers[a]) && !reachesCoinset(providers[b])
    requires forall i :: 0 <= i < |providers| ==>
      providers[i].group == IndependenceGroupFor(reachesCoinset(providers[i]))
    requires Usable(providers[a], query, cmp) && Usable(providers[b], query, cmp)
    requires HonestOutside(providers, query, cmp, {}, truth)
    ensures r.Ok?
  {
    var groups := {providers[a].group, providers[b].group};
    assert providers[a].group != providers[b].group;
    assert |groups| == 2;
    UsableGroupsSpeak(providers, a, query, cmp);
    UsableGroupsSpeak(providers, b, query, cmp);
    HonestGroupsReachTheQuorum(r, providers, PUBLIC_QUORUM_THRESHOLD, query, cmp, {}, truth, groups);
  }

  lemma {:induction false} UsableGroupsSpeak<T, K>(
      providers: Providers, i: nat, query: Query<T>, cmp: Comparison<T, K>)
    requires i < |providers| && Usable(providers[i], query, cmp)
    ensures Spoken(Voices(providers, query, cmp), providers[i].group)
  {
    var n := |providers| - 1;
    var rest, all := Voices(providers[..n], query, cmp), Voices(providers, query, cmp);
    if i < n {
      UsableGroupsSpeak(providers[..n], i, query, cmp);
      var j :| 0 <= j < |rest| && rest[j].group == providers[i].group;
      assert all[j].group == providers[i].group;
    } else if !Spoken(rest, providers[n].group) {
      assert all[|rest|].group == providers[n].group;
    }
  }

  lemma {:induction false} HonestVoices<T, K>(
      providers: Providers, query: Query<T>, cmp: Comparison<T, K>, liars: set<string>, truth: T)
    requires HonestOutside(providers, query, cmp, liars, truth)
    ensures forall v :: v in Voices(providers, query, cmp) && v.group !in liars ==> cmp.Agree(v.answer, truth)
  {
    forall v | v in Voices(providers, query, cmp) && v.group !in liars
      ensures cmp.Agree(v.answer, truth)
    {
      VoicesAreFirstAnswers(providers, query, cmp, v);
    }
  }

  // ---------------------------------------------------------------------------
  // The two views
  // ---------------------------------------------------------------------------

  function ByPriority(reg: Registration): Key { (reg.priority, 0) }

  predicate Answers<T>(reg: Registration, query: Query<T>) { reg.trust.Trusted? && query(reg).Ok? }

  /** The operator's sources, in the order they are tried. */
  function TrustedSources(providers: Providers): Providers
  {
    Filter(Sort(providers, ByPriority), (reg: Registration) => reg.trust.Trusted?)
  }

  /** The answer of the first source that has one, or the failure of the last. */
  function FirstAnswer<T>(sources: Providers, query: Query<T>): Result<T, SourceError>
  {
    if sources == [] then Err(NoProvider)
    else if FirstAnswer(sources[..|sources| - 1], query).Ok? then FirstAnswer(sources[..|sources| - 1], query)
    else query(sources[|sources| - 1])
  }

  class ProviderRegistry {
    var providers: Providers
    var allowPublicQuorumCustody: bool

    constructor ()
      ensures providers == [] && !allowPublicQuorumCustody
    {
      providers, allowPublicQuorumCustody := [], false;
    }

    method AllowPublicQuorumCustody(allow: bool)
      modifies this`allowPublicQuorumCustody
      ensures allowPublicQuorumCustody == allow
    {
      allowPublicQuorumCustody := allow;
    }

    method Register(handle: nat, kind: ProviderKind, priority: int, override: Option<TrustLevel>, group: string)
      modifies this`providers
      ensures providers == old(providers)
        + [Registration(
             handle,
             if override.Some? then override.value else if kind == LocalNode then Trusted else Untrusted,
             group, priority)]
    {
      var trust := if override.Some? then override.value else DefaultTrust(kind);
      providers := providers + [Registration(handle, trust, group, priority)];
    }

    /** `custody_read`. */
    method CustodyRead<T, K(==)>(query: Query<T>, cmp: Comparison<T, K>) returns (r: Result<T, SourceError>)
      ensures TrustedSources(providers) != [] ==> r == FirstAnswer(TrustedSources(providers), query)
      ensures TrustedSources(providers) == [] && !allowPublicQuorumCustody ==> r == Err(NoProvider)
      ensures TrustedSources(providers) == [] && allowPublicQuorumCustody ==>
        IsQuorum(r, Voices(providers, query, cmp), PUBLIC_QUORUM_THRESHOLD, cmp)
    {
      var trusted := TrustedSources(providers);
      if trusted != [] {
        var lastError := NoProvider;
        for i := 0 to |trusted|
          invariant FirstAnswer(trusted[..i], query) == Err(lastError)
        {
          assert trusted[..i + 1][..i] == trusted[..i];
          var answer := query(trusted[i]);
          if answer.Ok? {
            SettledByTheFirst(trusted, query, i + 1);
            return answer;
          }
          lastError := answer.error;
        }
        assert trusted[..|trusted|] == trusted;
        return Err(lastError);
      }
      if !allowPublicQuorumCustody {
        return Err(NoProvider);
      }
      r := QuorumRead(providers, PUBLIC_QUORUM_THRESHOLD, query, cmp);
    }

    /** `discovery_read`. */
    method DiscoveryRead<T, K(==)>(query: Query<T>, cmp: Comparison<T, K>) returns (r: Result<T, SourceError>)
      ensures r == FirstAnswer(Sort(providers, ByPriority), Bounded(query, cmp))
    {
      var sources := Sort(providers, ByPriority);
      var bounded := Bounded(query, cmp);
      var lastError := NoProvider;
      for i := 0 to |sources|
        invariant FirstAnswer(sources[..i], bounded) == Err(lastError)
      {
        assert sources[..i + 1][..i] == sources[..i];
        var answer := bounded(sources[i]);
        if answer.Ok? {
          SettledByTheFirst(sources, bounded, i + 1);
          return answer;
        }
        lastError := answer.error;
      }
      assert sources[..|sources|] == sources;
      return Err(lastError);
    }
  }

  /** The query with every oversized answer turned into its refusal. */
  function Bounded<T, K(==)>(query: Query<T>, cmp: Comparison<T, K>): Query<T>
  {
    (reg: Registration) =>
      if query(reg).Err? then query(reg)
      else
        match cmp.validate(query(reg).value)
        case Ok(_) => query(reg)
        case Err(e) => Err(e)
  }

  lemma {:induction false} SettledByTheFirst<T>(sources: Providers, query: Query<T>, i: nat)
    requires i <= |sources| && FirstAnswer(sources[..i], query).Ok?
    ensures FirstAnswer(sources, query) == FirstAnswer(sources[..i], query)
  {
    if i < |sources| {
      var n := |sources| - 1;
      assert sources[..n][..i] == sources[..i];
      SettledByTheFirst(sources[..n], query, i);
    } else {
      assert sources[..i] == sources;
    }
  }
}
