/** What the custody view promises: the operator's word comes first and is never replaced by a
    stranger's. */
module Custody {
  import opened Prelude
  import opened StableSort
  import opened Registry

  lemma {:induction false} TrustedSourcesMembers(providers: Providers, reg: Registration)
    ensures reg in TrustedSources(providers) <==> reg in providers && reg.trust.Trusted?
  {
    SortIsStable(providers, ByPriority);
    FilterMembers(Sort(providers, ByPriority), (r: Registration) => r.trust.Trusted?);
    assert reg in providers <==> reg in multiset(providers);
    assert reg in Sort(providers, ByPriority) <==> reg in multiset(Sort(providers, ByPriority));
  }

  lemma {:induction false} FirstAnswerIsTheFirst<T>(sources: Providers, query: Query<T>)
    ensures var answering := Filter(sources, (r: Registration) => query(r).Ok?);
      && (FirstAnswer(sources, query).Ok? <==> answering != [])
      && (answering != [] ==> FirstAnswer(sources, query) == query(answering[0]))
  {
    if sources != [] {
      var n := |sources| - 1;
      FirstAnswerIsTheFirst(sources[..n], query);
      FilterAppend(sources[..n], sources[n], (r: Registration) => query(r).Ok?);
      assert sources == sources[..n] + [sources[n]];
    }
  }

  /** With an operator-trusted source registered the custody view answers if and only if one of them
      does. */
  lemma {:induction false} TrustedAnswersIffOneDoes<T>(providers: Providers, query: Query<T>)
    ensures FirstAnswer(TrustedSources(providers), query).Ok?
      <==> exists reg :: reg in providers && Answers(reg, query)
  {
    var sources := TrustedSources(providers);
    var ok := (r: Registration) => query(r).Ok?;
    FirstAnswerIsTheFirst(sources, query);
    FilterMembers(sources, ok);
    if Filter(sources, ok) != [] {
      var reg := Filter(sources, ok)[0];
      assert reg in Filter(sources, ok);
      TrustedSourcesMembers(providers, reg);
    }
    if reg :| reg in providers && Answers(reg, query) {
      TrustedSourcesMembers(providers, reg);
      assert reg in Filter(sources, ok);
    }
  }

  lemma {:induction false} FirstAnswerReadsItsSources<T>(sources: Providers, query: Query<T>, other: Query<T>)
    requires forall reg :: reg in sources ==> query(reg) == other(reg)
    ensures FirstAnswer(sources, query) == FirstAnswer(sources, other)
  {
    if sources != [] {
      FirstAnswerReadsItsSources(sources[..|sources| - 1], query, other);
    }
  }

  /** What the untrusted sources say has no influence on an answer from the trusted ones. */
  lemma {:induction false} UntrustedSourcesHaveNoSay<T>(providers: Providers, query: Query<T>, other: Query<T>)
    requires forall reg :: reg in providers && reg.trust.Trusted? ==> query(reg) == other(reg)
    ensures FirstAnswer(TrustedSources(providers), query) == FirstAnswer(TrustedSources(providers), other)
  {
    forall reg | reg in TrustedSources(providers)
      ensures query(reg) == other(reg)
    {
      TrustedSourcesMembers(providers, reg);
    }
    FirstAnswerReadsItsSources(TrustedSources(providers), query, other);
  }

  lemma {:induction false} HeadOfASortedList(s: Providers, i: nat)
    requires Sorted(s, ByPriority) && i < |s|
    ensures s[0].priority <= s[i].priority
  {
    if i > 0 {
      assert !Less(ByPriority(s[i]), ByPriority(s[0]));
    }
  }

  lemma {:induction false} FilterKeepsSorted(s: Providers, keep: Registration -> bool)
    requires Sorted(s, ByPriority)
    ensures Sorted(Filter(s, keep), ByPriority)
  {
    if s != [] {
      var n := |s| - 1;
      FilterKeepsSorted(s[..n], keep);
      var rest := Filter(s[..n], keep);
      FilterMembers(s[..n], keep);
      forall i | 0 <= i < |rest|
        ensures !Less(ByPriority(s[n]), ByPriority(rest[i]))
      {
        assert rest[i] in rest;
        var j :| 0 <= j < n && s[..n][j] == rest[i];
        assert s[j] == rest[i];
      }
    }
  }

  /** The trusted sources that answer, in the order they are tried. */
  function Answering<T>(providers: Providers, query: Query<T>): Providers
  {
    Filter(TrustedSources(providers), (r: Registration) => query(r).Ok?)
  }

  lemma {:induction false} AnsweringMembers<T>(providers: Providers, query: Query<T>, reg: Registration)
    ensures reg in Answering(providers, query) <==> reg in providers && Answers(reg, query)
  {
    FilterMembers(TrustedSources(providers), (r: Registration) => query(r).Ok?);
    TrustedSourcesMembers(providers, reg);
  }

  lemma {:induction false} AnsweringIsSorted<T>(providers: Providers, query: Query<T>)
    ensures Sorted(Answering(providers, query), ByPriority)
  {
    SortIsStable(providers, ByPriority);
    FilterKeepsSorted(Sort(providers, ByPriority), (r: Registration) => r.trust.Trusted?);
    FilterKeepsSorted(TrustedSources(providers), (r: Registration) => query(r).Ok?);
  }

  /** No answering trusted source has a lower priority number than the one that is heard. */
  lemma {:induction false} TheHeardSourceComesFirst<T>(
      providers: Providers, query: Query<T>) returns (heard: Registration)
    requires exists reg :: reg in providers && Answers(reg, query)
    ensures Answering(providers, query) != [] && heard == Answering(providers, query)[0]
    ensures heard in providers && Answers(heard, query)
    ensures FirstAnswer(TrustedSources(providers), query) == query(heard)
    ensures forall reg :: reg in providers && Answers(reg, query) ==> heard.priority <= reg.priority
  {
    var answering := Answering(providers, query);
    var some :| some in providers && Answers(some, query);
    AnsweringMembers(providers, query, some);
    FirstAnswerIsTheFirst(TrustedSources(providers), query);
    AnsweringIsSorted(providers, query);
    heard := answering[0];
    AnsweringMembers(providers, query, heard);
    forall reg | reg in providers && Answers(reg, query)
      ensures heard.priority <= reg.priority
    {
      AnsweringMembers(providers, query, reg);
      var i :| 0 <= i < |answering| && answering[i] == reg;
      HeadOfASortedList(answering, i);
    }
  }

  lemma {:induction false} AnsweringWithPriority<T>(providers: Providers, query: Query<T>, k: Key)
    ensures WithKey(Answering(providers, query), ByPriority, k)
      == Filter(Filter(WithKey(providers, ByPriority, k), (r: Registration) => r.trust.Trusted?),
                (r: Registration) => query(r).Ok?)
  {
    SortIsStable(providers, ByPriority);
    WithKeyOfFilter(Sort(providers, ByPriority), (r: Registration) => r.trust.Trusted?, k);
    WithKeyOfFilter(TrustedSources(providers), (r: Registration) => query(r).Ok?, k);
  }

  lemma {:induction false} WithKeyOfFilter(s: Providers, keep: Registration -> bool, k: Key)
    ensures WithKey(Filter(s, keep), ByPriority, k) == Filter(WithKey(s, ByPriority, k), keep)
  {
    if s != [] {
      var n := |s| - 1;
      WithKeyOfFilter(s[..n], keep, k);
      WithKeyAppend(s[..n], s[n], ByPriority, k);
      WithKeyAppend(Filter(s[..n], keep), s[n], ByPriority, k);
      FilterAppend(WithKey(s[..n], ByPriority, k), s[n], keep);
      assert s == s[..n] + [s[n]];
    }
  }

  lemma {:induction false} FirstStaysFirst(s: Providers, k: Key)
    requires s != [] && ByPriority(s[0]) == k
    ensures WithKey(s, ByPriority, k) != [] && WithKey(s, ByPriority, k)[0] == s[0]
  {
    if |s| > 1 {
      FirstStaysFirst(s[..|s| - 1], k);
    } else {
      WithKeyAppend([], s[0], ByPriority, k);
      assert s == [] + [s[0]];
    }
  }

  /** Among the answering trusted sources of the heard one's priority, it was registered first. */
  lemma {:induction false} TiesGoToTheFirstRegistered<T>(providers: Providers, query: Query<T>)
    requires Answering(providers, query) != []
    ensures var heard := Answering(providers, query)[0];
      var equals := WithKey(providers, ByPriority, ByPriority(heard));
      var answering := Filter(Filter(equals, (r: Registration) => r.trust.Trusted?), (r: Registration) => query(r).Ok?);
      answering != [] && answering[0] == heard
  {
    var k := ByPriority(Answering(providers, query)[0]);
    AnsweringWithPriority(providers, query, k);
    FirstStaysFirst(Answering(providers, query), k);
  }

  // ---------------------------------------------------------------------------
  // Defaults
  // ---------------------------------------------------------------------------

  /** The providers as their kinds alone would register them. */
  predicate ByKind(providers: Providers, kinds: seq<ProviderKind>)
  {
    |providers| == |kinds| && forall i :: 0 <= i < |kinds| ==> providers[i].trust == DefaultTrust(kinds[i])
  }

  /** Without a word from the operator only the operator's own node is trusted: a registry of other kinds
      has no trusted source, and one with a local node tries it and nothing else. */
  lemma {:induction false} OnlyALocalNodeIsTrustedByDefault(providers: Providers, kinds: seq<ProviderKind>, i: nat)
    requires ByKind(providers, kinds) && i < |kinds|
    ensures providers[i] in TrustedSources(providers) <==> kinds[i] == LocalNode
    ensures TrustedSources(providers) == [] <==> forall j :: 0 <= j < |kinds| ==> kinds[j] != LocalNode
  {
    TrustedSourcesMembers(providers, providers[i]);
    if TrustedSources(providers) != [] {
      var reg := TrustedSources(providers)[0];
      TrustedSourcesMembers(providers, reg);
      var j :| 0 <= j < |providers| && providers[j] == reg;
      assert kinds[j] == LocalNode;
    }
    forall j | 0 <= j < |kinds| && kinds[j] == LocalNode
      ensures TrustedSources(providers) != []
    {
      TrustedSourcesMembers(providers, providers[j]);
    }
  }

  // ---------------------------------------------------------------------------
  // Discovery
  // ---------------------------------------------------------------------------

  lemma {:induction false} FirstAnswerFailsAsTheLast<T>(sources: Providers, query: Query<T>)
    requires FirstAnswer(sources, query).Err?
    ensures FirstAnswer(sources, query) == if sources == [] then Err(NoProvider) else query(sources[|sources| - 1])
  {
  }

  /** Discovery answers if and only if some provider's answer is small enough, with the answer of such a
      provider that no other precedes by priority. */
  lemma {:induction false} DiscoveryHearsTheFirstUsable<T, K>(
      providers: Providers, query: Query<T>, cmp: Comparison<T, K>)
    ensures var r := FirstAnswer(Sort(providers, ByPriority), Bounded(query, cmp));
      && (r.Ok? <==> exists reg :: reg in providers && Usable(reg, query, cmp))
      && (r.Ok? ==>
           exists reg :: reg in providers && Usable(reg, query, cmp) && r == query(reg)
             && forall other :: other in providers && Usable(other, query, cmp) ==> reg.priority <= other.priority)
  {
    var sources, bounded := Sort(providers, ByPriority), Bounded(query, cmp);
    var ok := (r: Registration) => bounded(r).Ok?;
    SortIsStable(providers, ByPriority);
    FirstAnswerIsTheFirst(sources, bounded);
    FilterMembers(sources, ok);
    FilterKeepsSorted(sources, ok);
    forall reg
      ensures reg in Filter(sources, ok) <==> reg in providers && Usable(reg, query, cmp)
    {
      assert reg in sources <==> reg in multiset(sources);
      assert reg in providers <==> reg in multiset(providers);
    }
    if Filter(sources, ok) != [] {
      var heard := Filter(sources, ok)[0];
      assert heard in Filter(sources, ok);
      forall other | other in providers && Usable(other, query, cmp)
        ensures heard.priority <= other.priority
      {
        assert other in Filter(sources, ok);
        var i :| 0 <= i < |Filter(sources, ok)| && Filter(sources, ok)[i] == other;
        HeadOfASortedList(Filter(sources, ok), i);
      }
    }
  }

  /** And when none is, it fails as the provider that is tried last: its own failure, or that its answer is
      too large. */
  lemma {:induction false} DiscoveryFailsAsTheLast<T, K>(
      providers: Providers, query: Query<T>, cmp: Comparison<T, K>)
    requires forall reg :: reg in providers ==> !Usable(reg, query, cmp)
    ensures var r := FirstAnswer(Sort(providers, ByPriority), Bounded(query, cmp));
      && r.Err?
      && (providers == [] ==> r.error == NoProvider)
      && (providers != [] ==>
           exists reg :: reg in providers
             && (query(reg) == Err(r.error) || (query(reg).Ok? && cmp.validate(query(reg).value) == Err(r.error)))
             && forall other :: other in providers ==> other.priority <= reg.priority)
  {
    var sources := Sort(providers, ByPriority);
    SortIsStable(providers, ByPriority);
    DiscoveryHearsTheFirstUsable(providers, query, cmp);
    FirstAnswerFailsAsTheLast(sources, Bounded(query, cmp));
    assert |multiset(sources)| == |multiset(providers)|;
    if providers != [] {
      var last := sources[|sources| - 1];
      assert last in multiset(sources);
      forall other | other in providers
        ensures other.priority <= last.priority
      {
        assert other in multiset(sources);
        var i :| 0 <= i < |sources| && sources[i] == other;
        assert i < |sources| - 1 ==> !Less(ByPriority(last), ByPriority(sources[i]));
      }
    }
  }
}
