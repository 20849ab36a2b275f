/** Agreement between lists of coin records (`canonical_order`, `quorum_eq` and `validate_bound` in
    src/provider_registry/registry.rs). A coin id is a number standing for the coin it commits to. */
module RecordLists {
  import opened Prelude
  import opened StableSort
  import opened Registry

  const MAX_QUORUM_RECORDS: nat := 100_000

  datatype Record = Record(
    coinId: nat, confirmedHeight: Option<nat>, spentHeight: Option<nat>, timestamp: Option<nat>, coinbase: bool)

  type Records = seq<Record>

  function ById(r: Record): Key { (r.coinId, 0) }

  /** `canonical_order`. */
  function CanonicalOrder(records: Records): Records { Sort(records, ById) }

  /** `validate_bound`. */
  function ValidateBound(records: Records): Result<(), SourceError>
  {
    if |records| > MAX_QUORUM_RECORDS then Err(TooManyRecords(|records|, MAX_QUORUM_RECORDS)) else Ok(())
  }

  const LISTS: Comparison<Records, Records> := Comparison(CanonicalOrder, ValidateBound)

  /** The records given for one coin, in order. */
  function For(records: Records, coinId: nat): Records { WithKey(records, ById, (coinId, 0)) }

  /** Two lists agree if and only if they give the same records, in the same order, for every coin. */
  lemma {:induction false} ListsAgreeIffEveryCoinDoes(a: Records, b: Records)
    ensures LISTS.Agree(a, b) <==> forall coinId :: For(a, coinId) == For(b, coinId)
  {
    SortsAgreeIffKeysDo(a, b, ById);
    if forall coinId :: For(a, coinId) == For(b, coinId) {
      forall k: Key
        ensures WithKey(a, ById, k) == WithKey(b, ById, k)
      {
        if k.1 == 0 && k.0 >= 0 {
          assert k == (k.0, 0);
          assert For(a, k.0) == For(b, k.0);
        } else {
          NoSuchKey(a, k);
          NoSuchKey(b, k);
        }
      }
    }
  }

  lemma {:induction false} NoSuchKey(s: Records, k: Key)
    requires k.1 != 0 || k.0 < 0
    ensures WithKey(s, ById, k) == []
  {
    if s != [] {
      var n := |s| - 1;
      NoSuchKey(s[..n], k);
      WithKeyAppend(s[..n], s[n], ById, k);
      assert s == s[..n] + [s[n]];
    }
  }

  /** Lists that agree hold the same records, each as often. */
  lemma {:induction false} AgreementIsAboutTheSameRecords(a: Records, b: Records)
    requires LISTS.Agree(a, b)
    ensures multiset(a) == multiset(b)
  {
    SortIsStable(a, ById);
    SortIsStable(b, ById);
  }

  /** No coin is described in two ways. */
  predicate SingleValued(records: Records)
  {
    forall i, j :: 0 <= i < |records| && 0 <= j < |records| && records[i].coinId == records[j].coinId ==>
      records[i] == records[j]
  }

  lemma {:induction false} ForCounts(s: Records, coinId: nat, r: Record)
    requires r.coinId == coinId
    ensures multiset(For(s, coinId))[r] == multiset(s)[r]
  {
    if s != [] {
      var n := |s| - 1;
      ForCounts(s[..n], coinId, r);
      WithKeyAppend(s[..n], s[n], ById, (coinId, 0));
      assert s == s[..n] + [s[n]];
    }
  }

  lemma {:induction false} ConstantLists(a: Records, b: Records, r: Record)
    requires forall x :: x in a ==> x == r
    requires forall x :: x in b ==> x == r
    requires multiset(a)[r] == multiset(b)[r]
    ensures a == b
  {
    assert forall i :: 0 <= i < |a| ==> a[i] in a;
    assert forall i :: 0 <= i < |b| ==> b[i] in b;
    AllEqual(a, r);
    AllEqual(b, r);
  }

  lemma {:induction false} AllEqual(s: Records, r: Record)
    requires forall i :: 0 <= i < |s| ==> s[i] == r
    ensures multiset(s)[r] == |s|
  {
    if s != [] {
      var n := |s| - 1;
      AllEqual(s[..n], r);
      assert s == s[..n] + [s[n]];
    }
  }

  /** A list that describes no coin in two ways agrees with every reordering of itself. */
  lemma {:induction false} ReorderingsAgree(a: Records, b: Records)
    requires SingleValued(a) && multiset(a) == multiset(b)
    ensures LISTS.Agree(a, b)
  {
    forall coinId
      ensures For(a, coinId) == For(b, coinId)
    {
      ReorderingsAgreeOn(a, b, coinId);
    }
    ListsAgreeIffEveryCoinDoes(a, b);
  }

  lemma {:induction false} ForMember(s: Records, coinId: nat, r: Record)
    ensures r in For(s, coinId) <==> r in multiset(s) && r.coinId == coinId
  {
    WithKeyMember(s, ById, (coinId, 0), r);
  }

  lemma {:induction false} ReorderingsAgreeOn(a: Records, b: Records, coinId: nat)
    requires SingleValued(a) && multiset(a) == multiset(b)
    ensures For(a, coinId) == For(b, coinId)
  {
    if For(a, coinId) != [] {
      var r := For(a, coinId)[0];
      OnlyOneDescription(a, b, coinId, r);
    } else if For(b, coinId) != [] {
      ForMember(b, coinId, For(b, coinId)[0]);
      ForMember(a, coinId, For(b, coinId)[0]);
    }
  }

  lemma {:induction false} OnlyOneDescription(a: Records, b: Records, coinId: nat, r: Record)
    requires SingleValued(a) && multiset(a) == multiset(b) && r in For(a, coinId)
    ensures For(a, coinId) == For(b, coinId)
  {
    ForMember(a, coinId, r);
    forall x | x in multiset(a) && x.coinId == coinId
      ensures x == r
    {
      assert x in a && r in a;
    }
    forall x
      ensures x in For(a, coinId) ==> x == r
      ensures x in For(b, coinId) ==> x == r
    {
      ForMember(a, coinId, x);
      ForMember(b, coinId, x);
    }
    ForCounts(a, coinId, r);
    ForCounts(b, coinId, r);
    ConstantLists(For(a, coinId), For(b, coinId), r);
  }

  // ---------------------------------------------------------------------------
  // When the order does matter
  // ---------------------------------------------------------------------------

  /** The records for every other coin. */
  function Others(s: Records, coinId: nat): Records
  {
    Filter(s, (r: Record) => r.coinId != coinId)
  }

  lemma {:induction false} SplitByCoin(s: Records, coinId: nat)
    ensures multiset(For(s, coinId)) + multiset(Others(s, coinId)) == multiset(s)
  {
    if s != [] {
      var n := |s| - 1;
      SplitByCoin(s[..n], coinId);
      WithKeyAppend(s[..n], s[n], ById, (coinId, 0));
      assert s == s[..n] + [s[n]];
    }
  }

  lemma {:induction false} OthersAreOthers(s: Records, coinId: nat)
    ensures For(Others(s, coinId), coinId) == []
  {
    if s != [] {
      var n := |s| - 1;
      OthersAreOthers(s[..n], coinId);
      WithKeyAppend(Others(s[..n], coinId), s[n], ById, (coinId, 0));
    }
  }

  lemma {:induction false} ForIsIdempotent(s: Records, coinId: nat)
    requires forall r :: r in s ==> r.coinId == coinId
    ensures For(s, coinId) == s
  {
    if s != [] {
      var n := |s| - 1;
      assert s[n] in s;
      ForIsIdempotent(s[..n], coinId);
      WithKeyAppend(s[..n], s[n], ById, (coinId, 0));
      assert s == s[..n] + [s[n]];
    }
  }

  lemma {:induction false} Swapped(w: Records, i: nat, j: nat) returns (v: Records)
    requires i < j < |w| && w[i] != w[j]
    ensures multiset(v) == multiset(w) && v != w
  {
    v := w[i := w[j]][j := w[i]];
    assert v[i] == w[j];
  }

  lemma {:induction false} Regrouped(a: Records, coinId: nat, w: Records)
    requires multiset(w) == multiset(For(a, coinId))
    ensures var b := Others(a, coinId) + w;
      multiset(b) == multiset(a) && For(b, coinId) == w
  {
    SplitByCoin(a, coinId);
    OthersAreOthers(a, coinId);
    forall r | r in w
      ensures r.coinId == coinId
    {
      assert r in multiset(w);
      ForMember(a, coinId, r);
    }
    ForIsIdempotent(w, coinId);
    WithKeyConcat(Others(a, coinId), w, ById, (coinId, 0));
  }

  lemma {:induction false} TwoDescriptions(a: Records, i: nat, j: nat) returns (x: nat, y: nat)
    requires i < |a| && j < |a| && a[i].coinId == a[j].coinId && a[i] != a[j]
    ensures var w := For(a, a[i].coinId); x < y < |w| && w[x] != w[y]
  {
    var w := For(a, a[i].coinId);
    ForMember(a, a[i].coinId, a[i]);
    ForMember(a, a[i].coinId, a[j]);
    assert a[i] in multiset(a) && a[j] in multiset(a);
    var p, q :| 0 <= p < |w| && 0 <= q < |w| && w[p] == a[i] && w[q] == a[j];
    x, y := if p < q then p else q, if p < q then q else p;
  }

  /** Some reordering of a list that describes a coin in two ways disagrees with it. */
  lemma {:induction false} SomeReorderingDisagrees(a: Records) returns (b: Records)
    requires !SingleValued(a)
    ensures multiset(b) == multiset(a) && !LISTS.Agree(a, b)
  {
    var i: nat, j: nat :| i < |a| && j < |a| && a[i].coinId == a[j].coinId && a[i] != a[j];
    var coinId := a[i].coinId;
    var x, y := TwoDescriptions(a, i, j);
    var w := Swapped(For(a, coinId), x, y);
    Regrouped(a, coinId, w);
    b := Others(a, coinId) + w;
    ListsAgreeIffEveryCoinDoes(a, b);
  }

  /** Agreement ignores the order of a list if and only if the list describes no coin in two ways. */
  lemma {:induction false} OrderIsIgnoredIffSingleValued(a: Records)
    ensures (forall b: Records :: multiset(b) == multiset(a) ==> LISTS.Agree(a, b)) <==> SingleValued(a)
  {
    if SingleValued(a) {
      forall b: Records | multiset(b) == multiset(a)
        ensures LISTS.Agree(a, b)
      {
        ReorderingsAgree(a, b);
      }
    } else {
      var b := SomeReorderingDisagrees(a);
    }
  }

  const SPENT_EARLY := Record(1, Some(3), Some(5), None, false)
  const SPENT_LATE := Record(1, Some(3), Some(8), None, false)

  /** One coin with two spent heights: the list and its reversal disagree. */
  lemma {:induction false} AReversalCanDisagree()
    ensures !LISTS.Agree([SPENT_EARLY, SPENT_LATE], [SPENT_LATE, SPENT_EARLY])
  {
    ForIsIdempotent([SPENT_EARLY, SPENT_LATE], 1);
    ForIsIdempotent([SPENT_LATE, SPENT_EARLY], 1);
    assert [SPENT_EARLY, SPENT_LATE][0] != [SPENT_LATE, SPENT_EARLY][0];
    ListsAgreeIffEveryCoinDoes([SPENT_EARLY, SPENT_LATE], [SPENT_LATE, SPENT_EARLY]);
  }

  // ---------------------------------------------------------------------------
  // Quorums over lists
  // ---------------------------------------------------------------------------

  /** With fewer dishonest groups than the threshold, a quorum over lists answers the true records,
      each as often, in whatever order the honest sources list them. */
  lemma {:induction false} ListQuorumsAnswerTheTrueRecords(
      r: Result<Records, SourceError>, providers: Providers, threshold: nat, query: Query<Records>,
      liars: set<string>, truth: Records)
    requires IsQuorum(r, Voices(providers, query, LISTS), threshold, LISTS)
    requires SingleValued(truth) && |liars| < threshold
    requires forall i :: 0 <= i < |providers| && providers[i].group !in liars && query(providers[i]).Ok? ==>
      multiset(query(providers[i]).value) == multiset(truth)
    ensures r.Ok? ==> multiset(r.value) == multiset(truth)
  {
    forall i | 0 <= i < |providers| && providers[i].group !in liars && Usable(providers[i], query, LISTS)
      ensures LISTS.Agree(query(providers[i]).value, truth)
    {
      ReorderingsAgree(truth, query(providers[i]).value);
    }
    QuorumAnswersAreTrue(r, providers, threshold, query, LISTS, liars, truth);
    if r.Ok? {
      AgreementIsAboutTheSameRecords(r.value, truth);
    }
  }

  /** A list has a voice if and only if it holds no more than a hundred thousand records, so no quorum ever
      answers a longer one. */
  lemma {:induction false} QuorumListsAreBounded(
      r: Result<Records, SourceError>, providers: Providers, threshold: nat, query: Query<Records>)
    requires IsQuorum(r, Voices(providers, query, LISTS), threshold, LISTS)
    ensures forall reg :: Usable(reg, query, LISTS) <==> query(reg).Ok? && |query(reg).value| <= 100_000
    ensures r.Ok? ==> |r.value| <= 100_000
  {
    if r.Ok? {
      var v :| v in Voices(providers, query, LISTS) && v.answer == r.value;
      VoicesAreFirstAnswers(providers, query, LISTS, v);
    }
  }
}
