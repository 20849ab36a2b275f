/** What it means for two population answers to agree (src/peer/set_agreement.rs): both are held to a
    common height and compared as maps from a coin's identity to its chain claim. */
module SetAgreement {
  import opened Prelude
  import opened Net
  import opened ChainClaims

  datatype HeightedSet = HeightedSet(items: seq<CoinRecord>, asOfHeight: nat)

  datatype SetProjection = SetProjection(
    startHeight: Option<nat>, endHeight: Option<nat>, includeSpent: bool)

  // ---------------------------------------------------------------------------
  // The rule
  // ---------------------------------------------------------------------------

  function Lowest(heights: seq<nat>): (low: nat)
    requires heights != []
    ensures low in heights && forall h :: h in heights ==> low <= h
  {
    if |heights| == 1 then heights[0]
    else
      var rest := Lowest(heights[1..]);
      assert heights == [heights[0]] + heights[1..];
      if heights[0] <= rest then heights[0] else rest
  }

  function CommonHeight(asOf: seq<nat>, endHeight: Option<nat>): Option<nat>
  {
    if asOf == [] || Lowest(asOf) < SETTLED_LAG then None
    else
      var settled := Lowest(asOf) - SETTLED_LAG;
      Some(if endHeight.Some? then Min(settled, endHeight.value) else settled)
  }

  predicate AsOfIsSupported(announced: Option<nat>, asOf: nat)
  {
    announced.Some? && SaturatingSub(announced.value, asOf) <= PEAK_LAG_EVICTION
  }

  /** An as-of height is supported by a peak, once one is announced, from six blocks below it on. */
  lemma {:induction false} SupportIsSixBlocks(announced: Option<nat>, asOf: nat)
    ensures AsOfIsSupported(announced, asOf) <==> announced.Some? && asOf + 6 >= announced.value
  {
  }

  function WithSpendDropped(r: CoinRecord): CoinRecord { r.(spent := false, spentBlockIndex := 0) }

  function HeldTo(r: CoinRecord, h: nat): CoinRecord
  {
    if r.spent && r.spentBlockIndex > h then WithSpendDropped(r) else r
  }

  function NormaliseAt(items: seq<CoinRecord>, h: nat): seq<CoinRecord>
  {
    if items == [] then []
    else
      var rest := NormaliseAt(items[..|items| - 1], h);
      var r := items[|items| - 1];
      if r.confirmedBlockIndex <= h then rest + [HeldTo(r, h)] else rest
  }

  /** Identity to claim; a repeated identity keeps its last claim. */
  function Fingerprint(items: seq<CoinRecord>): map<string, string>
  {
    if items == [] then map[]
    else
      var r := items[|items| - 1];
      Fingerprint(items[..|items| - 1])[Identity(r.coin) := RecordClaim(r)]
  }

  predicate Wanted(r: CoinRecord, p: SetProjection)
  {
    && (p.startHeight.Some? ==> r.confirmedBlockIndex >= p.startHeight.value)
    && (p.includeSpent || !r.spent)
  }

  function Project(items: seq<CoinRecord>, p: SetProjection): seq<CoinRecord>
  {
    Filter(items, r => Wanted(r, p))
  }

  datatype Difference =
    | Claims(identity: string, asked: string, other: string)
    | OtherOmits(identity: string, claim: string)
    | AskedOmits(identity: string, claim: string)

  predicate IsDifference(d: Difference, asked: map<string, string>, other: map<string, string>)
  {
    match d
    case Claims(id, a, o) => id in asked && id in other && asked[id] == a && other[id] == o && a != o
    case OtherOmits(id, claim) => id in asked && asked[id] == claim && id !in other
    case AskedOmits(id, claim) => id in other && other[id] == claim && id !in asked
  }

  /** `contradiction`: two scans, one each way. Nothing is reported exactly when the maps are equal,
      and what is reported is a real difference. Which one comes first depends on the key order,
      which is left open here. */
  method Contradiction(asked: map<string, string>, other: map<string, string>)
    returns (found: Option<Difference>)
    ensures found.None? <==> asked == other
    ensures found.Some? ==> IsDifference(found.value, asked, other)
  {
    var pending := asked.Keys;
    while pending != {}
      invariant pending <= asked.Keys
      invariant forall id :: id in asked && id !in pending ==> id in other && other[id] == asked[id]
      decreases pending
    {
      var id :| id in pending;
      pending := pending - {id};
      if id in other {
        if other[id] != asked[id] {
          return Some(Claims(id, asked[id], other[id]));
        }
      } else {
        return Some(OtherOmits(id, asked[id]));
      }
    }
    pending := other.Keys;
    while pending != {}
      invariant pending <= other.Keys
      invariant forall id :: id in other && id !in pending ==> id in asked
      decreases pending
    {
      var id :| id in pending;
      pending := pending - {id};
      if id !in asked {
        return Some(AskedOmits(id, other[id]));
      }
    }
    assert asked == other;
    return None;
  }

  // ---------------------------------------------------------------------------
  // Ground truth
  // ---------------------------------------------------------------------------

  /** Where one coin sits on the chain. */
  datatype Fact = Fact(created: nat, spent: Option<nat>)

  type Facts = map<Coin, Fact>

  function FactOf(r: CoinRecord): Fact { Fact(r.confirmedBlockIndex, SpentHeight(r)) }

  /** What a list says about the chain, a later record of a coin overriding an earlier one. */
  function FactsOf(items: seq<CoinRecord>): Facts
  {
    if items == [] then map[]
    else
      var r := items[|items| - 1];
      FactsOf(items[..|items| - 1])[r.coin := FactOf(r)]
  }

  /** The chain as it stood at height `h`. */
  function AtHeight(truth: Facts, h: nat): Facts
  {
    map c | c in truth && truth[c].created <= h ::
      if truth[c].spent.Some? && truth[c].spent.value > h then Fact(truth[c].created, None) else truth[c]
  }

  function ProjectFacts(facts: Facts, p: SetProjection): Facts
  {
    map c | c in facts
      && (p.startHeight.Some? ==> facts[c].created >= p.startHeight.value)
      && (p.includeSpent || facts[c].spent.None?) :: facts[c]
  }

  predicate Distinct(items: seq<CoinRecord>)
  {
    forall i, j :: 0 <= i < j < |items| ==> items[i].coin != items[j].coin
  }

  /** No hash text holds the colon that separates the parts of an identity. */
  predicate PlainRecords(items: seq<CoinRecord>)
  {
    forall r :: r in items ==> PlainCoin(r.coin, ':')
  }

  /** An honest source at peak `s.asOfHeight`: it reports the chain as of that height, each coin once,
      in any order and with any local colour. */
  predicate Honest(s: HeightedSet, truth: Facts)
  {
    Distinct(s.items) && PlainRecords(s.items) && FactsOf(s.items) == AtHeight(truth, s.asOfHeight)
  }

  // ---------------------------------------------------------------------------
  // Normalisation composes
  // ---------------------------------------------------------------------------

  lemma {:induction false} NormalisationComposes(items: seq<CoinRecord>, p: nat, h: nat)
    requires h <= p
    ensures NormaliseAt(NormaliseAt(items, p), h) == NormaliseAt(items, h)
  {
    if items != [] {
      var n := |items| - 1;
      NormalisationComposes(items[..n], p, h);
      var once := NormaliseAt(items, p);
      if items[n].confirmedBlockIndex <= p {
        assert once[..|once| - 1] == NormaliseAt(items[..n], p);
      }
    }
  }

  /** `r` is `q` as it stood at the height: created by then, and with no spend above it. */
  predicate IsHeld(q: CoinRecord, r: CoinRecord, h: nat)
  {
    && q.confirmedBlockIndex <= h
    && r == if q.spent && q.spentBlockIndex > h then q.(spent := false, spentBlockIndex := 0) else q
  }

  /** A normalised answer holds exactly the records of the answer as they stood at the height. */
  lemma {:induction false} NormalisedRecords(items: seq<CoinRecord>, h: nat, r: CoinRecord)
    ensures r in NormaliseAt(items, h) <==> exists q :: q in items && IsHeld(q, r, h)
  {
    if items != [] {
      var n := |items| - 1;
      NormalisedRecords(items[..n], h, r);
      assert items == items[..n] + [items[n]];
      if q :| q in items && IsHeld(q, r, h) {
        assert q in items[..n] || q == items[n];
      }
      assert items[n] in items;
    }
  }

  /** And they keep their order. */
  lemma {:induction false} NormalisationKeepsOrder(a: seq<CoinRecord>, b: seq<CoinRecord>, h: nat)
    ensures NormaliseAt(a + b, h) == NormaliseAt(a, h) + NormaliseAt(b, h)
  {
    if b == [] {
      assert a + b == a;
    } else {
      var n := |b| - 1;
      assert (a + b)[..|a| + n] == a + b[..n];
      NormalisationKeepsOrder(a, b[..n], h);
    }
  }

  lemma {:induction false} AsOfComposes(truth: Facts, p: nat, h: nat)
    requires h <= p
    ensures AtHeight(AtHeight(truth, p), h) == AtHeight(truth, h)
  {
  }

  lemma {:induction false} FactsCover(items: seq<CoinRecord>)
    ensures forall r :: r in items ==> r.coin in FactsOf(items)
    ensures forall c :: c in FactsOf(items) ==>
      exists r :: r in items && r.coin == c && FactOf(r) == FactsOf(items)[c]
    ensures Distinct(items) ==> forall r :: r in items ==> FactsOf(items)[r.coin] == FactOf(r)
  {
    if items != [] {
      var n := |items| - 1;
      FactsCover(items[..n]);
      assert items == items[..n] + [items[n]];
      if Distinct(items) {
        TheLastIsAnother(items);
      }
      forall c | c in FactsOf(items)
        ensures exists r :: r in items && r.coin == c && FactOf(r) == FactsOf(items)[c]
      {
        var r := SomeRecordStates(items, c);
      }
    }
  }

  lemma {:induction false} SomeRecordStates(items: seq<CoinRecord>, c: Coin) returns (r: CoinRecord)
    requires c in FactsOf(items)
    ensures r in items && r.coin == c && FactOf(r) == FactsOf(items)[c]
  {
    var n := |items| - 1;
    if c == items[n].coin {
      r := items[n];
    } else {
      r := SomeRecordStates(items[..n], c);
    }
  }

  lemma {:induction false} TheLastIsAnother(items: seq<CoinRecord>)
    requires items != [] && Distinct(items)
    ensures forall r :: r in items[..|items| - 1] ==> r.coin != items[|items| - 1].coin
  {
    forall r | r in items[..|items| - 1]
      ensures r.coin != items[|items| - 1].coin
    {
      var i :| 0 <= i < |items| - 1 && items[i] == r;
    }
  }

  lemma {:induction false} DistinctPrefix(items: seq<CoinRecord>, n: nat)
    requires n <= |items| && Distinct(items)
    ensures Distinct(items[..n])
  {
  }

  lemma {:induction false} LastIsNew(items: seq<CoinRecord>)
    requires items != [] && Distinct(items)
    ensures var n := |items| - 1;
      items[n].coin !in FactsOf(items[..n]) && Distinct(items[..n])
  {
    var n := |items| - 1;
    FactsCover(items[..n]);
    TheLastIsAnother(items);
  }

  lemma {:induction false} AtHeightOfOneMore(facts: Facts, c: Coin, f: Fact, h: nat)
    requires c !in facts
    ensures AtHeight(facts[c := f], h)
      == if f.created > h then AtHeight(facts, h)
         else AtHeight(facts, h)[c := if f.spent.Some? && f.spent.value > h then Fact(f.created, None) else f]
  {
  }

  lemma {:induction false} FactsAppend(items: seq<CoinRecord>, r: CoinRecord)
    ensures FactsOf(items + [r]) == FactsOf(items)[r.coin := FactOf(r)]
  {
    assert (items + [r])[..|items|] == items;
  }

  /** Over an answer without repeated coins, normalising the records is normalising the facts. */
  lemma {:induction false} NormalisedFacts(items: seq<CoinRecord>, h: nat)
    requires Distinct(items)
    ensures FactsOf(NormaliseAt(items, h)) == AtHeight(FactsOf(items), h)
  {
    if items != [] {
      var n := |items| - 1;
      LastIsNew(items);
      NormalisedFacts(items[..n], h);
      var r := items[n];
      AtHeightOfOneMore(FactsOf(items[..n]), r.coin, FactOf(r), h);
      FactsAppend(NormaliseAt(items[..n], h), HeldTo(r, h));
    }
  }

  lemma {:induction false} NormalisedMembers(items: seq<CoinRecord>, h: nat)
    ensures |NormaliseAt(items, h)| <= |items|
    ensures forall r :: r in NormaliseAt(items, h) ==>
      exists q :: q in items && q.confirmedBlockIndex <= h && r == HeldTo(q, h)
    ensures Distinct(items) ==> Distinct(NormaliseAt(items, h))
  {
    if items != [] {
      var n := |items| - 1;
      NormalisedMembers(items[..n], h);
      assert items == items[..n] + [items[n]];
      var rest, done := NormaliseAt(items[..n], h), NormaliseAt(items, h);
      forall r | r in done
        ensures exists q :: q in items && q.confirmedBlockIndex <= h && r == HeldTo(q, h)
      {
        if r in rest {
          var q :| q in items[..n] && q.confirmedBlockIndex <= h && r == HeldTo(q, h);
          assert q in items;
        } else {
          assert items[n] in items;
        }
      }
      if Distinct(items) {
        DistinctPrefix(items, n);
        forall i | 0 <= i < |rest|
          ensures rest[i].coin != items[n].coin
        {
          assert rest[i] in rest;
          var q :| q in items[..n] && q.confirmedBlockIndex <= h && rest[i] == HeldTo(q, h);
          var j :| 0 <= j < n && items[j] == q;
        }
      }
    }
  }

  lemma {:induction false} NormalisedStayPlain(items: seq<CoinRecord>, h: nat)
    requires PlainRecords(items)
    ensures PlainRecords(NormaliseAt(items, h))
  {
    NormalisedMembers(items, h);
  }

  // ---------------------------------------------------------------------------
  // Fingerprints are facts
  // ---------------------------------------------------------------------------

  function FactClaim(c: Coin, f: Fact): string { CoinRecordClaim(c, f.created, f.spent) }

  predicate RendersCoin(prints: map<string, string>, facts: Facts, c: Coin)
    requires c in facts
  {
    PlainCoin(c, ':') && Identity(c) in prints && prints[Identity(c)] == FactClaim(c, facts[c])
  }

  ghost predicate RendersNothingElse(prints: map<string, string>, facts: Facts)
  {
    forall id :: id in prints ==> exists c :: c in facts && Identity(c) == id
  }

  /** The map from identities to claims renders the map from coins to facts. */
  ghost predicate Renders(prints: map<string, string>, facts: Facts)
  {
    (forall c :: c in facts ==> RendersCoin(prints, facts, c)) && RendersNothingElse(prints, facts)
  }

  lemma {:induction false} RenderOneMoreCoin(
      prints: map<string, string>, facts: Facts, c: Coin, f: Fact, id: string, claim: string, d: Coin)
    requires PlainCoin(c, ':') && id == Identity(c) && claim == FactClaim(c, f)
    requires d in facts[c := f] && (d in facts ==> RendersCoin(prints, facts, d))
    ensures RendersCoin(prints[id := claim], facts[c := f], d)
  {
    if d != c && Identity(d) == id {
      IdentityIsInjective(c, d);
    }
  }

  lemma {:induction false} RenderOneMore(
      prints: map<string, string>, facts: Facts, c: Coin, f: Fact, identity: string, claim: string)
    requires Renders(prints, facts) && PlainCoin(c, ':') && identity == Identity(c) && claim == FactClaim(c, f)
    ensures Renders(prints[identity := claim], facts[c := f])
  {
    var ps, fs := prints[identity := claim], facts[c := f];
    forall d | d in fs
      ensures RendersCoin(ps, fs, d)
    {
      RenderOneMoreCoin(prints, facts, c, f, identity, claim, d);
    }
    forall id | id in ps
      ensures exists d :: d in fs && Identity(d) == id
    {
      if id == identity {
        assert c in fs;
      } else {
        var d :| d in facts && Identity(d) == id;
        assert d in fs;
      }
    }
  }

  lemma {:induction false} FingerprintIsFacts(items: seq<CoinRecord>)
    requires PlainRecords(items)
    ensures Renders(Fingerprint(items), FactsOf(items))
  {
    if items != [] {
      var n := |items| - 1;
      FingerprintIsFacts(items[..n]);
      assert items[n] in items;
      var r := items[n];
      RenderOneMore(Fingerprint(items[..n]), FactsOf(items[..n]), r.coin, FactOf(r), Identity(r.coin), RecordClaim(r));
    }
  }

  lemma {:induction false} FingerprintCarriesFacts(a: seq<CoinRecord>, b: seq<CoinRecord>, c: Coin)
    requires PlainRecords(a) && PlainRecords(b)
    requires Fingerprint(a) == Fingerprint(b)
    requires c in FactsOf(a)
    ensures c in FactsOf(b) && FactsOf(b)[c] == FactsOf(a)[c]
  {
    FingerprintIsFacts(a);
    FingerprintIsFacts(b);
    assert RendersCoin(Fingerprint(a), FactsOf(a), c);
    var d :| d in FactsOf(b) && Identity(d) == Identity(c);
    assert RendersCoin(Fingerprint(b), FactsOf(b), d);
    IdentityIsInjective(c, d);
    var fa, fb := FactsOf(a)[c], FactsOf(b)[c];
    RecordClaimsAgreeIff(c, fa.created, fa.spent, c, fb.created, fb.spent);
  }

  lemma {:induction false} FactsCarryFingerprint(a: seq<CoinRecord>, b: seq<CoinRecord>, id: string)
    requires PlainRecords(a) && PlainRecords(b)
    requires FactsOf(a) == FactsOf(b)
    requires id in Fingerprint(a)
    ensures id in Fingerprint(b) && Fingerprint(b)[id] == Fingerprint(a)[id]
  {
    FingerprintIsFacts(a);
    FingerprintIsFacts(b);
    var c :| c in FactsOf(a) && Identity(c) == id;
    assert RendersCoin(Fingerprint(a), FactsOf(a), c) && RendersCoin(Fingerprint(b), FactsOf(b), c);
  }

  lemma {:induction false} FingerprintMembers(items: seq<CoinRecord>)
    ensures forall r :: r in items ==> Identity(r.coin) in Fingerprint(items)
    ensures forall id :: id in Fingerprint(items) ==> exists r :: r in items && Identity(r.coin) == id
  {
    if items != [] {
      var n := |items| - 1;
      FingerprintMembers(items[..n]);
      assert items == items[..n] + [items[n]];
      forall id | id in Fingerprint(items)
        ensures exists r :: r in items && Identity(r.coin) == id
      {
        if id == Identity(items[n].coin) {
          assert items[n] in items;
        } else {
          var r :| r in items[..n] && Identity(r.coin) == id;
          assert r in items;
        }
      }
    }
  }

  /** No text in another answer can imitate the coins of a plain one: whatever agrees with a plain
      answer is plain. */
  lemma {:induction false} AgreementWithPlainIsPlain(a: seq<CoinRecord>, b: seq<CoinRecord>)
    requires PlainRecords(a)
    requires Fingerprint(a) == Fingerprint(b) || FactsOf(a) == FactsOf(b)
    ensures PlainRecords(b)
  {
    forall r | r in b
      ensures PlainCoin(r.coin, ':')
    {
      if Fingerprint(a) == Fingerprint(b) {
        FingerprintMembers(a);
        FingerprintMembers(b);
        var q :| q in a && Identity(q.coin) == Identity(r.coin);
        IdentityIsInjective(q.coin, r.coin);
      } else {
        FactsCover(a);
        FactsCover(b);
        assert r.coin in FactsOf(a);
      }
    }
  }

  /** Equal fingerprints are equal facts about the chain, and conversely; only one of the two answers
      need be plain. */
  lemma {:induction false} FingerprintsAgreeIffFactsDo(a: seq<CoinRecord>, b: seq<CoinRecord>)
    requires PlainRecords(a)
    ensures Fingerprint(a) == Fingerprint(b) <==> FactsOf(a) == FactsOf(b)
  {
    if Fingerprint(a) == Fingerprint(b) || FactsOf(a) == FactsOf(b) {
      AgreementWithPlainIsPlain(a, b);
    }
    if Fingerprint(a) == Fingerprint(b) {
      forall c
        ensures c in FactsOf(a) ==> c in FactsOf(b) && FactsOf(b)[c] == FactsOf(a)[c]
        ensures c in FactsOf(b) ==> c in FactsOf(a)
      {
        if c in FactsOf(a) { FingerprintCarriesFacts(a, b, c); }
        if c in FactsOf(b) { FingerprintCarriesFacts(b, a, c); }
      }
    }
    if FactsOf(a) == FactsOf(b) {
      forall id
        ensures id in Fingerprint(a) ==> id in Fingerprint(b) && Fingerprint(b)[id] == Fingerprint(a)[id]
        ensures id in Fingerprint(b) ==> id in Fingerprint(a)
      {
        if id in Fingerprint(a) { FactsCarryFingerprint(a, b, id); }
        if id in Fingerprint(b) { FactsCarryFingerprint(b, a, id); }
      }
    }
  }

  /** An honest answer held to any height it has reached is the chain at that height. */
  lemma {:induction false} HonestAnswerAtHeight(s: HeightedSet, truth: Facts, h: nat)
    requires Honest(s, truth)
    requires h <= s.asOfHeight
    ensures FactsOf(NormaliseAt(s.items, h)) == AtHeight(truth, h)
    ensures PlainRecords(NormaliseAt(s.items, h)) && Distinct(NormaliseAt(s.items, h))
  {
    NormalisedFacts(s.items, h);
    AsOfComposes(truth, s.asOfHeight, h);
    NormalisedStayPlain(s.items, h);
    NormalisedMembers(s.items, h);
  }

  // ---------------------------------------------------------------------------
  // Projection
  // ---------------------------------------------------------------------------

  lemma {:induction false} ProjectionStaysDistinct(items: seq<CoinRecord>, p: SetProjection)
    requires Distinct(items)
    ensures Distinct(Project(items, p))
  {
    if items != [] {
      var n := |items| - 1;
      DistinctPrefix(items, n);
      ProjectionStaysDistinct(items[..n], p);
      FilterMembers(items[..n], q => Wanted(q, p));
      var rest := Project(items[..n], p);
      forall i | 0 <= i < |rest|
        ensures rest[i].coin != items[n].coin
      {
        assert rest[i] in items[..n];
        var j :| 0 <= j < n && items[j] == rest[i];
      }
    }
  }

  lemma {:induction false} ProjectedFacts(items: seq<CoinRecord>, p: SetProjection)
    requires Distinct(items)
    ensures FactsOf(Project(items, p)) == ProjectFacts(FactsOf(items), p)
  {
    if items != [] {
      var n := |items| - 1;
      LastIsNew(items);
      ProjectedFacts(items[..n], p);
      var rest, r := Project(items[..n], p), items[n];
      assert Filter(items[..n], q => Wanted(q, p)) == rest;
      if Wanted(r, p) {
        assert Project(items, p) == rest + [r];
        assert (rest + [r])[..|rest|] == rest;
      }
    }
  }

  /** Every record of the list states what `facts` say of its coin. */
  predicate TrueRecords(items: seq<CoinRecord>, facts: Facts)
  {
    forall r :: r in items ==> r.coin in facts && facts[r.coin] == FactOf(r)
  }

  /** No two records of one coin state different facts. */
  predicate Consistent(items: seq<CoinRecord>)
  {
    forall q, r :: q in items && r in items && q.coin == r.coin ==> FactOf(q) == FactOf(r)
  }

  lemma {:induction false} TrueIffConsistent(items: seq<CoinRecord>)
    ensures TrueRecords(items, FactsOf(items)) <==> Consistent(items)
  {
    FactsCover(items);
  }

  lemma {:induction false} ProjectionStaysTrue(items: seq<CoinRecord>, facts: Facts, p: SetProjection)
    requires TrueRecords(items, facts)
    ensures TrueRecords(Project(items, p), ProjectFacts(facts, p))
  {
    FilterMembers(items, r => Wanted(r, p));
  }

  /** A list that states `facts`, each coin exactly once. */
  predicate States(items: seq<CoinRecord>, facts: Facts)
  {
    Distinct(items) && FactsOf(items) == facts
  }
}
