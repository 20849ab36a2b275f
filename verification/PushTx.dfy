/** Relaying a signed bundle (`push_tx` in src/router.rs, the `try_push_tx` methods in src/peer/mod.rs,
    and src/mempool_refusal.rs): at most two transmissions, and which verdict is reported. */
module PushTx {
  import opened Prelude
  import opened Net
  import opened PeerPool

  datatype TxStatus = TxStatus(admitted: bool, reason: Option<string>)

  // ---------------------------------------------------------------------------
  // Which refusals are final
  // ---------------------------------------------------------------------------

  const BUNDLE_INTRINSIC_REFUSALS: seq<string> := [
    "BAD_AGGREGATE_SIGNATURE",
    "COIN_AMOUNT_NEGATIVE",
    "COIN_AMOUNT_EXCEEDS_MAXIMUM",
    "DUPLICATE_OUTPUT",
    "MINTING_COIN",
    "RESERVE_FEE_CONDITION_FAILED",
    "WRONG_PUZZLE_HASH",
    "ASSERT_MY_COIN_ID_FAILED",
    "ASSERT_MY_PARENT_ID_FAILED",
    "ASSERT_MY_PUZZLEHASH_FAILED",
    "ASSERT_MY_AMOUNT_FAILED"
  ]

  /** The characters with the Unicode property White_Space. */
  predicate IsBlank(c: char)
  {
    || '\U{9}' <= c <= '\U{D}' || c == ' ' || c == '\U{85}' || c == '\U{A0}' || c == '\U{1680}'
    || '\U{2000}' <= c <= '\U{200A}' || c == '\U{2028}' || c == '\U{2029}' || c == '\U{202F}'
    || c == '\U{205F}' || c == '\U{3000}'
  }

  function TrimStart(s: string): string
  {
    if s != "" && IsBlank(s[0]) then TrimStart(s[1..]) else s
  }

  function TrimEnd(s: string): string
  {
    if s != "" && IsBlank(s[|s| - 1]) then TrimEnd(s[..|s| - 1]) else s
  }

  function Trim(s: string): string { TrimEnd(TrimStart(s)) }

  function ToAsciiUpper(c: char): char
  {
    if 'a' <= c <= 'z' then c - 'a' + 'A' else c
  }

  predicate EqIgnoreAsciiCase(a: string, b: string)
  {
    |a| == |b| && forall i :: 0 <= i < |a| ==> ToAsciiUpper(a[i]) == ToAsciiUpper(b[i])
  }

  predicate IsBundleIntrinsic(reason: string)
  {
    exists i :: 0 <= i < |BUNDLE_INTRINSIC_REFUSALS|
      && EqIgnoreAsciiCase(Trim(reason), BUNDLE_INTRINSIC_REFUSALS[i])
  }

  predicate IsFinal(status: TxStatus)
  {
    status.admitted || (status.reason.Some? && IsBundleIntrinsic(status.reason.value))
  }

  predicate AllBlank(s: string) { forall i :: 0 <= i < |s| ==> IsBlank(s[i]) }

  lemma {:induction false} TrimStartDrops(left: string, s: string)
    requires AllBlank(left) && (s == "" || !IsBlank(s[0]))
    ensures TrimStart(left + s) == s
  {
    if left == "" {
      assert left + s == s;
    } else {
      assert (left + s)[1..] == left[1..] + s;
      TrimStartDrops(left[1..], s);
    }
  }

  lemma {:induction false} TrimEndDrops(s: string, right: string)
    requires AllBlank(right) && (s == "" || !IsBlank(s[|s| - 1]))
    ensures TrimEnd(s + right) == s
  {
    if right == "" {
      assert s + right == s;
    } else {
      var n := |right| - 1;
      assert (s + right)[..|s| + n] == s + right[..n];
      TrimEndDrops(s, right[..n]);
    }
  }

  lemma {:induction false} TrimStartSplits(s: string) returns (left: string)
    ensures AllBlank(left) && s == left + TrimStart(s)
    ensures TrimStart(s) == "" || !IsBlank(TrimStart(s)[0])
  {
    if s != "" && IsBlank(s[0]) {
      var rest := TrimStartSplits(s[1..]);
      left := [s[0]] + rest;
    } else {
      left := "";
    }
  }

  lemma {:induction false} TrimEndSplits(s: string) returns (right: string)
    ensures AllBlank(right) && s == TrimEnd(s) + right
    ensures TrimEnd(s) == "" || !IsBlank(TrimEnd(s)[|TrimEnd(s)| - 1])
  {
    if s != "" && IsBlank(s[|s| - 1]) {
      var rest := TrimEndSplits(s[..|s| - 1]);
      right := rest + [s[|s| - 1]];
    } else {
      right := "";
    }
  }

  predicate IsUpperLetter(c: char) { 'A' <= c <= 'Z' }

  lemma {:induction false} NamesBeginAndEndWithLetters(i: nat)
    requires i < |BUNDLE_INTRINSIC_REFUSALS|
    ensures var name := BUNDLE_INTRINSIC_REFUSALS[i];
      name != "" && IsUpperLetter(name[0]) && IsUpperLetter(name[|name| - 1])
  {
  }

  /** The characters with the property White_Space, one by one. */
  const WHITE_SPACE: string :=
    "\t\n\U{B}\U{C}\r \U{85}\U{A0}\U{1680}\U{2000}\U{2001}\U{2002}\U{2003}\U{2004}\U{2005}\U{2006}\U{2007}"
    + "\U{2008}\U{2009}\U{200A}\U{2028}\U{2029}\U{202F}\U{205F}\U{3000}"

  predicate IsPadding(s: string) { forall i :: 0 <= i < |s| ==> s[i] in WHITE_SPACE }

  lemma {:induction false} PaddingIsBlank(s: string)
    ensures IsPadding(s) <==> AllBlank(s)
  {
    forall i | 0 <= i < |s|
      ensures s[i] in WHITE_SPACE <==> IsBlank(s[i])
    {
      BlankIffWhiteSpace(s[i]);
    }
  }

  lemma {:induction false} BlankIffWhiteSpace(c: char)
    ensures c in WHITE_SPACE <==> IsBlank(c)
  {
  }

  /** One letter in either case, or the same character. */
  predicate SameLetter(c: char, d: char)
  {
    c == d || ('A' <= c <= 'Z' && d == c - 'A' + 'a') || ('A' <= d <= 'Z' && c == d - 'A' + 'a')
  }

  predicate Spells(text: string, name: string)
  {
    |text| == |name| && forall i :: 0 <= i < |name| ==> SameLetter(text[i], name[i])
  }

  lemma {:induction false} SpellsIffEqual(text: string, name: string)
    ensures Spells(text, name) <==> EqIgnoreAsciiCase(text, name)
  {
  }

  /** A reason is one of the names, in any case, with nothing but white space around it. */
  ghost predicate IsNamed(reason: string, left: string, core: string, right: string, i: nat)
  {
    && reason == left + core + right && IsPadding(left) && IsPadding(right)
    && i < |BUNDLE_INTRINSIC_REFUSALS| && Spells(core, BUNDLE_INTRINSIC_REFUSALS[i])
  }

  lemma {:induction false} NamedIsTrimmed(reason: string, left: string, core: string, right: string, i: nat)
    requires IsNamed(reason, left, core, right, i)
    ensures Trim(reason) == core
  {
    PaddingIsBlank(left);
    PaddingIsBlank(right);
    SpellsIffEqual(core, BUNDLE_INTRINSIC_REFUSALS[i]);
    TrimUnpads(reason, left, core, right, i);
  }

  lemma {:induction false} TrimUnpads(reason: string, left: string, core: string, right: string, i: nat)
    requires reason == left + core + right && AllBlank(left) && AllBlank(right)
    requires i < |BUNDLE_INTRINSIC_REFUSALS| && EqIgnoreAsciiCase(core, BUNDLE_INTRINSIC_REFUSALS[i])
    ensures Trim(reason) == core
  {
    NamesBeginAndEndWithLetters(i);
    assert ToAsciiUpper(core[0]) == BUNDLE_INTRINSIC_REFUSALS[i][0];
    assert ToAsciiUpper(core[|core| - 1]) == BUNDLE_INTRINSIC_REFUSALS[i][|core| - 1];
    assert reason == left + (core + right);
    TrimStartDrops(left, core + right);
    TrimEndDrops(core, right);
  }

  lemma {:induction false} TrimSplits(reason: string) returns (left: string, right: string)
    ensures AllBlank(left) && AllBlank(right) && reason == left + Trim(reason) + right
  {
    left := TrimStartSplits(reason);
    right := TrimEndSplits(TrimStart(reason));
  }

  lemma {:induction false} NamesItself(reason: string) returns (left: string, right: string, i: nat)
    requires IsBundleIntrinsic(reason)
    ensures IsNamed(reason, left, Trim(reason), right, i)
  {
    i :| i < |BUNDLE_INTRINSIC_REFUSALS| && EqIgnoreAsciiCase(Trim(reason), BUNDLE_INTRINSIC_REFUSALS[i]);
    left, right := TrimSplits(reason);
    PaddingIsBlank(left);
    PaddingIsBlank(right);
    SpellsIffEqual(Trim(reason), BUNDLE_INTRINSIC_REFUSALS[i]);
  }

  /** A refusal is intrinsic to the bundle exactly when its whole reason is one of the names: never for
      a longer text that contains one. */
  lemma {:induction false} IntrinsicReasonsAreWholeNames(reason: string)
    ensures IsBundleIntrinsic(reason) <==>
      exists left: string, core: string, right: string, i: nat :: IsNamed(reason, left, core, right, i)
  {
    if IsBundleIntrinsic(reason) {
      var left, right, i := NamesItself(reason);
    }
    if left: string, core: string, right: string, i: nat :| IsNamed(reason, left, core, right, i) {
      NamedIsTrimmed(reason, left, core, right, i);
      SpellsIffEqual(core, BUNDLE_INTRINSIC_REFUSALS[i]);
    }
  }

  // ---------------------------------------------------------------------------
  // The transcript
  // ---------------------------------------------------------------------------

  datatype Transmission =
    | ToPeer(address: SocketAddr, outcome: Result<TxStatus, QueryError>)
    | ToCoinset(outcome: Result<TxStatus, QueryError>)

  type Transcript = seq<Transmission>

  predicate PeerAnswered(t: Transmission) { t.ToPeer? && t.outcome.Ok? }

  /** Admitted, or refused by a whole name on the list, in any case and between blanks. */
  ghost predicate SettlesIt(status: TxStatus)
  {
    || status.admitted
    || (status.reason.Some?
        && exists left: string, core: string, right: string, i: nat ::
             IsNamed(status.reason.value, left, core, right, i))
  }

  lemma {:induction false} FinalIffSettled(status: TxStatus)
    ensures IsFinal(status) <==> SettlesIt(status)
  {
    if status.reason.Some? {
      IntrinsicReasonsAreWholeNames(status.reason.value);
    }
  }

  /** What every push keeps to, whatever the peers, the pool and the coinset tier do. */
  predicate KeepsTheBound(sent: Transcript, coinsetEnabled: bool)
  {
    && |sent| <= 3
    && (forall i :: 2 <= i < |sent| ==> sent[i].ToCoinset?)
    && (forall i :: 0 <= i < |sent| && sent[i].ToCoinset? ==>
         i == |sent| - 1 && coinsetEnabled && forall j :: 0 <= j < i ==> sent[j].ToPeer? && sent[j].outcome.Err?)
    && (forall i, j :: 0 <= i < j < |sent| && PeerAnswered(sent[i]) ==>
         sent[j].ToPeer? && sent[j].address != sent[i].address && !IsFinal(sent[i].outcome.value))
  }

  predicate AnyAnswered(sent: Transcript)
  {
    exists i :: 0 <= i < |sent| && PeerAnswered(sent[i])
  }

  predicate AnyAdmitted(sent: Transcript)
  {
    exists i :: 0 <= i < |sent| && PeerAnswered(sent[i]) && sent[i].outcome.value.admitted
  }

  predicate WasAnswered(sent: Transcript, r: Result<TxStatus, QueryError>)
  {
    exists i :: 0 <= i < |sent| && PeerAnswered(sent[i]) && sent[i].outcome == r
  }

  /** The verdict when no peer answered: the coinset tier's, if it may be consulted. */
  predicate ReportsCoinset(r: Result<TxStatus, QueryError>, sent: Transcript, coinsetEnabled: bool)
  {
    if !coinsetEnabled then r.Err?
    else
      && sent != [] && sent[|sent| - 1].ToCoinset?
      && r == if sent[|sent| - 1].outcome.Ok? then sent[|sent| - 1].outcome else Err(AllSourcesFailed)
  }

  /** The verdict reported: one of the peers' answers, and admitted if and only if some peer that
      answered admitted; the coinset tier's when no peer answered. */
  predicate ReportsTheTranscript(r: Result<TxStatus, QueryError>, sent: Transcript, coinsetEnabled: bool)
  {
    if AnyAnswered(sent) then WasAnswered(sent, r) && r.Ok? && (r.value.admitted <==> AnyAdmitted(sent))
    else ReportsCoinset(r, sent, coinsetEnabled)
  }

  lemma {:induction false} BoundAfterAFailure(failed: Transmission, later: Transcript, enabled: bool)
    requires failed.ToPeer? && failed.outcome.Err?
    requires KeepsTheBound(later, enabled) && |later| <= 2 && (|later| == 2 ==> later[1].ToCoinset?)
    ensures KeepsTheBound([failed] + later, enabled)
  {
    var all := [failed] + later;
    assert all[0] == failed;
    assert |later| >= 1 ==> all[1] == later[0];
    assert |later| >= 2 ==> all[2] == later[1];
  }

  lemma {:induction false} VerdictAfterAFailure(
      failed: Transmission, later: Transcript, r: Result<TxStatus, QueryError>, enabled: bool)
    requires failed.ToPeer? && failed.outcome.Err?
    requires ReportsTheTranscript(r, later, enabled)
    ensures ReportsTheTranscript(r, [failed] + later, enabled)
  {
    var all := [failed] + later;
    assert forall i :: 0 <= i < |later| ==> later[i] == all[i + 1];
    assert AnyAnswered(later) <==> AnyAnswered(all);
    assert AnyAdmitted(later) <==> AnyAdmitted(all);
    assert WasAnswered(later, r) <==> WasAnswered(all, r);
  }

  /** A failed attempt ahead of a transcript changes neither its bound nor its verdict. */
  lemma {:induction false} AfterAFailure(
      failed: Transcript, later: Transcript, r: Result<TxStatus, QueryError>, enabled: bool)
    requires |failed| <= 1 && (|failed| == 1 ==> failed[0].ToPeer? && failed[0].outcome.Err?)
    requires KeepsTheBound(later, enabled) && ReportsTheTranscript(r, later, enabled)
    requires |later| <= 2 && (|later| == 2 ==> later[1].ToCoinset?)
    ensures KeepsTheBound(failed + later, enabled) && ReportsTheTranscript(r, failed + later, enabled)
  {
    if failed == [] {
      assert failed + later == later;
    } else {
      assert failed == [failed[0]];
      BoundAfterAFailure(failed[0], later, enabled);
      VerdictAfterAFailure(failed[0], later, r, enabled);
    }
  }

  /** The transcript of one attempt, and what is reported when that is all, or when the coinset tier
      follows. */
  lemma {:induction false} RetryReports(
      sent: Transcript, retry: Result<(TxStatus, SocketAddr), QueryError>,
      coinset: Result<TxStatus, QueryError>, enabled: bool)
    requires retry.Ok? ==> sent == [ToPeer(retry.value.1, Ok(retry.value.0))]
    requires retry.Err? ==> |sent| <= 1 && forall i :: 0 <= i < |sent| ==> sent[i].ToPeer? && sent[i].outcome.Err?
    ensures retry.Ok? ==>
      KeepsTheBound(sent, enabled) && ReportsTheTranscript(Ok(retry.value.0), sent, enabled)
    ensures retry.Err? && !enabled ==>
      KeepsTheBound(sent, enabled) && ReportsTheTranscript(Err(retry.error), sent, enabled)
    ensures retry.Err? && enabled ==>
      var all := sent + [ToCoinset(coinset)];
      && KeepsTheBound(all, enabled)
      && ReportsTheTranscript(if coinset.Ok? then coinset else Err(AllSourcesFailed), all, enabled)
  {
    if retry.Ok? {
      assert PeerAnswered(sent[0]);
    } else {
      assert !AnyAnswered(sent);
      var all := sent + [ToCoinset(coinset)];
      assert forall i :: 0 <= i < |all| ==> !PeerAnswered(all[i]);
    }
  }

  /** A refusal that another peer might not share, and the second opinion if there was one. */
  lemma {:induction false} AfterARefusal(
      firstAddr: SocketAddr, first: TxStatus, later: Transcript, second: Result<TxStatus, QueryError>, enabled: bool)
    requires !IsFinal(first) && |later| <= 1 && (second.Ok? ==> |later| == 1)
    requires |later| == 1 ==> later[0].ToPeer? && later[0].outcome == second && later[0].address != firstAddr
    ensures var sent := [ToPeer(firstAddr, Ok(first))] + later;
      var r: Result<TxStatus, QueryError> := if second.Ok? && IsFinal(second.value) then second else Ok(first);
      KeepsTheBound(sent, enabled) && ReportsTheTranscript(r, sent, enabled)
  {
    var sent := [ToPeer(firstAddr, Ok(first))] + later;
    assert PeerAnswered(sent[0]);
    if second.Ok? {
      assert PeerAnswered(sent[1]);
    }
  }

  /** The round-robin choice. */
  function Picked(entries: Entries, index: nat): SocketAddr
    requires entries != []
  {
    entries[index % |entries|].address
  }

  /** After a transport failure the retry goes to another address, whichever peer its round robin comes
      to, if and only if the refill in between does not seat the failed address again. A refill is kept
      from the addresses that are held, and the failed one has just been ejected. */
  lemma {:induction false} TheRetryGoesElsewhereIff(
      held: Entries, maxPeers: nat, arrivals: seq<Arrival>, now: nat, failed: SocketAddr)
    ensures var left := WithoutAddress(held, failed);
      var retried := Maintained(left, [], maxPeers, arrivals, now);
      var base := WithoutOldest(WithoutLagging(WithoutDead(left, [])), now);
      (forall index: nat :: retried != [] ==> Picked(retried, index) != failed)
      <==> !(exists i :: 0 <= i < |arrivals| && Arrives(base, maxPeers, arrivals, now, i, failed))
  {
    var left := WithoutAddress(held, failed);
    var retried := Maintained(left, [], maxPeers, arrivals, now);
    var base := WithoutOldest(WithoutLagging(WithoutDead(left, [])), now);
    EjectionRemovesOneAddress(held, failed, failed);
    MaintenanceSeatsNobodyElse(left, [], now, failed);
    RefillHoldsIff(base, maxPeers, arrivals, now, failed);
    PickedSomewhereIff(retried, failed);
  }

  lemma {:induction false} PickedSomewhereIff(entries: Entries, address: SocketAddr)
    ensures (exists index: nat :: entries != [] && Picked(entries, index) == address) <==> Holds(entries, address)
  {
    if index: nat :| entries != [] && Picked(entries, index) == address {
      assert entries[index % |entries|] in entries;
    }
    if Holds(entries, address) {
      var i := PickedHere(entries, address);
    }
  }

  lemma {:induction false} PickedHere(entries: Entries, address: SocketAddr) returns (i: nat)
    requires Holds(entries, address)
    ensures entries != [] && Picked(entries, i) == address
  {
    var e :| e in entries && e.address == address;
    i :| 0 <= i < |entries| && entries[i] == e;
    WithinOneRound(i, |entries|);
  }

  lemma {:induction false} WithinOneRound(i: nat, n: nat)
    requires i < n
    ensures i % n == i
  {
  }

  /** The retry can go to the very peer that failed: it is the only one held, and the refill offers
      addresses that are not held. */
  lemma {:induction false} TheRetryCanRepeatItself(failed: SocketAddr, session: nat, again: nat, now: nat)
    ensures var held := [PeerEntry(failed, session, Priority, 0, now)];
      var retried := Maintained(
        WithoutAddress(held, failed), [], 1, [Arrival(failed, Priority, again)], now);
      retried != [] && Picked(retried, 0) == failed
  {
    var held := [PeerEntry(failed, session, Priority, 0, now)];
    var arrivals := [Arrival(failed, Priority, again)];
    assert arrivals[..0] == [];
    FilterAppend([], held[0], (e: PeerEntry) => e.address != failed);
    assert [] + [held[0]] == held;
    assert WithoutAddress(held, failed) == [];
    assert AdmitAll([], 1, arrivals[..0], now) == [];
  }

  class Router {
    const pool: Pool
    const coinsetFallbackEnabled: bool

    constructor (pool: Pool, enabled: bool)
      ensures this.pool == pool && coinsetFallbackEnabled == enabled
    {
      this.pool, coinsetFallbackEnabled := pool, enabled;
    }

    /** `try_push_tx_attributed`: maintain the pool, pick a peer, transmit, and eject it on failure. */
    method TryPushTx(arrivals: seq<Arrival>, now: nat, mempool: SocketAddr -> Result<TxStatus, QueryError>)
      returns (outcome: Result<(TxStatus, SocketAddr), QueryError>, sent: Transcript)
      modifies pool
      ensures |sent| <= 1 && forall t :: t in sent ==> t.ToPeer? && t.outcome == mempool(t.address)
      ensures var held := Maintained(old(pool.entries), old(pool.deadSessions), pool.maxPeers, arrivals, now);
        && (sent == [] <==> held == [])
        && (sent != [] ==> sent[0].address == Picked(held, old(pool.nextIdx)))
        && pool.entries == (if outcome.Err? && sent != [] then WithoutAddress(held, sent[0].address) else held)
      ensures pool.nextIdx == old(pool.nextIdx) + |sent| && pool.deadSessions == []
      ensures outcome.Ok? ==>
        sent == [ToPeer(outcome.value.1, Ok(outcome.value.0))] && Holds(pool.entries, outcome.value.1)
      ensures outcome.Err? ==> forall t :: t in sent ==> t.outcome.Err? && !Holds(pool.entries, t.address)
    {
      sent := [];
      pool.Maintain(arrivals, now);
      var picked := pool.SelectPeer();
      if picked.None? {
        return Err(ReadFailed), sent;
      }
      var addr := picked.value;
      var status := mempool(addr);
      sent := [ToPeer(addr, status)];
      if status.Ok? {
        return Ok((status.value, addr)), sent;
      }
      EjectionRemovesOneAddress(pool.entries, addr, addr);
      pool.EjectPeer(addr);
      return Err(status.error), sent;
    }

    /** `try_push_tx_excluding`: one peer other than `excluded`, if any is held. */
    method TryPushTxExcluding(excluded: SocketAddr, mempool: SocketAddr -> Result<TxStatus, QueryError>)
      returns (outcome: Result<TxStatus, QueryError>, sent: Transcript)
      modifies pool
      ensures |sent| <= 1
      ensures |sent| == 1 ==> sent[0].ToPeer? && sent[0].outcome == outcome && sent[0].address != excluded
      ensures outcome.Ok? ==> |sent| == 1 && Holds(pool.entries, sent[0].address)
      ensures var candidates := WithoutAddress(old(pool.entries), excluded);
        && (sent == [] <==> candidates == [])
        && (sent != [] ==> sent[0].address == Picked(candidates, old(pool.nextIdx)))
        && pool.entries == (if outcome.Err? && sent != [] then WithoutAddress(old(pool.entries), sent[0].address)
                            else old(pool.entries))
      ensures sent == [] ==> forall e :: e in pool.entries ==> e.address == excluded
      ensures Holds(old(pool.entries), excluded) ==> Holds(pool.entries, excluded)
    {
      sent := [];
      var picked := pool.SelectPeerExcluding(excluded);
      if picked.None? {
        return Err(ReadFailed), sent;
      }
      outcome := mempool(picked.value);
      sent := [ToPeer(picked.value, outcome)];
      if outcome.Err? {
        EjectionRemovesOneAddress(pool.entries, picked.value, excluded);
        pool.EjectPeer(picked.value);
      }
    }

    /** `peer_then_coinset` after a first attempt that failed: one retry, then the coinset tier. */
    method RetryThenCoinset(
        arrivals: seq<Arrival>, now: nat,
        mempool: SocketAddr -> Result<TxStatus, QueryError>, coinset: Result<TxStatus, QueryError>)
      returns (r: Result<TxStatus, QueryError>, sent: Transcript)
      modifies pool
      ensures KeepsTheBound(sent, coinsetFallbackEnabled) && ReportsTheTranscript(r, sent, coinsetFallbackEnabled)
      ensures |sent| <= 2 && (|sent| == 2 ==> sent[1].ToCoinset?)
      ensures var held := Maintained(old(pool.entries), old(pool.deadSessions), pool.maxPeers, arrivals, now);
        && (sent != [] && sent[0].ToPeer? <==> held != [])
        && (held != [] ==> sent[0].address == Picked(held, old(pool.nextIdx)))
      ensures forall t :: t in sent && PeerAnswered(t) ==> Holds(pool.entries, t.address)
    {
      var retry;
      retry, sent := TryPushTx(arrivals, now, mempool);
      RetryReports(sent, retry, coinset, coinsetFallbackEnabled);
      if retry.Ok? {
        return Ok(retry.value.0), sent;
      }
      if !coinsetFallbackEnabled {
        return Err(retry.error), sent;
      }
      sent := sent + [ToCoinset(coinset)];
      r := if coinset.Ok? then coinset else Err(AllSourcesFailed);
    }

    /** `push_tx`; `mempool` answers the first transmission to an address, `mempoolLater` any second one. */
    method PushTx(
        arrivals: seq<Arrival>, laterArrivals: seq<Arrival>, now: nat,
        mempool: SocketAddr -> Result<TxStatus, QueryError>,
        mempoolLater: SocketAddr -> Result<TxStatus, QueryError>, coinset: Result<TxStatus, QueryError>)
      returns (r: Result<TxStatus, QueryError>, sent: Transcript)
      modifies pool
      ensures KeepsTheBound(sent, coinsetFallbackEnabled)
      ensures ReportsTheTranscript(r, sent, coinsetFallbackEnabled)
      ensures |sent| == 2 && PeerAnswered(sent[0]) && PeerAnswered(sent[1]) ==>
        r == if SettlesIt(sent[1].outcome.value) then sent[1].outcome else sent[0].outcome
      ensures sent != [] && PeerAnswered(sent[0]) && SettlesIt(sent[0].outcome.value) ==>
        |sent| == 1 && r == sent[0].outcome
      ensures (Maintained(old(pool.entries), old(pool.deadSessions), pool.maxPeers, arrivals, now) != []
               && |sent| == 1 && PeerAnswered(sent[0]) && !SettlesIt(sent[0].outcome.value)) ==>
        forall e :: e in pool.entries ==> e.address == sent[0].address
      ensures forall t :: t in sent && PeerAnswered(t) ==> Holds(pool.entries, t.address)
      ensures (|sent| >= 2 && sent[0].ToPeer? && sent[0].outcome.Err? && sent[1].ToPeer?) ==>
        var held := Maintained(old(pool.entries), old(pool.deadSessions), pool.maxPeers, arrivals, now);
        var retried := Maintained(WithoutAddress(held, sent[0].address), [], pool.maxPeers, laterArrivals, now);
        retried != [] && sent[1].address == Picked(retried, old(pool.nextIdx) + 1)
    {
      var attempt;
      attempt, sent := TryPushTx(arrivals, now, mempool);
      if attempt.Err? {
        var later;
        r, later := RetryThenCoinset(laterArrivals, now, mempoolLater, coinset);
        AfterAFailure(sent, later, r, coinsetFallbackEnabled);
        sent := sent + later;
        return;
      }
      var first, firstAddr := attempt.value.0, attempt.value.1;
      FinalIffSettled(first);
      if IsFinal(first) {
        return Ok(first), sent;
      }
      var second, later := TryPushTxExcluding(firstAddr, mempoolLater);
      AfterARefusal(firstAddr, first, later, second, coinsetFallbackEnabled);
      sent := sent + later;
      if second.Err? {
        return Ok(first), sent;
      }
      FinalIffSettled(second.value);
      r := Ok(if IsFinal(second.value) then second.value else first);
    }
  }
}
