/** The strings on which agreement is decided (src/types/chain_claim.rs and `identity` in
    src/peer/set_agreement.rs), and exactly when agreement of strings is agreement about the chain.

    Hashes travel as text. A rendering can be imitated by another coin's if and only if a hash text of
    the coin holds the separator that stands between its two hashes; hex never does. */
module ChainClaims {
  import opened Prelude

  datatype Coin = Coin(parentCoinInfo: string, puzzleHash: string, amount: nat)

  datatype CoinRecord = CoinRecord(
    coin: Coin,
    confirmedBlockIndex: nat,
    spentBlockIndex: nat,
    spent: bool,
    coinbase: bool,
    timestamp: nat)

  datatype CoinSpend = CoinSpend(coin: Coin, puzzleReveal: string, solution: string)

  datatype BlockRecord = BlockRecord(height: nat, headerHash: string, timestamp: Option<nat>)

  function Digit(d: nat): char
    requires d < 10
  {
    "0123456789"[d]
  }

  function Decimal(n: nat): string
  {
    if n < 10 then [Digit(n)] else Decimal(n / 10) + [Digit(n % 10)]
  }

  function Identity(coin: Coin): string
  {
    coin.parentCoinInfo + ":" + (coin.puzzleHash + ":" + Decimal(coin.amount))
  }

  function SpentHeight(r: CoinRecord): Option<nat>
  {
    if r.spent then Some(r.spentBlockIndex) else None
  }

  function CoinText(coin: Coin, rest: string): string
  {
    coin.parentCoinInfo + "," + (coin.puzzleHash + "," + (Decimal(coin.amount) + ")" + rest))
  }

  function CoinRecordClaim(coin: Coin, created: nat, spent: Option<nat>): string
  {
    "coin(" + CoinText(coin, " created=" + (Decimal(created) + " " + ("spent=" +
      match spent case Some(h) => Decimal(h) case None => "no")))
  }

  function RecordClaim(r: CoinRecord): string
  {
    CoinRecordClaim(r.coin, r.confirmedBlockIndex, SpentHeight(r))
  }

  function SpendClaim(s: CoinSpend): string
  {
    "spend(" + CoinText(s.coin, " puzzle=" + (s.puzzleReveal + " " + ("solution=" + s.solution)))
  }

  function BlockClaim(b: BlockRecord): string
  {
    "block(" + (Decimal(b.height) + "," + (b.headerHash + ")" + (" timestamp=" +
      match b.timestamp case Some(t) => Decimal(t) case None => "none")))
  }

  /** Neither hash text of the coin holds the separator. */
  predicate PlainCoin(coin: Coin, separator: char)
  {
    separator !in coin.parentCoinInfo && separator !in coin.puzzleHash
  }

  predicate IsHex(text: string)
  {
    forall c :: c in text ==> '0' <= c <= '9' || 'a' <= c <= 'f' || 'A' <= c <= 'F' || c == 'x'
  }

  lemma {:induction false} HexIsPlain(coin: Coin)
    requires IsHex(coin.parentCoinInfo) && IsHex(coin.puzzleHash)
    ensures PlainCoin(coin, ',') && PlainCoin(coin, ':')
  {
  }

  // ---------------------------------------------------------------------------
  // Decimal printing
  // ---------------------------------------------------------------------------

  function Value(digits: string): int
  {
    if digits == [] then 0
    else 10 * Value(digits[..|digits| - 1]) + (digits[|digits| - 1] as int - '0' as int)
  }

  lemma {:induction false} DecimalRoundTrips(n: nat)
    ensures Value(Decimal(n)) == n
    ensures Decimal(n) != []
    ensures forall c :: c in Decimal(n) ==> '0' <= c <= '9'
  {
    assert forall d: nat :: d < 10 ==> Digit(d) as int == '0' as int + d;
    if n >= 10 {
      DecimalRoundTrips(n / 10);
      assert Decimal(n)[..|Decimal(n)| - 1] == Decimal(n / 10);
    } else {
      assert Decimal(n)[..0] == [];
    }
  }

  lemma {:induction false} DecimalIsInjective(a: nat, b: nat)
    requires Decimal(a) == Decimal(b)
    ensures a == b
  {
    DecimalRoundTrips(a);
    DecimalRoundTrips(b);
  }

  // ---------------------------------------------------------------------------
  // Reading a rendering back
  // ---------------------------------------------------------------------------

  lemma {:induction false} SplitIsUnique(a: string, b: string, c: char, x: string, y: string)
    requires c !in a && c !in b
    requires a + [c] + x == b + [c] + y
    ensures a == b && x == y
  {
    var s := a + [c] + x;
    assert forall i :: 0 <= i < |a| ==> s[i] == a[i] && a[i] != c;
    assert forall i :: 0 <= i < |b| ==> s[i] == b[i] && b[i] != c;
    assert s[|a|] == c && s[|b|] == c;
    assert a == s[..|a|] == b;
    assert x == s[|a| + 1..] == y;
  }

  lemma {:induction false} LastSplitIsUnique(a: string, b: string, c: char, x: string, y: string)
    requires c !in x && c !in y
    requires a + [c] + x == b + [c] + y
    ensures a == b && x == y
  {
    var s := a + [c] + x;
    assert forall i :: |a| < i < |s| ==> s[i] == x[i - |a| - 1] && s[i] != c;
    assert forall i :: |b| < i < |s| ==> s[i] == y[i - |b| - 1] && s[i] != c;
    assert s[|a|] == c && s[|b|] == c;
    assert a == s[..|a|] == b;
    assert x == s[|a| + 1..] == y;
  }

  lemma {:induction false} SamePrefix(p: string, x: string, y: string)
    requires p + x == p + y
    ensures x == y
  {
    assert x == (p + x)[|p|..];
    assert y == (p + y)[|p|..];
  }

  // ---------------------------------------------------------------------------
  // The two hashes
  // ---------------------------------------------------------------------------

  function Hashes(coin: Coin, separator: char): string
  {
    coin.parentCoinInfo + [separator] + coin.puzzleHash
  }

  lemma {:induction false} PlainHashesReadBack(a: Coin, b: Coin, separator: char)
    requires PlainCoin(a, separator) && Hashes(a, separator) == Hashes(b, separator)
    ensures a.parentCoinInfo == b.parentCoinInfo && a.puzzleHash == b.puzzleHash
  {
    var s, n := Hashes(a, separator), |a.parentCoinInfo|;
    assert s[|b.parentCoinInfo|] == separator;
    assert forall i :: 0 <= i < n ==> s[i] == a.parentCoinInfo[i];
    assert forall i :: n < i < |s| ==> s[i] == a.puzzleHash[i - n - 1];
    assert |b.parentCoinInfo| == n;
    assert a.parentCoinInfo == s[..n] == b.parentCoinInfo;
    assert a.puzzleHash == s[n + 1..] == b.puzzleHash;
  }

  /** Where a hash text holds the separator, the pair reads back in a second way. */
  lemma {:induction false} AnotherReading(a: Coin, separator: char) returns (b: Coin)
    requires !PlainCoin(a, separator)
    ensures b != a && b.amount == a.amount && Hashes(b, separator) == Hashes(a, separator)
  {
    var s, n := Hashes(a, separator), |a.parentCoinInfo|;
    var at;
    if separator in a.parentCoinInfo {
      at :| 0 <= at < n && a.parentCoinInfo[at] == separator;
      assert s[at] == separator;
    } else {
      var i :| 0 <= i < |a.puzzleHash| && a.puzzleHash[i] == separator;
      at := n + 1 + i;
      assert s[at] == separator;
    }
    b := Coin(s[..at], s[at + 1..], a.amount);
    assert s == s[..at] + [separator] + s[at + 1..];
    assert |b.parentCoinInfo| != n;
  }

  // ---------------------------------------------------------------------------
  // Identities
  // ---------------------------------------------------------------------------

  /** Two identity strings are equal if and only if the amounts are and the hashes run together alike. */
  lemma {:induction false} IdentitiesAgreeIff(a: Coin, b: Coin)
    ensures Identity(a) == Identity(b) <==> a.amount == b.amount && Hashes(a, ':') == Hashes(b, ':')
  {
    DecimalRoundTrips(a.amount);
    DecimalRoundTrips(b.amount);
    assert Identity(a) == Hashes(a, ':') + [':'] + Decimal(a.amount);
    assert Identity(b) == Hashes(b, ':') + [':'] + Decimal(b.amount);
    if Identity(a) == Identity(b) {
      LastSplitIsUnique(Hashes(a, ':'), Hashes(b, ':'), ':', Decimal(a.amount), Decimal(b.amount));
      DecimalIsInjective(a.amount, b.amount);
    }
  }

  lemma {:induction false} IdentityIsInjective(a: Coin, b: Coin)
    requires PlainCoin(a, ':') && Identity(a) == Identity(b)
    ensures a == b
  {
    IdentitiesAgreeIff(a, b);
    PlainHashesReadBack(a, b, ':');
  }

  /** No other coin, whatever its texts, has this coin's identity if and only if its hash texts are
      free of colons. */
  lemma {:induction false} IdentityIsUniqueIff(a: Coin)
    ensures (forall b :: Identity(b) == Identity(a) ==> b == a) <==> PlainCoin(a, ':')
  {
    if PlainCoin(a, ':') {
      forall b | Identity(b) == Identity(a)
        ensures b == a
      {
        IdentityIsInjective(a, b);
      }
    } else {
      var b := AnotherReading(a, ':');
      IdentitiesAgreeIff(b, a);
    }
  }

  // ---------------------------------------------------------------------------
  // Record claims
  // ---------------------------------------------------------------------------

  function SpentText(spent: Option<nat>): string
  {
    match spent case Some(h) => Decimal(h) case None => "no"
  }

  /** What a record claim says after the last comma. */
  function RecordTail(amount: nat, created: nat, spent: Option<nat>): string
  {
    Decimal(amount) + ")" + (" created=" + (Decimal(created) + " " + ("spent=" + SpentText(spent))))
  }

  lemma {:induction false} RecordTailHasNoComma(amount: nat, created: nat, spent: Option<nat>)
    ensures ',' !in RecordTail(amount, created, spent)
  {
    DecimalRoundTrips(amount);
    DecimalRoundTrips(created);
    if spent.Some? { DecimalRoundTrips(spent.value); }
  }

  lemma {:induction false} SpentTextIsInjective(a: Option<nat>, b: Option<nat>)
    requires SpentText(a) == SpentText(b)
    ensures a == b
  {
    assert "no"[0] == 'n';
    if a.Some? {
      DecimalRoundTrips(a.value);
      assert Decimal(a.value)[0] in Decimal(a.value);
    }
    if b.Some? {
      DecimalRoundTrips(b.value);
      assert Decimal(b.value)[0] in Decimal(b.value);
    }
  }

  lemma {:induction false} RecordTailIsInjective(
      a: nat, ca: nat, sa: Option<nat>, b: nat, cb: nat, sb: Option<nat>)
    requires RecordTail(a, ca, sa) == RecordTail(b, cb, sb)
    ensures a == b && ca == cb && sa == sb
  {
    var restA := Decimal(ca) + " " + ("spent=" + SpentText(sa));
    var restB := Decimal(cb) + " " + ("spent=" + SpentText(sb));
    DecimalRoundTrips(a);
    DecimalRoundTrips(b);
    DecimalRoundTrips(ca);
    DecimalRoundTrips(cb);
    SplitIsUnique(Decimal(a), Decimal(b), ')', " created=" + restA, " created=" + restB);
    SamePrefix(" created=", restA, restB);
    SplitIsUnique(Decimal(ca), Decimal(cb), ' ', "spent=" + SpentText(sa), "spent=" + SpentText(sb));
    SamePrefix("spent=", SpentText(sa), SpentText(sb));
    SpentTextIsInjective(sa, sb);
  }

  lemma {:induction false} RecordClaimParts(coin: Coin, created: nat, spent: Option<nat>)
    ensures CoinRecordClaim(coin, created, spent)
      == "coin(" + (Hashes(coin, ',') + [','] + RecordTail(coin.amount, created, spent))
  {
    var tail := RecordTail(coin.amount, created, spent);
    assert coin.parentCoinInfo + "," + (coin.puzzleHash + "," + tail) == Hashes(coin, ',') + [','] + tail;
  }

  /** Two record claims are equal if and only if they say the same of amount and heights and the hashes
      run together alike. */
  lemma {:induction false} RecordClaimsAgreeIff(a: Coin, ca: nat, sa: Option<nat>, b: Coin, cb: nat, sb: Option<nat>)
    ensures CoinRecordClaim(a, ca, sa) == CoinRecordClaim(b, cb, sb)
      <==> a.amount == b.amount && ca == cb && sa == sb && Hashes(a, ',') == Hashes(b, ',')
  {
    RecordClaimParts(a, ca, sa);
    RecordClaimParts(b, cb, sb);
    var tailA, tailB := RecordTail(a.amount, ca, sa), RecordTail(b.amount, cb, sb);
    if CoinRecordClaim(a, ca, sa) == CoinRecordClaim(b, cb, sb) {
      SamePrefix("coin(", Hashes(a, ',') + [','] + tailA, Hashes(b, ',') + [','] + tailB);
      RecordTailHasNoComma(a.amount, ca, sa);
      RecordTailHasNoComma(b.amount, cb, sb);
      LastSplitIsUnique(Hashes(a, ','), Hashes(b, ','), ',', tailA, tailB);
      RecordTailIsInjective(a.amount, ca, sa, b.amount, cb, sb);
    }
  }

  /** No claim about another coin, or about this one at other heights, is equal to this claim if and
      only if the coin's hash texts are free of commas. */
  lemma {:induction false} RecordClaimIsUniqueIff(a: Coin, ca: nat, sa: Option<nat>)
    ensures (forall b, cb, sb :: CoinRecordClaim(b, cb, sb) == CoinRecordClaim(a, ca, sa) ==>
        b == a && cb == ca && sb == sa)
      <==> PlainCoin(a, ',')
  {
    if PlainCoin(a, ',') {
      forall b, cb, sb | CoinRecordClaim(b, cb, sb) == CoinRecordClaim(a, ca, sa)
        ensures b == a && cb == ca && sb == sa
      {
        RecordClaimsAgreeIff(b, cb, sb, a, ca, sa);
        PlainHashesReadBack(a, b, ',');
      }
    } else {
      var b := AnotherReading(a, ',');
      RecordClaimsAgreeIff(b, ca, sa, a, ca, sa);
    }
  }

  /** Two different coins that render alike, through hash texts with a comma. */
  lemma {:induction false} CommasMakeClaimsAmbiguous()
    ensures CoinRecordClaim(Coin("p,q", "r", 5), 1, None) == CoinRecordClaim(Coin("p", "q,r", 5), 1, None)
  {
    RecordClaimsAgreeIff(Coin("p,q", "r", 5), 1, None, Coin("p", "q,r", 5), 1, None);
  }

  // ---------------------------------------------------------------------------
  // Block claims
  // ---------------------------------------------------------------------------

  function TimestampText(timestamp: Option<nat>): string
  {
    match timestamp case Some(t) => Decimal(t) case None => "none"
  }

  lemma {:induction false} TimestampTextIsInjective(a: Option<nat>, b: Option<nat>)
    requires TimestampText(a) == TimestampText(b)
    ensures a == b
  {
    assert "none"[0] == 'n';
    if a.Some? {
      DecimalRoundTrips(a.value);
      assert Decimal(a.value)[0] in Decimal(a.value);
    }
    if b.Some? {
      DecimalRoundTrips(b.value);
      assert Decimal(b.value)[0] in Decimal(b.value);
    }
  }

  lemma {:induction false} BlockClaimParts(b: BlockRecord)
    ensures BlockClaim(b)
      == "block(" + (Decimal(b.height) + "," + b.headerHash + [')'] + (" timestamp=" + TimestampText(b.timestamp)))
    ensures ')' !in " timestamp=" + TimestampText(b.timestamp)
  {
    if b.timestamp.Some? { DecimalRoundTrips(b.timestamp.value); }
  }

  /** Equal claims about two blocks name the same height, hash and timestamp, whatever the hash texts. */
  lemma {:induction false} BlockClaimIsInjective(a: BlockRecord, b: BlockRecord)
    requires BlockClaim(a) == BlockClaim(b)
    ensures a == b
  {
    var nameA, nameB := Decimal(a.height) + "," + a.headerHash, Decimal(b.height) + "," + b.headerHash;
    var tailA, tailB := " timestamp=" + TimestampText(a.timestamp), " timestamp=" + TimestampText(b.timestamp);
    BlockClaimParts(a);
    BlockClaimParts(b);
    SamePrefix("block(", nameA + [')'] + tailA, nameB + [')'] + tailB);
    LastSplitIsUnique(nameA, nameB, ')', tailA, tailB);
    SamePrefix(" timestamp=", TimestampText(a.timestamp), TimestampText(b.timestamp));
    TimestampTextIsInjective(a.timestamp, b.timestamp);
    DecimalRoundTrips(a.height);
    DecimalRoundTrips(b.height);
    SplitIsUnique(Decimal(a.height), Decimal(b.height), ',', a.headerHash, b.headerHash);
    DecimalIsInjective(a.height, b.height);
  }

  // ---------------------------------------------------------------------------
  // Spend claims
  // ---------------------------------------------------------------------------

  const SOLUTION := " solution="

  /** What a spend claim says of the program. */
  function ProgramText(puzzle: string, solution: string): string { puzzle + SOLUTION + solution }

  /** What a spend claim says after the comma before the amount. */
  function SpendTail(amount: nat, program: string): string
  {
    Decimal(amount) + [')'] + (" puzzle=" + program)
  }

  predicate LabelAt(program: string, i: nat)
  {
    i + |SOLUTION| <= |program| && program[i..i + |SOLUTION|] == SOLUTION
  }

  /** The label of the solution stands in the program text at one place only. */
  ghost predicate OneLabel(puzzle: string, solution: string)
  {
    forall i: nat :: LabelAt(ProgramText(puzzle, solution), i) ==> i == |puzzle|
  }

  /** The text ends the way a spend claim does from the comma before its amount on. */
  ghost predicate EndsLikeAClaim(program: string)
  {
    exists x: string, n: nat, p: string, s: string :: EndsWithSpend(program, x, n, p, s)
  }

  predicate EndsWithSpend(program: string, x: string, n: nat, p: string, s: string)
  {
    program == x + [','] + SpendTail(n, ProgramText(p, s))
  }

  lemma {:induction false} SpendClaimParts(s: CoinSpend)
    ensures SpendClaim(s) == "spend("
      + (Hashes(s.coin, ',') + [','] + SpendTail(s.coin.amount, ProgramText(s.puzzleReveal, s.solution)))
  {
    var program := ProgramText(s.puzzleReveal, s.solution);
    var tail := Decimal(s.coin.amount) + ")" + (" puzzle=" + program);
    assert s.puzzleReveal + " " + ("solution=" + s.solution) == program;
    assert s.coin.parentCoinInfo + "," + (s.coin.puzzleHash + "," + tail) == Hashes(s.coin, ',') + [','] + tail;
  }

  lemma {:induction false} SpendTailIsInjective(a: nat, p: string, b: nat, q: string)
    requires SpendTail(a, p) == SpendTail(b, q)
    ensures a == b && p == q
  {
    DecimalRoundTrips(a);
    DecimalRoundTrips(b);
    SplitIsUnique(Decimal(a), Decimal(b), ')', " puzzle=" + p, " puzzle=" + q);
    DecimalIsInjective(a, b);
    SamePrefix(" puzzle=", p, q);
  }

  lemma {:induction false} OneLabelReadsBack(puzzle: string, solution: string, p: string, s: string)
    requires OneLabel(puzzle, solution) && ProgramText(p, s) == ProgramText(puzzle, solution)
    ensures p == puzzle && s == solution
  {
    var program := ProgramText(puzzle, solution);
    assert program[|p|..|p| + |SOLUTION|] == SOLUTION;
    assert LabelAt(program, |p|);
    assert p == program[..|p|] && puzzle == program[..|puzzle|];
    assert s == program[|p| + |SOLUTION|..] && solution == program[|puzzle| + |SOLUTION|..];
  }

  /** Where two splits of one text lie apart, the later one falls inside the rest of the earlier. */
  lemma {:induction false} LaterSplit(a: string, b: string, c: char, x: string, y: string)
    requires a + [c] + x == b + [c] + y && |a| < |b|
    ensures b[|a|] == c && x == b[|a| + 1..] + [c] + y
  {
    var s := a + [c] + x;
    assert s[|a|] == c;
    assert b == s[..|b|];
    assert x == s[|a| + 1..];
    assert s[|a| + 1..] == s[|a| + 1..|b|] + s[|b|..];
  }

  lemma {:induction false} OneCommaInPlainHashes(a: Coin, i: nat, j: nat)
    requires PlainCoin(a, ',') && i < |Hashes(a, ',')| && j < |Hashes(a, ',')|
    requires Hashes(a, ',')[i] == ',' && Hashes(a, ',')[j] == ','
    ensures i == j
  {
    var s, n := Hashes(a, ','), |a.parentCoinInfo|;
    assert forall k :: 0 <= k < n ==> s[k] == a.parentCoinInfo[k];
    assert forall k :: n < k < |s| ==> s[k] == a.puzzleHash[k - n - 1];
  }

  lemma {:induction false} SpendTailCutAtAComma(amount: nat, program: string, x: string, rest: string)
    requires SpendTail(amount, program) == x + [','] + rest
    ensures exists y :: program == y + [','] + rest
  {
    var s, head := SpendTail(amount, program), Decimal(amount) + [')'] + " puzzle=";
    DecimalRoundTrips(amount);
    assert s == head + program;
    assert forall k :: 0 <= k < |head| ==> s[k] == head[k];
    assert ',' !in head;
    assert s[|x|] == ',';
    var y := x[|head|..];
    assert program == s[|head|..] == y + [','] + rest;
  }

  /** A claim that this one can be confused with: the same words, split in another place. */
  lemma {:induction false} SpendClaimReadsBack(a: CoinSpend, b: CoinSpend)
    requires PlainCoin(a.coin, ',') && OneLabel(a.puzzleReveal, a.solution)
    requires !EndsLikeAClaim(ProgramText(a.puzzleReveal, a.solution))
    requires SpendClaim(a) == SpendClaim(b)
    ensures a == b
  {
    var hashesA, hashesB := Hashes(a.coin, ','), Hashes(b.coin, ',');
    var programA, programB := ProgramText(a.puzzleReveal, a.solution), ProgramText(b.puzzleReveal, b.solution);
    var tailA, tailB := SpendTail(a.coin.amount, programA), SpendTail(b.coin.amount, programB);
    SpendClaimParts(a);
    SpendClaimParts(b);
    SamePrefix("spend(", hashesA + [','] + tailA, hashesB + [','] + tailB);
    if |hashesA| < |hashesB| {
      LaterSplit(hashesA, hashesB, ',', tailA, tailB);
      SpendTailCutAtAComma(a.coin.amount, programA, hashesB[|hashesA| + 1..], tailB);
      var y :| programA == y + [','] + tailB;
      assert EndsWithSpend(programA, y, b.coin.amount, b.puzzleReveal, b.solution);
    } else if |hashesB| < |hashesA| {
      LaterSplit(hashesB, hashesA, ',', tailB, tailA);
      var i := |b.coin.parentCoinInfo|;
      assert (hashesA + [','] + tailA)[i] == (hashesB + [','] + tailB)[i];
      OneCommaInPlainHashes(a.coin, i, |hashesB|);
    } else {
      SameLengthSplit(hashesA, hashesB, tailA, tailB);
      SpendTailIsInjective(a.coin.amount, programA, b.coin.amount, programB);
      PlainHashesReadBack(a.coin, b.coin, ',');
      OneLabelReadsBack(a.puzzleReveal, a.solution, b.puzzleReveal, b.solution);
    }
  }

  lemma {:induction false} SameLengthSplit(a: string, b: string, x: string, y: string)
    requires a + [','] + x == b + [','] + y && |a| == |b|
    ensures a == b && x == y
  {
    var s := a + [','] + x;
    assert a == s[..|a|] == b;
    assert x == s[|a| + 1..] == y;
  }

  lemma {:induction false} AnotherSpend(a: CoinSpend) returns (b: CoinSpend)
    requires !PlainCoin(a.coin, ',') || !OneLabel(a.puzzleReveal, a.solution)
      || EndsLikeAClaim(ProgramText(a.puzzleReveal, a.solution))
    ensures b != a && SpendClaim(b) == SpendClaim(a)
  {
    if !PlainCoin(a.coin, ',') {
      var coin := AnotherReading(a.coin, ',');
      b := CoinSpend(coin, a.puzzleReveal, a.solution);
      SpendClaimParts(a);
      SpendClaimParts(b);
    } else if !OneLabel(a.puzzleReveal, a.solution) {
      b := SpendAtAnotherLabel(a);
    } else {
      var x: string, n: nat, p: string, s: string :|
        EndsWithSpend(ProgramText(a.puzzleReveal, a.solution), x, n, p, s);
      b := SpendWithinTheProgram(a, x, n, p, s);
    }
  }

  lemma {:induction false} SpendAtAnotherLabel(a: CoinSpend) returns (b: CoinSpend)
    requires !OneLabel(a.puzzleReveal, a.solution)
    ensures b != a && SpendClaim(b) == SpendClaim(a)
  {
    var program := ProgramText(a.puzzleReveal, a.solution);
    var i: nat :| LabelAt(program, i) && i != |a.puzzleReveal|;
    b := CoinSpend(a.coin, program[..i], program[i + |SOLUTION|..]);
    assert ProgramText(b.puzzleReveal, b.solution) == program;
    SpendClaimParts(a);
    SpendClaimParts(b);
  }

  lemma {:induction false} SpendWithinTheProgram(a: CoinSpend, x: string, n: nat, p: string, s: string)
    returns (b: CoinSpend)
    requires EndsWithSpend(ProgramText(a.puzzleReveal, a.solution), x, n, p, s)
    ensures b != a && SpendClaim(b) == SpendClaim(a)
  {
    var head := Decimal(a.coin.amount) + [')'] + " puzzle=";
    var program, tail := ProgramText(a.puzzleReveal, a.solution), SpendTail(n, ProgramText(p, s));
    var coin := Coin(a.coin.parentCoinInfo, a.coin.puzzleHash + [','] + head + x, n);
    b := CoinSpend(coin, p, s);
    SpendClaimParts(a);
    SpendClaimParts(b);
    assert SpendTail(a.coin.amount, program) == head + (x + [','] + tail);
    assert Hashes(coin, ',') + [','] + tail == Hashes(a.coin, ',') + [','] + (head + (x + [','] + tail));
    assert |coin.puzzleHash| > |a.coin.puzzleHash|;
  }

  /** No other spend, whatever its texts, has this claim if and only if the hash texts are free of
      commas, the solution's label occurs once in the program, and the program does not end like a
      spend claim. */
  lemma {:induction false} SpendClaimIsUniqueIff(a: CoinSpend)
    ensures (forall b :: SpendClaim(b) == SpendClaim(a) ==> b == a)
      <==> (PlainCoin(a.coin, ',') && OneLabel(a.puzzleReveal, a.solution)
            && !EndsLikeAClaim(ProgramText(a.puzzleReveal, a.solution)))
  {
    if PlainCoin(a.coin, ',') && OneLabel(a.puzzleReveal, a.solution)
       && !EndsLikeAClaim(ProgramText(a.puzzleReveal, a.solution)) {
      forall b | SpendClaim(b) == SpendClaim(a)
        ensures b == a
      {
        SpendClaimReadsBack(a, b);
      }
    } else {
      var b := AnotherSpend(a);
    }
  }

  /** Hex bytes, as a peer's answer is translated to, meet the condition. */
  lemma {:induction false} HexSpendClaimIsUnique(a: CoinSpend, b: CoinSpend)
    requires IsHex(a.coin.parentCoinInfo) && IsHex(a.coin.puzzleHash) && IsHex(a.puzzleReveal) && IsHex(a.solution)
    requires SpendClaim(a) == SpendClaim(b)
    ensures a == b
  {
    var program := ProgramText(a.puzzleReveal, a.solution);
    HexIsPlain(a.coin);
    forall i: nat | LabelAt(program, i)
      ensures i == |a.puzzleReveal|
    {
      assert program[i] == program[i..i + |SOLUTION|][0] == ' ';
      if i != |a.puzzleReveal| {
        OtherwiseNotBlank(a.puzzleReveal, a.solution, i);
      }
    }
    assert ',' !in program;
    if x: string, n: nat, p: string, s: string :| EndsWithSpend(program, x, n, p, s) {
      SpendEndHasAComma(program, x, n, p, s);
    }
    SpendClaimReadsBack(a, b);
  }

  lemma {:induction false} SpendEndHasAComma(program: string, x: string, n: nat, p: string, s: string)
    requires EndsWithSpend(program, x, n, p, s)
    ensures ',' in program
  {
    assert program[|x|] == ',';
  }

  lemma {:induction false} OtherwiseNotBlank(puzzle: string, solution: string, i: nat)
    requires IsHex(puzzle) && IsHex(solution)
    requires i < |ProgramText(puzzle, solution)| && i != |puzzle|
    ensures ProgramText(puzzle, solution)[i] != ' '
  {
    var program, n, m := ProgramText(puzzle, solution), |puzzle|, |puzzle| + |SOLUTION|;
    if i < n {
      assert program[i] == puzzle[i] && puzzle[i] in puzzle;
    } else if i < m {
      assert program[i] == SOLUTION[i - n];
    } else {
      assert program[i] == solution[i - m] && solution[i - m] in solution;
    }
  }
}
