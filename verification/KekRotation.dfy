/**
 Census and re-encryption sweep for a key rotation (`src/kek-rotation.ts`), over the two-key ring of
 `src/token-crypto.ts` and the tenant table of `src/store-d1.ts`. The cipher is abstract.
 */
module KekRotation {
  import opened Basics

  // ---- the cipher and the ring ----

  /** `usable` keys seal and open; `seal` takes the random nonce as an argument. */
  datatype Cipher = Cipher(usable: string -> bool, seal: (string, string, nat) -> string, open: (string, string) -> Option<string>)

  /** What authenticated encryption gives: a sealed text opens under its own key and under no other. */
  ghost predicate Lawful(c: Cipher) {
    && (forall k, p, n, j :: c.usable(k) ==> c.open(j, c.seal(k, p, n)) == if j == k then Some(p) else None)
    && (forall k, p, n :: c.usable(k) ==> c.seal(k, p, n) != "")
    && (forall k, b :: !c.usable(k) ==> c.open(k, b) == None)
  }

  /** A cipher of one-character keys that writes the key in front of the text: enough to be lawful. */
  const KEY_IN_FRONT: Cipher := Cipher(
    k => |k| == 1, (k, p, n) => k + p, (k, b) => if |k| == 1 && b != "" && b[0] == k[0] then Some(b[1..]) else None)

  /** The laws can be met with two usable keys, and then a token sealed under the old one is there to rotate. */
  lemma LawfulCipherExists()
    ensures var c, ring := KEY_IN_FRONT, Ring("a", Some("b"), Next);
            && Lawful(c) && c.usable("a") && c.usable("b") && RotationWindowOpen(ring)
            && BucketOf(c, ring, c.seal("a", "token", 0)) == NeedsRotation
            && BucketOf(c, ring, c.seal("b", "token", 0)) == OnTarget && BucketOf(c, ring, "c") == Unreadable
  {
    var c := KEY_IN_FRONT;
    forall j, k, p, n | c.usable(k)
      ensures c.open(j, c.seal(k, p, n)) == (if j == k then Some(p) else None) && c.seal(k, p, n) != ""
    {
      assert (k + p)[0] == k[0] && (k + p)[1..] == p;
      assert |j| == 1 && j[0] == k[0] ==> j == k;
    }
  }

  datatype Slot = Primary | Next

  datatype Ring = Ring(primary: string, next: Option<string>, encryptSlot: Slot)

  predicate RotationWindowOpen(ring: Ring) {
    ring.next.Some?
  }

  function Other(slot: Slot): Slot {
    if slot == Primary then Next else Primary
  }

  /** The installed key of a slot; an empty one is skipped. */
  function SlotKey(ring: Ring, slot: Slot): Option<string> {
    match slot
    case Primary => if ring.primary != "" then Some(ring.primary) else None
    case Next => if ring.next.Some? && ring.next.value != "" then ring.next else None
  }

  function OpenUnder(c: Cipher, ring: Ring, slot: Slot, blob: string): Option<string> {
    if SlotKey(ring, slot).Some? then c.open(SlotKey(ring, slot).value, blob) else None
  }

  datatype Opened = Opened(slot: Slot, plaintext: string)

  /** The write slot is tried first, the other key second. */
  function DecryptWithSlot(c: Cipher, ring: Ring, blob: string): Option<Opened> {
    var first, second := ring.encryptSlot, Other(ring.encryptSlot);
    if OpenUnder(c, ring, first, blob).Some? then Some(Opened(first, OpenUnder(c, ring, first, blob).value))
    else if OpenUnder(c, ring, second, blob).Some? then Some(Opened(second, OpenUnder(c, ring, second, blob).value))
    else None
  }

  /** Encryption refuses when the write slot names no installed key, and fails on an unusable one. */
  function EncryptStudioToken(c: Cipher, ring: Ring, plaintext: string, nonce: nat): Result<string> {
    var key := SlotKey(ring, ring.encryptSlot);
    if key.None? || !c.usable(key.value) then Threw else Ok(c.seal(key.value, plaintext, nonce))
  }

  datatype Bucket = OnTarget | NeedsRotation | Unreadable

  function BucketOf(c: Cipher, ring: Ring, blob: string): Bucket {
    match DecryptWithSlot(c, ring, blob)
    case None => Unreadable
    case Some(o) => if o.slot == ring.encryptSlot then OnTarget else NeedsRotation
  }

  /**
   The buckets, over the keys themselves: a row is on target when the installed key of the write slot opens it, needs
   rotation when only the installed key of the other slot does, and is unreadable when neither does. An empty key
   is not installed. A row that opens gives the text of the key that opened it, the write key first.
   */
  lemma BucketSpelled(c: Cipher, ring: Ring, blob: string)
    ensures var next := if ring.next.Some? then ring.next.value else "";
            var write, other := if ring.encryptSlot == Next then next else ring.primary, if ring.encryptSlot == Next then ring.primary else next;
            var byWrite, byOther := write != "" && c.open(write, blob).Some?, other != "" && c.open(other, blob).Some?;
            && (BucketOf(c, ring, blob) == OnTarget <==> byWrite)
            && (BucketOf(c, ring, blob) == NeedsRotation <==> !byWrite && byOther)
            && (BucketOf(c, ring, blob) == Unreadable <==> !byWrite && !byOther)
            && (byWrite ==> DecryptWithSlot(c, ring, blob) == Some(Opened(ring.encryptSlot, c.open(write, blob).value)))
            && (!byWrite && byOther ==> DecryptWithSlot(c, ring, blob)
                                        == Some(Opened(if ring.encryptSlot == Next then Primary else Next, c.open(other, blob).value)))
            && (!byWrite && !byOther ==> DecryptWithSlot(c, ring, blob) == None)
  {
  }

  /** What encryption writes: the text sealed under the installed, usable key of the write slot, or nothing. */
  lemma EncryptSpelled(c: Cipher, ring: Ring, plaintext: string, nonce: nat)
    ensures var next := if ring.next.Some? then ring.next.value else "";
            var write := if ring.encryptSlot == Next then next else ring.primary;
            EncryptStudioToken(c, ring, plaintext, nonce)
            == if write != "" && c.usable(write) then Ok(c.seal(write, plaintext, nonce)) else Threw
  {
  }

  // ---- the table ----

  /** A tenant row; `enc` is empty when it carries no token. Rows lie in the order of their ids. */
  datatype TokenRow = TokenRow(id: nat, slug: string, enc: string)

  ghost predicate DistinctIds(rows: seq<TokenRow>) {
    forall i, j | 0 <= i < j < |rows| :: rows[i].id != rows[j].id
  }

  /** SELECT ... WHERE studio_token_enc IS NOT NULL AND studio_token_enc != '' ORDER BY id */
  function Listed(rows: seq<TokenRow>): seq<TokenRow> {
    if rows == [] then [] else (if rows[0].enc != "" then [rows[0]] else []) + Listed(rows[1..])
  }

  function Get(rows: seq<TokenRow>, id: nat): Option<string> {
    if rows == [] then None else if rows[0].id == id then Some(rows[0].enc) else Get(rows[1..], id)
  }

  function SetToken(rows: seq<TokenRow>, id: nat, enc: string): (r: seq<TokenRow>)
    ensures |r| == |rows|
  {
    if rows == [] then []
    else [if rows[0].id == id then rows[0].(enc := enc) else rows[0]] + SetToken(rows[1..], id, enc)
  }

  /** UPDATE ... WHERE id AND studio_token_enc = expected */
  function SetIfUnchanged(rows: seq<TokenRow>, id: nat, expected: string, enc: string): seq<TokenRow> {
    if Get(rows, id) == Some(expected) then SetToken(rows, id, enc) else rows
  }

  lemma {:induction false} GetAfterSet(rows: seq<TokenRow>, id: nat, enc: string, other: nat)
    ensures Get(SetToken(rows, id, enc), other)
            == if other == id && Get(rows, id).Some? then Some(enc) else Get(rows, other)
  {
    if rows != [] { GetAfterSet(rows[1..], id, enc, other); }
  }

  lemma {:induction false} SetKeepsIds(rows: seq<TokenRow>, id: nat, enc: string, k: nat)
    requires k < |rows|
    ensures SetToken(rows, id, enc)[k] == if rows[k].id == id then rows[k].(enc := enc) else rows[k]
  {
    if k > 0 { SetKeepsIds(rows[1..], id, enc, k - 1); }
  }

  class TokenStore {
    var rows: seq<TokenRow>

    constructor (rows: seq<TokenRow>)
      ensures this.rows == rows
    {
      this.rows := rows;
    }

    method ListEncryptedStudioTokens() returns (out: seq<TokenRow>)
      ensures out == Listed(rows)
    {
      out := [];
      var i := |rows|;
      while i > 0
        invariant 0 <= i <= |rows| && out == Listed(rows[i..])
      {
        i := i - 1;
        assert rows[i..][1..] == rows[i + 1..];
        if rows[i].enc != "" { out := [rows[i]] + out; }
      }
      assert rows[0..] == rows;
    }

    method SetTenantStudioToken(id: nat, enc: string)
      modifies this
      ensures rows == SetToken(old(rows), id, enc)
    {
      rows := SetToken(rows, id, enc);
    }

    method SetTenantStudioTokenIfUnchanged(id: nat, expected: string, enc: string) returns (wrote: bool)
      modifies this
      ensures rows == SetIfUnchanged(old(rows), id, expected, enc)
      ensures wrote <==> Get(old(rows), id) == Some(expected)
    {
      wrote := Get(rows, id) == Some(expected);
      if wrote { rows := SetToken(rows, id, enc); }
    }
  }

  // ---- the census ----

  function CountIn(c: Cipher, ring: Ring, rows: seq<TokenRow>, b: Bucket): (n: nat)
    ensures n <= |rows|
  {
    if rows == [] then 0
    else CountIn(c, ring, rows[..|rows| - 1], b) + if BucketOf(c, ring, rows[|rows| - 1].enc) == b then 1 else 0
  }

  lemma CountNext(c: Cipher, ring: Ring, rows: seq<TokenRow>, k: nat, b: Bucket)
    requires k < |rows|
    ensures CountIn(c, ring, rows[..k + 1], b)
            == CountIn(c, ring, rows[..k], b) + if BucketOf(c, ring, rows[k].enc) == b then 1 else 0
  {
    assert rows[..k + 1][..k] == rows[..k];
  }

  /** A bucket counts zero exactly when no row is in it. */
  lemma {:induction false} CountZeroMeansNone(c: Cipher, ring: Ring, rows: seq<TokenRow>, b: Bucket)
    ensures CountIn(c, ring, rows, b) == 0 <==> forall k | 0 <= k < |rows| :: BucketOf(c, ring, rows[k].enc) != b
  {
    if rows != [] {
      var front := rows[..|rows| - 1];
      CountZeroMeansNone(c, ring, front, b);
      assert forall k | 0 <= k < |front| :: front[k] == rows[k];
    }
  }

  /** The slugs of the unreadable rows, in their order. */
  function UnreadableSlugs(c: Cipher, ring: Ring, rows: seq<TokenRow>): (slugs: seq<string>)
    ensures |slugs| == CountIn(c, ring, rows, Unreadable)
  {
    if rows == [] then []
    else
      var last := rows[|rows| - 1];
      UnreadableSlugs(c, ring, rows[..|rows| - 1]) + if BucketOf(c, ring, last.enc) == Unreadable then [last.slug] else []
  }

  /** The slugs named are exactly those of rows that no installed key opens. */
  lemma {:induction false} UnreadableSpelled(c: Cipher, ring: Ring, rows: seq<TokenRow>, slug: string)
    ensures slug in UnreadableSlugs(c, ring, rows) <==> exists k :: 0 <= k < |rows| && rows[k].slug == slug && BucketOf(c, ring, rows[k].enc) == Unreadable
  {
    hide BucketOf;
    if rows != [] {
      var n := |rows| - 1;
      UnreadableSpelled(c, ring, rows[..n], slug);
      assert forall k | 0 <= k < n :: rows[..n][k] == rows[k];
      if k :| 0 <= k < |rows| && rows[k].slug == slug && BucketOf(c, ring, rows[k].enc) == Unreadable {
        if k < n { assert rows[..n][k].slug == slug; }
      }
    }
  }

  lemma SlugsNext(c: Cipher, ring: Ring, rows: seq<TokenRow>, k: nat)
    requires k < |rows|
    ensures UnreadableSlugs(c, ring, rows[..k + 1])
            == UnreadableSlugs(c, ring, rows[..k]) + if BucketOf(c, ring, rows[k].enc) == Unreadable then [rows[k].slug] else []
  {
    hide BucketOf;
    assert rows[..k + 1][..k] == rows[..k];
  }

  datatype Census = Census(windowOpen: bool, encryptSlot: Slot, total: nat, onTarget: nat, needsRotation: nat,
                           unreadable: seq<string>, safeToPromote: bool)

  method KekCensus(store: TokenStore, c: Cipher, ring: Ring) returns (census: Census)
    ensures var rows := Listed(store.rows);
            && census.total == |rows| == census.onTarget + census.needsRotation + |census.unreadable|
            && census.onTarget == CountIn(c, ring, rows, OnTarget)
            && census.needsRotation == CountIn(c, ring, rows, NeedsRotation)
            && census.unreadable == UnreadableSlugs(c, ring, rows)
            && (census.windowOpen <==> ring.next.Some?) && census.encryptSlot == ring.encryptSlot
            && (census.safeToPromote <==> forall k | 0 <= k < |rows| :: BucketOf(c, ring, rows[k].enc) == OnTarget)
  {
    hide *;
    var rows := store.ListEncryptedStudioTokens();
    var onTarget, needsRotation, unreadable := 0, 0, [];
    TallyStarts(c, ring, rows);
    for i := 0 to |rows|
      invariant Tallied(c, ring, rows[..i], onTarget, needsRotation, unreadable)
    {
      TallyNext(c, ring, rows, i, onTarget, needsRotation, unreadable);
      match BucketOf(c, ring, rows[i].enc) {
        case OnTarget => onTarget := onTarget + 1;
        case NeedsRotation => needsRotation := needsRotation + 1;
        case Unreadable => unreadable := unreadable + [rows[i].slug];
      }
    }
    assert rows[..|rows|] == rows;
    TallyMeans(c, ring, rows, onTarget, needsRotation, unreadable);
    WindowSpelled(ring);
    census := Census(RotationWindowOpen(ring), ring.encryptSlot, |rows|, onTarget, needsRotation, unreadable,
                     needsRotation == 0 && unreadable == []);
  }

  lemma WindowSpelled(ring: Ring)
    ensures RotationWindowOpen(ring) <==> ring.next.Some?
  {
  }

  lemma TallyStarts(c: Cipher, ring: Ring, rows: seq<TokenRow>)
    ensures Tallied(c, ring, rows[..0], 0, 0, [])
  {
    assert rows[..0] == [];
  }

  lemma TallyMeans(c: Cipher, ring: Ring, rows: seq<TokenRow>, onTarget: nat, moved: nat, unreadable: seq<string>)
    requires Tallied(c, ring, rows, onTarget, moved, unreadable)
    ensures |rows| == onTarget + moved + |unreadable|
    ensures onTarget == CountIn(c, ring, rows, OnTarget) && moved == CountIn(c, ring, rows, NeedsRotation)
    ensures unreadable == UnreadableSlugs(c, ring, rows)
    ensures moved == 0 && unreadable == [] <==> forall k | 0 <= k < |rows| :: BucketOf(c, ring, rows[k].enc) == OnTarget
  {
    CountZeroMeansNone(c, ring, rows, NeedsRotation);
    CountZeroMeansNone(c, ring, rows, Unreadable);
    hide BucketOf, CountIn, UnreadableSlugs;
  }

  // ---- interleavings: no token is lost ----

  /** A provision minting a token, under whichever installed slot its own deployment writes. */
  datatype Provision = Provision(id: nat, text: string, slot: Slot, nonce: nat)

  predicate CanProvision(c: Cipher, ring: Ring, p: Provision) {
    SlotKey(ring, p.slot).Some? && c.usable(SlotKey(ring, p.slot).value)
  }

  datatype Step =
    | Mint(p: Provision)
    | Rewrite(id: nat, expected: string, nonce: nat)

  /** A sweep's write, whatever and whenever it read: it holds `expected`, which opened under the other key. */
  predicate CanStep(c: Cipher, ring: Ring, step: Step) {
    match step
    case Mint(p) => CanProvision(c, ring, p)
    case Rewrite(_, expected, nonce) =>
      BucketOf(c, ring, expected) == NeedsRotation && EncryptStudioToken(c, ring, "", nonce).Ok?
  }

  function AfterStep(c: Cipher, ring: Ring, rows: seq<TokenRow>, step: Step): seq<TokenRow>
    requires CanStep(c, ring, step)
  {
    match step
    case Mint(p) => SetToken(rows, p.id, c.seal(SlotKey(ring, p.slot).value, p.text, p.nonce))
    case Rewrite(id, expected, nonce) =>
      var plaintext := DecryptWithSlot(c, ring, expected).value.plaintext;
      SetIfUnchanged(rows, id, expected, c.seal(SlotKey(ring, ring.encryptSlot).value, plaintext, nonce))
  }

  /** The last token provisioned to a tenant, as far as it was ever known. */
  function AfterTruth(truth: map<nat, string>, step: Step): map<nat, string> {
    match step
    case Mint(p) => truth[p.id := p.text]
    case Rewrite(_, _, _) => truth
  }

  /** Every row with a known token decrypts to it. */
  ghost predicate Kept(c: Cipher, ring: Ring, rows: seq<TokenRow>, truth: map<nat, string>) {
    forall id | id in truth && Get(rows, id).Some? ::
      DecryptWithSlot(c, ring, Get(rows, id).value).Some? && DecryptWithSlot(c, ring, Get(rows, id).value).value.plaintext == truth[id]
  }

  lemma SealedReads(c: Cipher, ring: Ring, slot: Slot, text: string, nonce: nat)
    requires Lawful(c) && SlotKey(ring, slot).Some? && c.usable(SlotKey(ring, slot).value)
    ensures var o := DecryptWithSlot(c, ring, c.seal(SlotKey(ring, slot).value, text, nonce));
            o.Some? && o.value.plaintext == text && (slot == ring.encryptSlot ==> o.value.slot == slot)
  {
    hide SlotKey;
  }

  /** No step loses a token: each known row still decrypts to the last one provisioned. */
  lemma StepKeepsTokens(c: Cipher, ring: Ring, rows: seq<TokenRow>, truth: map<nat, string>, step: Step)
    requires Lawful(c) && CanStep(c, ring, step) && Kept(c, ring, rows, truth)
    ensures Kept(c, ring, AfterStep(c, ring, rows, step), AfterTruth(truth, step))
  {
    var after := AfterStep(c, ring, rows, step);
    hide DecryptWithSlot, Get, SetToken;
    match step
    case Mint(p) =>
      SealedReads(c, ring, p.slot, p.text, p.nonce);
      hide Lawful, SlotKey;
      forall id { GetAfterSet(rows, p.id, c.seal(SlotKey(ring, p.slot).value, p.text, p.nonce), id); }
    case Rewrite(id, expected, nonce) =>
      var plaintext := DecryptWithSlot(c, ring, expected).value.plaintext;
      SealedReads(c, ring, ring.encryptSlot, plaintext, nonce);
      hide Lawful, SlotKey;
      forall other { GetAfterSet(rows, id, c.seal(SlotKey(ring, ring.encryptSlot).value, plaintext, nonce), other); }
  }

  predicate CanSteps(c: Cipher, ring: Ring, steps: seq<Step>) {
    forall k | 0 <= k < |steps| :: CanStep(c, ring, steps[k])
  }

  function AfterSteps(c: Cipher, ring: Ring, rows: seq<TokenRow>, steps: seq<Step>): seq<TokenRow>
    requires CanSteps(c, ring, steps)
  {
    if steps == [] then rows else AfterStep(c, ring, AfterSteps(c, ring, rows, steps[..|steps| - 1]), steps[|steps| - 1])
  }

  function TruthAfter(truth: map<nat, string>, steps: seq<Step>): map<nat, string> {
    if steps == [] then truth else AfterTruth(TruthAfter(truth, steps[..|steps| - 1]), steps[|steps| - 1])
  }

  lemma {:induction false} RotationNeverLosesAToken(c: Cipher, ring: Ring, rows: seq<TokenRow>, truth: map<nat, string>, steps: seq<Step>)
    requires Lawful(c) && CanSteps(c, ring, steps) && Kept(c, ring, rows, truth)
    ensures Kept(c, ring, AfterSteps(c, ring, rows, steps), TruthAfter(truth, steps))
  {
    if steps != [] {
      var front := steps[..|steps| - 1];
      RotationNeverLosesAToken(c, ring, rows, truth, front);
      StepKeepsTokens(c, ring, AfterSteps(c, ring, rows, front), TruthAfter(truth, front), steps[|steps| - 1]);
    }
  }

  /** A sweep never writes a row that no installed key opens. */
  lemma UnreadableNeverRewritten(c: Cipher, ring: Ring, rows: seq<TokenRow>, id: nat, step: Step)
    requires CanStep(c, ring, step) && step.Rewrite?
    requires Get(rows, id).Some? && BucketOf(c, ring, Get(rows, id).value) == Unreadable
    ensures Get(AfterStep(c, ring, rows, step), id) == Get(rows, id)
  {
    hide DecryptWithSlot;
    GetAfterSet(rows, step.id, c.seal(SlotKey(ring, ring.encryptSlot).value,
                                      DecryptWithSlot(c, ring, step.expected).value.plaintext, step.nonce), id);
  }

  // ---- the sweep ----

  datatype SweepResult = SweepResult(examined: nat, skipped: nat, rotated: nat, raced: nat, unreadable: seq<string>, complete: bool)

  /** The provisions that land before each of the sweep's writes. */
  type Races = nat -> seq<Provision>

  function Minted(ps: seq<Provision>): seq<Step> {
    if ps == [] then [] else Minted(ps[..|ps| - 1]) + [Mint(ps[|ps| - 1])]
  }

  /** What the sweep does about one row it listed, given the provisions that land meanwhile. */
  function RowSteps(c: Cipher, ring: Ring, row: TokenRow, raced: seq<Provision>, nonce: nat): seq<Step> {
    Minted(raced) + if BucketOf(c, ring, row.enc) == NeedsRotation then [Rewrite(row.id, row.enc, nonce)] else []
  }

  function SweepSteps(c: Cipher, ring: Ring, batch: seq<TokenRow>, races: Races, nonce: nat -> nat): seq<Step> {
    if batch == [] then []
    else
      var k := |batch| - 1;
      SweepSteps(c, ring, batch[..k], races, nonce) + RowSteps(c, ring, batch[k], races(k), nonce(k))
  }

  ghost predicate RacesLegal(c: Cipher, ring: Ring, races: Races) {
    forall k, j | 0 <= j < |races(k)| :: CanProvision(c, ring, races(k)[j])
  }

  lemma {:induction false} MintedLegal(c: Cipher, ring: Ring, ps: seq<Provision>)
    requires forall j | 0 <= j < |ps| :: CanProvision(c, ring, ps[j])
    ensures CanSteps(c, ring, Minted(ps))
  {
    if ps != [] {
      assert forall j | 0 <= j < |ps| - 1 :: ps[..|ps| - 1][j] == ps[j];
      MintedLegal(c, ring, ps[..|ps| - 1]);
    }
  }

  lemma {:induction false} SweepLegal(c: Cipher, ring: Ring, batch: seq<TokenRow>, races: Races, nonce: nat -> nat)
    requires RacesLegal(c, ring, races) && EncryptStudioToken(c, ring, "", 0).Ok?
    ensures CanSteps(c, ring, SweepSteps(c, ring, batch, races, nonce))
  {
    if batch != [] {
      hide BucketOf, CanProvision;
      var k := |batch| - 1;
      SweepLegal(c, ring, batch[..k], races, nonce);
      MintedLegal(c, ring, races(k));
    }
  }

  lemma {:induction false} StepsConcat(c: Cipher, ring: Ring, rows: seq<TokenRow>, a: seq<Step>, b: seq<Step>)
    requires CanSteps(c, ring, a) && CanSteps(c, ring, b)
    ensures CanSteps(c, ring, a + b)
    ensures AfterSteps(c, ring, rows, a + b) == AfterSteps(c, ring, AfterSteps(c, ring, rows, a), b)
  {
    hide CanStep, AfterStep;
    if b == [] {
      assert a + b == a;
    } else {
      StepsConcat(c, ring, rows, a, b[..|b| - 1]);
      assert (a + b)[..|a + b| - 1] == a + b[..|b| - 1];
      assert (a + b)[|a + b| - 1] == b[|b| - 1];
    }
  }

  /** The provisions that race one write, applied to the table. */
  method Race(store: TokenStore, c: Cipher, ring: Ring, ps: seq<Provision>)
    requires forall j | 0 <= j < |ps| :: CanProvision(c, ring, ps[j])
    modifies store
    ensures CanSteps(c, ring, Minted(ps)) && store.rows == AfterSteps(c, ring, old(store.rows), Minted(ps))
  {
    ghost var start := store.rows;
    MintedLegal(c, ring, ps);
    for j := 0 to |ps|
      invariant CanSteps(c, ring, Minted(ps[..j])) && store.rows == AfterSteps(c, ring, start, Minted(ps[..j]))
    {
      assert ps[..j + 1][..j] == ps[..j];
      MintedLegal(c, ring, ps[..j + 1]);
      StepsConcat(c, ring, start, Minted(ps[..j]), [Mint(ps[j])]);
      store.SetTenantStudioToken(ps[j].id, c.seal(SlotKey(ring, ps[j].slot).value, ps[j].text, ps[j].nonce));
    }
    assert ps[..|ps|] == ps;
  }

  datatype RowOutcome = Skipped | Rotated | Raced | NotOpened | Refused

  function Resealed(c: Cipher, ring: Ring, enc: string, nonce: nat): string
    requires BucketOf(c, ring, enc) == NeedsRotation && EncryptStudioToken(c, ring, "", nonce).Ok?
  {
    EncryptStudioToken(c, ring, DecryptWithSlot(c, ring, enc).value.plaintext, nonce).value
  }

  /** A row's work done on the table: rewritten when it is work and still what was listed. */
  function RowDone(c: Cipher, ring: Ring, rows: seq<TokenRow>, row: TokenRow, nonce: nat): seq<TokenRow>
    requires BucketOf(c, ring, row.enc) == NeedsRotation ==> EncryptStudioToken(c, ring, "", nonce).Ok?
  {
    if BucketOf(c, ring, row.enc) == NeedsRotation
    then SetIfUnchanged(rows, row.id, row.enc, Resealed(c, ring, row.enc, nonce)) else rows
  }

  /** One row of the batch: decrypt what was listed, re-encrypt, and write only over what was listed. */
  method RotateOne(store: TokenStore, c: Cipher, ring: Ring, row: TokenRow, nonce: nat) returns (o: RowOutcome)
    modifies store
    ensures o == match BucketOf(c, ring, row.enc)
                 case OnTarget => Skipped
                 case Unreadable => NotOpened
                 case NeedsRotation =>
                   if EncryptStudioToken(c, ring, "", nonce).Threw? then Refused
                   else if Get(old(store.rows), row.id) == Some(row.enc) then Rotated else Raced
    ensures store.rows == if o.Refused? then old(store.rows) else RowDone(c, ring, old(store.rows), row, nonce)
  {
    var got := DecryptWithSlot(c, ring, row.enc);
    if got.None? {
      return NotOpened;
    }
    if got.value.slot == ring.encryptSlot {
      return Skipped;
    }
    var reencrypted := EncryptStudioToken(c, ring, got.value.plaintext, nonce);
    if reencrypted.Threw? {
      return Refused;
    }
    var wrote := store.SetTenantStudioTokenIfUnchanged(row.id, row.enc, reencrypted.value);
    return if wrote then Rotated else Raced;
  }

  ghost predicate Quiet(races: Races) {
    forall k :: races(k) == []
  }

  /** The table a sweep has left after the first `i` rows of its batch. */
  ghost predicate SweptTo(c: Cipher, ring: Ring, start: seq<TokenRow>, batch: seq<TokenRow>, i: nat, races: Races,
                          nonce: nat -> nat, rows: seq<TokenRow>)
    requires i <= |batch|
  {
    var steps := SweepSteps(c, ring, batch[..i], races, nonce);
    CanSteps(c, ring, steps) && rows == AfterSteps(c, ring, start, steps)
  }

  /** The counters agree with the buckets of the rows examined. */
  ghost predicate Tallied(c: Cipher, ring: Ring, rows: seq<TokenRow>, skipped: nat, moved: nat, unreadable: seq<string>) {
    && skipped == CountIn(c, ring, rows, OnTarget)
    && moved == CountIn(c, ring, rows, NeedsRotation)
    && unreadable == UnreadableSlugs(c, ring, rows)
    && skipped + moved + |unreadable| == |rows|
  }

  lemma TallyNext(c: Cipher, ring: Ring, batch: seq<TokenRow>, i: nat, skipped: nat, moved: nat, unreadable: seq<string>)
    requires i < |batch| && Tallied(c, ring, batch[..i], skipped, moved, unreadable)
    ensures var b := BucketOf(c, ring, batch[i].enc);
            Tallied(c, ring, batch[..i + 1], skipped + if b == OnTarget then 1 else 0,
                    moved + if b == NeedsRotation then 1 else 0, if b == Unreadable then unreadable + [batch[i].slug] else unreadable)
  {
    hide BucketOf, CountIn, UnreadableSlugs;
    CountNext(c, ring, batch, i, OnTarget);
    CountNext(c, ring, batch, i, NeedsRotation);
    SlugsNext(c, ring, batch, i);
  }

  /** The sweep stopped at row `i`: the rows before it are done, and its racing provisions have landed. */
  ghost predicate StoppedAt(c: Cipher, ring: Ring, start: seq<TokenRow>, batch: seq<TokenRow>, i: nat, races: Races,
                            nonce: nat -> nat, rows: seq<TokenRow>)
    requires i <= |batch|
  {
    CanSteps(c, ring, Minted(races(i)))
    && exists mid :: SweptTo(c, ring, start, batch, i, races, nonce, mid) && rows == AfterSteps(c, ring, mid, Minted(races(i)))
  }

  /** How many rows still held what was listed, each in the table its write found: the writes that landed. */
  function Landed(c: Cipher, ring: Ring, batch: seq<TokenRow>, tables: seq<seq<TokenRow>>): nat
    requires |batch| == |tables|
  {
    if batch == [] then 0
    else
      var k := |batch| - 1;
      Landed(c, ring, batch[..k], tables[..k])
      + if BucketOf(c, ring, batch[k].enc) == NeedsRotation && Get(tables[k], batch[k].id) == Some(batch[k].enc) then 1 else 0
  }

  lemma LandedNext(c: Cipher, ring: Ring, batch: seq<TokenRow>, i: nat, tables: seq<seq<TokenRow>>, table: seq<TokenRow>)
    requires i < |batch| && |tables| == i
    ensures Landed(c, ring, batch[..i + 1], tables + [table])
            == Landed(c, ring, batch[..i], tables)
               + if BucketOf(c, ring, batch[i].enc) == NeedsRotation && Get(table, batch[i].id) == Some(batch[i].enc) then 1 else 0
  {
    hide BucketOf, Get;
    assert batch[..i + 1][..i] == batch[..i] && (tables + [table])[..i] == tables;
  }

  /** `tables[k]` is the table that the write of row `k` found. */
  ghost predicate Found(c: Cipher, ring: Ring, start: seq<TokenRow>, batch: seq<TokenRow>, races: Races, nonce: nat -> nat,
                        tables: seq<seq<TokenRow>>) {
    |tables| <= |batch| && forall k | 0 <= k < |tables| :: StoppedAt(c, ring, start, batch, k, races, nonce, tables[k])
  }

  /** The body of the sweep's loop, with whatever lands between the listing and this row's write. */
  method SweepRow(store: TokenStore, c: Cipher, ring: Ring, ghost start: seq<TokenRow>, ghost limit: nat,
                  batch: seq<TokenRow>, i: nat, races: Races, nonce: nat -> nat)
    returns (o: RowOutcome, ghost found: seq<TokenRow>)
    requires Lawful(c) && DistinctIds(start) && RacesLegal(c, ring, races)
    requires batch == Batch(start, limit) && i < |batch| && SweptTo(c, ring, start, batch, i, races, nonce, store.rows)
    modifies store
    ensures o.Skipped? <==> BucketOf(c, ring, batch[i].enc) == OnTarget
    ensures o.NotOpened? <==> BucketOf(c, ring, batch[i].enc) == Unreadable
    ensures o.Refused? <==> BucketOf(c, ring, batch[i].enc) == NeedsRotation && EncryptStudioToken(c, ring, "", 0).Threw?
    ensures StoppedAt(c, ring, start, batch, i, races, nonce, found)
    ensures o.Rotated? || o.Raced? ==> (o.Rotated? <==> Get(found, batch[i].id) == Some(batch[i].enc))
    ensures Quiet(races) ==> !o.Raced?
    ensures if o.Refused? then StoppedAt(c, ring, start, batch, i, races, nonce, store.rows)
            else SweptTo(c, ring, start, batch, i + 1, races, nonce, store.rows)
  {
    hide Listed, BucketOf, AfterSteps, CanSteps, CanProvision, EncryptStudioToken, Lawful, RowDone, DistinctIds, SweptTo, Minted, Batch;
    ghost var mid := store.rows;
    EncryptsAlike(c, ring, nonce(i));
    if Quiet(races) {
      QuietRowUnmoved(c, ring, start, limit, i, races, nonce, mid);
      assert races(i) == [];
    }
    Race(store, c, ring, races(i));
    found := store.rows;
    o := RotateOne(store, c, ring, batch[i], nonce(i));
    if !o.Refused? {
      SweepOneMore(c, ring, start, batch, i, races, nonce, mid, found);
    }
  }

  /**
   The sweep. It refuses outside a window, and stops at the first row it would have to write when the write
   key refuses; up to there, and otherwise to the end of its batch, it leaves the table exactly as its steps
   and the provisions that raced them do. Its counters add up to what it examined, `rotated` is the number of
   writes that landed, `unreadable` names exactly the rows no key opened, and without racing provisions
   nothing is reported as raced.
   */
  method SweepReencrypt(store: TokenStore, c: Cipher, ring: Ring, limit: nat, races: Races, nonce: nat -> nat)
    returns (result: Result<SweepResult>, ghost stop: nat, ghost tables: seq<seq<TokenRow>>)
    requires Lawful(c) && DistinctIds(store.rows) && RacesLegal(c, ring, races)
    modifies store
    ensures ring.next.None? ==> result.Threw? && store.rows == old(store.rows)
    ensures stop <= |Batch(old(store.rows), limit)|
    ensures ring.next.Some? && result.Threw? ==>
              var batch := Batch(old(store.rows), limit);
              && EncryptStudioToken(c, ring, "", 0).Threw? && stop < |batch| && BucketOf(c, ring, batch[stop].enc) == NeedsRotation
              && StoppedAt(c, ring, old(store.rows), batch, stop, races, nonce, store.rows)
    ensures result.Ok? ==>
              var batch := Batch(old(store.rows), limit);
              var r := result.value;
              && stop == |batch| && SweptTo(c, ring, old(store.rows), batch, stop, races, nonce, store.rows)
              && r.examined == |batch|
              && Tallied(c, ring, batch, r.skipped, r.rotated + r.raced, r.unreadable)
              && |tables| == |batch| && Found(c, ring, old(store.rows), batch, races, nonce, tables)
              && r.rotated == Landed(c, ring, batch, tables)
              && (Quiet(races) ==> r.raced == 0)
              && (r.complete <==> |Listed(old(store.rows))| <= limit)
  {
    hide *;
    WindowSpelled(ring);
    stop, tables := 0, [];
    if !RotationWindowOpen(ring) {
      return Threw, 0, [];
    }
    ghost var start := store.rows;
    var rows := store.ListEncryptedStudioTokens();
    BatchIs(start, limit);
    var batch := rows[..Min(limit, |rows|)];
    var skipped, rotated, raced, unreadable := 0, 0, 0, [];
    SweepStarts(c, ring, start, batch, races, nonce);
    var i := 0;
    while i < |batch|
      invariant 0 <= i <= |batch|
      invariant SweepAt(c, ring, start, batch, i, races, nonce, store.rows, tables, skipped, rotated, raced, unreadable)
    {
      SweepAtMeans(c, ring, start, batch, i, races, nonce, store.rows, tables, skipped, rotated, raced, unreadable);
      var outcome, table := SweepRow(store, c, ring, start, limit, batch, i, races, nonce);
      if outcome.Refused? { return Threw, i, tables; }
      SweepAtNext(c, ring, start, batch, i, races, nonce, store.rows, tables, skipped, rotated, raced, unreadable, outcome, table);
      tables := tables + [table];
      match outcome {
        case Skipped => skipped := skipped + 1;
        case Rotated => rotated := rotated + 1;
        case Raced => raced := raced + 1;
        case NotOpened => unreadable := unreadable + [batch[i].slug];
      }
      i := i + 1;
    }
    stop := i;
    SweepEnds(c, ring, start, batch, races, nonce, store.rows, tables, skipped, rotated, raced, unreadable);
    result := Ok(SweepResult(|batch|, skipped, rotated, raced, unreadable, |batch| == |rows|));
  }

  lemma BatchIs(rows: seq<TokenRow>, limit: nat)
    ensures var n := Min(limit, |Listed(rows)|);
            0 <= n <= |Listed(rows)| && Batch(rows, limit) == Listed(rows)[..n] && (n == |Listed(rows)| <==> |Listed(rows)| <= limit)
  {
    hide Listed;
  }

  /** Where the loop stands: the rows before `i` are done and counted. */
  ghost predicate SweepAt(c: Cipher, ring: Ring, start: seq<TokenRow>, batch: seq<TokenRow>, i: nat, races: Races, nonce: nat -> nat,
                          rows: seq<TokenRow>, tables: seq<seq<TokenRow>>, skipped: nat, rotated: nat, raced: nat, unreadable: seq<string>) {
    && i <= |batch| && SweptTo(c, ring, start, batch, i, races, nonce, rows)
    && Tallied(c, ring, batch[..i], skipped, rotated + raced, unreadable)
    && |tables| == i && Found(c, ring, start, batch, races, nonce, tables) && rotated == Landed(c, ring, batch[..i], tables)
    && (Quiet(races) ==> raced == 0)
  }

  lemma SweepStarts(c: Cipher, ring: Ring, start: seq<TokenRow>, batch: seq<TokenRow>, races: Races, nonce: nat -> nat)
    ensures SweepAt(c, ring, start, batch, 0, races, nonce, start, [], 0, 0, 0, [])
  {
    NothingSwept(c, ring, start, batch, races, nonce);
    hide SweptTo, Tallied, Quiet;
  }

  lemma SweepAtMeans(c: Cipher, ring: Ring, start: seq<TokenRow>, batch: seq<TokenRow>, i: nat, races: Races, nonce: nat -> nat,
                     rows: seq<TokenRow>, tables: seq<seq<TokenRow>>, skipped: nat, rotated: nat, raced: nat, unreadable: seq<string>)
    requires SweepAt(c, ring, start, batch, i, races, nonce, rows, tables, skipped, rotated, raced, unreadable)
    ensures i <= |batch| && SweptTo(c, ring, start, batch, i, races, nonce, rows)
    ensures Tallied(c, ring, batch[..i], skipped, rotated + raced, unreadable) && (Quiet(races) ==> raced == 0)
    ensures |tables| == i && Found(c, ring, start, batch, races, nonce, tables) && rotated == Landed(c, ring, batch[..i], tables)
  {
    hide SweptTo, Tallied, Quiet, Found, Landed;
  }

  /** One more row done, with the outcome its bucket allows. */
  lemma SweepAtNext(c: Cipher, ring: Ring, start: seq<TokenRow>, batch: seq<TokenRow>, i: nat, races: Races, nonce: nat -> nat,
                    rows: seq<TokenRow>, tables: seq<seq<TokenRow>>, skipped: nat, rotated: nat, raced: nat, unreadable: seq<string>, o: RowOutcome, table: seq<TokenRow>)
    requires i < |batch| && Tallied(c, ring, batch[..i], skipped, rotated + raced, unreadable) && (Quiet(races) ==> raced == 0)
    requires |tables| == i && Found(c, ring, start, batch, races, nonce, tables) && rotated == Landed(c, ring, batch[..i], tables)
    requires StoppedAt(c, ring, start, batch, i, races, nonce, table)
    requires o.Rotated? || o.Raced? ==> (o.Rotated? <==> Get(table, batch[i].id) == Some(batch[i].enc))
    requires SweptTo(c, ring, start, batch, i + 1, races, nonce, rows) && !o.Refused? && (Quiet(races) ==> !o.Raced?)
    requires o.Skipped? <==> BucketOf(c, ring, batch[i].enc) == OnTarget
    requires o.NotOpened? <==> BucketOf(c, ring, batch[i].enc) == Unreadable
    ensures SweepAt(c, ring, start, batch, i + 1, races, nonce, rows, tables + [table], skipped + (if o.Skipped? then 1 else 0),
                    rotated + (if o.Rotated? then 1 else 0), raced + (if o.Raced? then 1 else 0),
                    if o.NotOpened? then unreadable + [batch[i].slug] else unreadable)
  {
    TallyNext(c, ring, batch, i, skipped, rotated + raced, unreadable);
    LandedNext(c, ring, batch, i, tables, table);
    FoundNext(c, ring, start, batch, i, races, nonce, tables, table);
    hide SweptTo, Tallied, Quiet, BucketOf, Found, Landed, Get, StoppedAt;
  }

  lemma FoundNext(c: Cipher, ring: Ring, start: seq<TokenRow>, batch: seq<TokenRow>, i: nat, races: Races, nonce: nat -> nat,
                  tables: seq<seq<TokenRow>>, table: seq<TokenRow>)
    requires i < |batch| && |tables| == i && Found(c, ring, start, batch, races, nonce, tables)
    requires StoppedAt(c, ring, start, batch, i, races, nonce, table)
    ensures Found(c, ring, start, batch, races, nonce, tables + [table])
  {
    hide StoppedAt;
  }

  lemma SweepEnds(c: Cipher, ring: Ring, start: seq<TokenRow>, batch: seq<TokenRow>, races: Races, nonce: nat -> nat,
                  rows: seq<TokenRow>, tables: seq<seq<TokenRow>>, skipped: nat, rotated: nat, raced: nat, unreadable: seq<string>)
    requires SweepAt(c, ring, start, batch, |batch|, races, nonce, rows, tables, skipped, rotated, raced, unreadable)
    ensures SweptTo(c, ring, start, batch, |batch|, races, nonce, rows)
    ensures Tallied(c, ring, batch, skipped, rotated + raced, unreadable) && (Quiet(races) ==> raced == 0)
    ensures |tables| == |batch| && Found(c, ring, start, batch, races, nonce, tables) && rotated == Landed(c, ring, batch, tables)
  {
    hide SweptTo, Tallied, Quiet, Found, Landed;
    assert batch[..|batch|] == batch;
  }

  function Batch(rows: seq<TokenRow>, limit: nat): seq<TokenRow> {
    Listed(rows)[..Min(limit, |Listed(rows)|)]
  }

  lemma EncryptsAlike(c: Cipher, ring: Ring, nonce: nat)
    ensures EncryptStudioToken(c, ring, "", 0).Ok? <==> EncryptStudioToken(c, ring, "", nonce).Ok?
  {
  }

  lemma NothingSwept(c: Cipher, ring: Ring, rows: seq<TokenRow>, batch: seq<TokenRow>, races: Races, nonce: nat -> nat)
    ensures SweptTo(c, ring, rows, batch, 0, races, nonce, rows) && Tallied(c, ring, batch[..0], 0, 0, [])
  {
    TallyStarts(c, ring, batch);
    hide Tallied;
    assert batch[..0] == [];
  }

  /** The table after one more row: the racing provisions, then the row's own work. */
  lemma SweepOneMore(c: Cipher, ring: Ring, start: seq<TokenRow>, batch: seq<TokenRow>, i: nat, races: Races, nonce: nat -> nat,
                     mid: seq<TokenRow>, raceRows: seq<TokenRow>)
    requires i < |batch| && SweptTo(c, ring, start, batch, i, races, nonce, mid)
    requires CanSteps(c, ring, Minted(races(i))) && raceRows == AfterSteps(c, ring, mid, Minted(races(i)))
    requires BucketOf(c, ring, batch[i].enc) == NeedsRotation ==> EncryptStudioToken(c, ring, "", nonce(i)).Ok?
    ensures SweptTo(c, ring, start, batch, i + 1, races, nonce, RowDone(c, ring, raceRows, batch[i], nonce(i)))
  {
    assert batch[..i + 1][..i] == batch[..i];
    hide AfterSteps, CanSteps, RowDone;
    RowApplied(c, ring, start, SweepSteps(c, ring, batch[..i], races, nonce), batch[i], races(i), nonce(i));
  }

  lemma RowApplied(c: Cipher, ring: Ring, start: seq<TokenRow>, steps: seq<Step>, row: TokenRow, raced: seq<Provision>, nonce: nat)
    requires CanSteps(c, ring, steps) && CanSteps(c, ring, Minted(raced))
    requires BucketOf(c, ring, row.enc) == NeedsRotation ==> EncryptStudioToken(c, ring, "", nonce).Ok?
    ensures var all := steps + RowSteps(c, ring, row, raced, nonce);
            var mid := AfterSteps(c, ring, AfterSteps(c, ring, start, steps), Minted(raced));
            CanSteps(c, ring, all) && AfterSteps(c, ring, start, all) == RowDone(c, ring, mid, row, nonce)
  {
    StepsConcat(c, ring, start, steps, Minted(raced));
    if BucketOf(c, ring, row.enc) == NeedsRotation {
      var last := Rewrite(row.id, row.enc, nonce);
      OneStep(c, ring, AfterSteps(c, ring, start, steps + Minted(raced)), last);
      hide CanSteps, AfterSteps;
      StepsConcat(c, ring, start, steps + Minted(raced), [last]);
      assert steps + (Minted(raced) + [last]) == steps + Minted(raced) + [last];
    } else {
      assert steps + (Minted(raced) + []) == steps + Minted(raced);
    }
  }

  lemma OneStep(c: Cipher, ring: Ring, rows: seq<TokenRow>, step: Step)
    requires CanStep(c, ring, step)
    ensures CanSteps(c, ring, [step]) && AfterSteps(c, ring, rows, [step]) == AfterStep(c, ring, rows, step)
  {
    hide CanStep, AfterStep;
    assert [step][..0] == [];
    assert AfterSteps(c, ring, rows, []) == rows;
  }

  // ---- a sweep nobody races ----

  /** The first `k` listed rows with their work done, the rest untouched. */
  function Swept(c: Cipher, ring: Ring, list: seq<TokenRow>, k: nat, nonce: nat -> nat): seq<TokenRow>
    requires k <= |list| && Writable(c, ring, list, k)
  {
    seq(|list|, j requires 0 <= j < |list| =>
      if j < k && BucketOf(c, ring, list[j].enc) == NeedsRotation
      then list[j].(enc := Resealed(c, ring, list[j].enc, nonce(j))) else list[j])
  }

  lemma {:induction false} ListedIsHeld(rows: seq<TokenRow>, k: nat)
    requires DistinctIds(rows) && k < |Listed(rows)|
    ensures Get(rows, Listed(rows)[k].id) == Some(Listed(rows)[k].enc) && Listed(rows)[k].enc != ""
    ensures Listed(rows)[k] in rows
  {
    if rows[0].enc != "" && k == 0 {
    } else {
      var j := if rows[0].enc != "" then k - 1 else k;
      ListedIsHeld(rows[1..], j);
      var m :| 0 <= m < |rows[1..]| && rows[1..][m] == Listed(rows)[k];
      assert rows[m + 1] == Listed(rows)[k];
    }
  }

  lemma {:induction false} SetAbsent(rows: seq<TokenRow>, id: nat, enc: string)
    requires forall k | 0 <= k < |rows| :: rows[k].id != id
    ensures SetToken(rows, id, enc) == rows
  {
    if rows != [] {
      assert forall k | 0 <= k < |rows| - 1 :: rows[1..][k] == rows[k + 1];
      SetAbsent(rows[1..], id, enc);
    }
  }

  lemma {:induction false} SetKeepsDistinct(rows: seq<TokenRow>, id: nat, enc: string)
    requires DistinctIds(rows)
    ensures DistinctIds(SetToken(rows, id, enc))
  {
    var after := SetToken(rows, id, enc);
    forall k | 0 <= k < |rows|
      ensures after[k].id == rows[k].id
    {
      SetKeepsIds(rows, id, enc, k);
    }
  }

  lemma ListedCons(row: TokenRow, rest: seq<TokenRow>)
    ensures Listed([row] + rest) == (if row.enc != "" then [row] else []) + Listed(rest)
  {
    assert ([row] + rest)[1..] == rest;
  }

  lemma SetCons(row: TokenRow, rest: seq<TokenRow>, id: nat, enc: string)
    ensures SetToken([row] + rest, id, enc) == [if row.id == id then row.(enc := enc) else row] + SetToken(rest, id, enc)
  {
    assert ([row] + rest)[1..] == rest;
  }

  /** Writing one listed row changes exactly that place of the listing. */
  lemma {:induction false} ListedAfterSet(rows: seq<TokenRow>, k: nat, enc: string)
    requires DistinctIds(rows) && k < |Listed(rows)| && enc != ""
    ensures Listed(SetToken(rows, Listed(rows)[k].id, enc)) == Listed(rows)[k := Listed(rows)[k].(enc := enc)]
  {
    hide *;
    ListedSome(rows);
    var row, head, rest := Listed(rows)[k], rows[0], rows[1..];
    assert rows == [head] + rest;
    RestIsDistinct(rows);
    ListedCons(head, rest);
    SetCons(head, rest, row.id, enc);
    if head.enc != "" && k == 0 {
      SetAbsent(rest, row.id, enc);
      ListedCons(head.(enc := enc), rest);
    } else {
      var j := if head.enc != "" then k - 1 else k;
      assert Listed(rest)[j] == row;
      ListedIsHeld(rest, j);
      ListedAfterSet(rest, j, enc);
      ListedCons(head, SetToken(rest, row.id, enc));
    }
  }

  lemma ListedSome(rows: seq<TokenRow>)
    requires Listed(rows) != []
    ensures rows != []
  {
  }

  lemma RestIsDistinct(rows: seq<TokenRow>)
    requires DistinctIds(rows) && rows != []
    ensures DistinctIds(rows[1..]) && forall m | 0 <= m < |rows[1..]| :: rows[1..][m].id != rows[0].id
  {
  }

  lemma SealedIsNotEmpty(c: Cipher, ring: Ring, enc: string, nonce: nat)
    requires Lawful(c) && BucketOf(c, ring, enc) == NeedsRotation && EncryptStudioToken(c, ring, "", nonce).Ok?
    ensures Resealed(c, ring, enc, nonce) != "" && BucketOf(c, ring, Resealed(c, ring, enc, nonce)) == OnTarget
  {
    SealedReads(c, ring, ring.encryptSlot, DecryptWithSlot(c, ring, enc).value.plaintext, nonce);
    hide DecryptWithSlot;
  }

  /** After `k` rows of an unraced sweep the listing is the original one with its first `k` rows done. */
  lemma {:induction false} QuietSweep(c: Cipher, ring: Ring, rows: seq<TokenRow>, limit: nat, k: nat, races: Races, nonce: nat -> nat,
                                      after: seq<TokenRow>)
    requires Lawful(c) && DistinctIds(rows) && Quiet(races)
    requires k <= |Batch(rows, limit)| && SweptTo(c, ring, rows, Batch(rows, limit), k, races, nonce, after)
    requires Writable(c, ring, Listed(rows), k)
    ensures DistinctIds(after) && Listed(after) == Swept(c, ring, Listed(rows), k, nonce)
  {
    var batch, list := Batch(rows, limit), Listed(rows);
    if k == 0 {
      assert batch[..0] == [];
    } else {
      var before := UnsweptOne(c, ring, rows, batch, k, races, nonce, after);
      assert batch[k - 1] == list[k - 1];
      WritableFront(c, ring, list, k);
      EncryptsAlike(c, ring, nonce(k - 1));
      hide Listed, BucketOf, Lawful, DistinctIds, EncryptStudioToken, RowDone, SweptTo, Swept, Batch, Writable;
      QuietSweep(c, ring, rows, limit, k - 1, races, nonce, before);
      QuietStep(c, ring, before, list, k - 1, nonce);
    }
  }

  /** Either the write key seals, or none of the first `k` rows is work. */
  ghost predicate Writable(c: Cipher, ring: Ring, list: seq<TokenRow>, k: nat)
    requires k <= |list|
  {
    EncryptStudioToken(c, ring, "", 0).Ok? || forall j | 0 <= j < k :: BucketOf(c, ring, list[j].enc) != NeedsRotation
  }

  lemma WritableFront(c: Cipher, ring: Ring, list: seq<TokenRow>, k: nat)
    requires 0 < k <= |list| && Writable(c, ring, list, k)
    ensures Writable(c, ring, list, k - 1)
    ensures BucketOf(c, ring, list[k - 1].enc) == NeedsRotation ==> EncryptStudioToken(c, ring, "", 0).Ok?
  {
  }

  /** The table one row earlier. */
  lemma UnsweptOne(c: Cipher, ring: Ring, start: seq<TokenRow>, batch: seq<TokenRow>, k: nat, races: Races, nonce: nat -> nat,
                   after: seq<TokenRow>) returns (before: seq<TokenRow>)
    requires 0 < k <= |batch| && SweptTo(c, ring, start, batch, k, races, nonce, after) && Quiet(races)
    requires BucketOf(c, ring, batch[k - 1].enc) == NeedsRotation ==> EncryptStudioToken(c, ring, "", nonce(k - 1)).Ok?
    ensures SweptTo(c, ring, start, batch, k - 1, races, nonce, before)
    ensures after == RowDone(c, ring, before, batch[k - 1], nonce(k - 1))
  {
    assert batch[..k][..k - 1] == batch[..k - 1];
    var steps, last := SweepSteps(c, ring, batch[..k - 1], races, nonce), RowSteps(c, ring, batch[k - 1], [], nonce(k - 1));
    assert SweepSteps(c, ring, batch[..k], races, nonce) == steps + last;
    assert forall m | 0 <= m < |steps| :: steps[m] == (steps + last)[m];
    assert CanSteps(c, ring, steps);
    before := AfterSteps(c, ring, start, steps);
    NoneMinted(c, ring, before);
    hide BucketOf, AfterSteps, CanSteps, RowDone;
    RowApplied(c, ring, start, steps, batch[k - 1], [], nonce(k - 1));
  }

  lemma QuietStep(c: Cipher, ring: Ring, before: seq<TokenRow>, list: seq<TokenRow>, k: nat, nonce: nat -> nat)
    requires Lawful(c) && DistinctIds(before) && k < |list|
    requires BucketOf(c, ring, list[k].enc) == NeedsRotation ==> EncryptStudioToken(c, ring, "", nonce(k)).Ok?
    requires Writable(c, ring, list, k) && Writable(c, ring, list, k + 1)
    requires Listed(before) == Swept(c, ring, list, k, nonce)
    ensures var after := RowDone(c, ring, before, list[k], nonce(k));
            DistinctIds(after) && Listed(after) == Swept(c, ring, list, k + 1, nonce)
  {
    hide Listed, BucketOf, Lawful, DistinctIds, EncryptStudioToken, Resealed;
    assert Listed(before)[k] == list[k];
    ListedIsHeld(before, k);
    if BucketOf(c, ring, list[k].enc) == NeedsRotation {
      var blob := Resealed(c, ring, list[k].enc, nonce(k));
      SealedIsNotEmpty(c, ring, list[k].enc, nonce(k));
      ListedAfterSet(before, k, blob);
      SetKeepsDistinct(before, list[k].id, blob);
      hide Get, SetToken;
      EncryptsAlike(c, ring, nonce(k));
      assert Swept(c, ring, list, k + 1, nonce) == Swept(c, ring, list, k, nonce)[k := list[k].(enc := blob)];
    } else {
      assert Swept(c, ring, list, k + 1, nonce) == Swept(c, ring, list, k, nonce);
    }
  }

  lemma NoneMinted(c: Cipher, ring: Ring, rows: seq<TokenRow>)
    ensures CanSteps(c, ring, Minted([])) && AfterSteps(c, ring, rows, Minted([])) == rows
  {
  }

  lemma QuietRowUnmoved(c: Cipher, ring: Ring, rows: seq<TokenRow>, limit: nat, i: nat, races: Races, nonce: nat -> nat, mid: seq<TokenRow>)
    requires Lawful(c) && DistinctIds(rows) && Quiet(races)
    requires i < |Batch(rows, limit)| && SweptTo(c, ring, rows, Batch(rows, limit), i, races, nonce, mid)
    ensures BucketOf(c, ring, Batch(rows, limit)[i].enc) == NeedsRotation && EncryptStudioToken(c, ring, "", 0).Ok?
            ==> Get(AfterSteps(c, ring, mid, Minted([])), Batch(rows, limit)[i].id) == Some(Batch(rows, limit)[i].enc)
  {
    if EncryptStudioToken(c, ring, "", 0).Ok? {
      QuietSweep(c, ring, rows, limit, i, races, nonce, mid);
      hide Listed, AfterSteps, BucketOf, Lawful, DistinctIds, EncryptStudioToken, SweptTo;
      ListedIsHeld(mid, i);
      NoneMinted(c, ring, mid);
    }
  }

  /** One whole unraced sweep of at most `limit` rows. */
  function SweepOnce(c: Cipher, ring: Ring, rows: seq<TokenRow>, limit: nat, nonce: nat -> nat): seq<TokenRow>
    requires EncryptStudioToken(c, ring, "", 0).Ok?
  {
    SweepLegal(c, ring, Batch(rows, limit), NO_RACES, nonce);
    AfterSteps(c, ring, rows, SweepSteps(c, ring, Batch(rows, limit), NO_RACES, nonce))
  }

  const NO_RACES: Races := _ => []

  function SweepTimes(c: Cipher, ring: Ring, rows: seq<TokenRow>, limit: nat, nonce: nat -> nat, n: nat): seq<TokenRow>
    requires EncryptStudioToken(c, ring, "", 0).Ok?
  {
    if n == 0 then rows else SweepOnce(c, ring, SweepTimes(c, ring, rows, limit, nonce, n - 1), limit, nonce)
  }

  lemma OneSweep(c: Cipher, ring: Ring, rows: seq<TokenRow>, limit: nat, nonce: nat -> nat)
    requires Lawful(c) && DistinctIds(rows) && EncryptStudioToken(c, ring, "", 0).Ok?
    ensures var after := SweepOnce(c, ring, rows, limit, nonce);
            DistinctIds(after) && Listed(after) == Swept(c, ring, Listed(rows), |Batch(rows, limit)|, nonce)
  {
    hide Listed, AfterSteps, CanSteps, SweepSteps, BucketOf, Lawful, DistinctIds, EncryptStudioToken, Resealed, Swept;
    SweepLegal(c, ring, Batch(rows, limit), NO_RACES, nonce);
    assert Batch(rows, limit)[..|Batch(rows, limit)|] == Batch(rows, limit);
    QuietSweep(c, ring, rows, limit, |Batch(rows, limit)|, NO_RACES, nonce, SweepOnce(c, ring, rows, limit, nonce));
  }

  /** However often it runs, a bounded sweep works on the same first `limit` rows and leaves the rest alone. */
  lemma {:induction false} RepeatedSweeps(c: Cipher, ring: Ring, rows: seq<TokenRow>, limit: nat, nonce: nat -> nat, n: nat)
    requires Lawful(c) && DistinctIds(rows) && EncryptStudioToken(c, ring, "", 0).Ok?
    ensures var after, list := SweepTimes(c, ring, rows, limit, nonce, n), Listed(rows);
            && DistinctIds(after) && |Listed(after)| == |list|
            && (forall j | 0 <= j < |list| && (j >= limit || n == 0) :: Listed(after)[j] == list[j])
            && (n >= 1 ==> forall j | 0 <= j < |list| && j < limit :: BucketOf(c, ring, Listed(after)[j].enc) != NeedsRotation)
  {
    hide *;
    if n == 0 {
      NoSweeps(c, ring, rows, limit, nonce);
    } else {
      var before := SweepTimes(c, ring, rows, limit, nonce, n - 1);
      RepeatedSweeps(c, ring, rows, limit, nonce, n - 1);
      OneSweep(c, ring, before, limit, nonce);
      BatchIs(before, limit);
      LastSweep(c, ring, rows, limit, nonce, n);
      var k := |Batch(before, limit)|;
      NothingToWrite(c, ring, Listed(before), k);
      SweptBatch(c, ring, Listed(before), k, nonce);
      MinIs(limit, |Listed(before)|);
    }
  }

  lemma MinIs(a: int, b: int)
    ensures Min(a, b) == if a < b then a else b
  {
  }

  lemma NoSweeps(c: Cipher, ring: Ring, rows: seq<TokenRow>, limit: nat, nonce: nat -> nat)
    requires EncryptStudioToken(c, ring, "", 0).Ok?
    ensures SweepTimes(c, ring, rows, limit, nonce, 0) == rows
  {
  }

  lemma LastSweep(c: Cipher, ring: Ring, rows: seq<TokenRow>, limit: nat, nonce: nat -> nat, n: nat)
    requires EncryptStudioToken(c, ring, "", 0).Ok? && n >= 1
    ensures SweepTimes(c, ring, rows, limit, nonce, n) == SweepOnce(c, ring, SweepTimes(c, ring, rows, limit, nonce, n - 1), limit, nonce)
  {
    hide SweepOnce, EncryptStudioToken;
  }

  lemma NothingToWrite(c: Cipher, ring: Ring, list: seq<TokenRow>, k: nat)
    requires EncryptStudioToken(c, ring, "", 0).Ok? && k <= |list|
    ensures Writable(c, ring, list, k)
  {
  }

  lemma SweptBatch(c: Cipher, ring: Ring, list: seq<TokenRow>, k: nat, nonce: nat -> nat)
    requires Lawful(c) && EncryptStudioToken(c, ring, "", 0).Ok? && k <= |list|
    ensures var done := Swept(c, ring, list, k, nonce);
            && |done| == |list|
            && (forall j | k <= j < |list| :: done[j] == list[j])
            && forall j | 0 <= j < k :: BucketOf(c, ring, done[j].enc) != NeedsRotation
  {
    hide BucketOf, Lawful, EncryptStudioToken, Resealed;
    forall j | 0 <= j < k
      ensures BucketOf(c, ring, Swept(c, ring, list, k, nonce)[j].enc) != NeedsRotation
    {
      if BucketOf(c, ring, list[j].enc) == NeedsRotation {
        EncryptsAlike(c, ring, nonce(j));
        SealedIsNotEmpty(c, ring, list[j].enc, nonce(j));
      }
    }
  }

  /**
   Convergence, exactly. After one or more unraced sweeps no row still needs rotation if and only if none of
   the rows beyond the first `limit` did: the sweep takes the same batch every time, so running it again
   never reaches them.
   */
  lemma ConvergesExactly(c: Cipher, ring: Ring, rows: seq<TokenRow>, limit: nat, nonce: nat -> nat, n: nat)
    requires Lawful(c) && DistinctIds(rows) && EncryptStudioToken(c, ring, "", 0).Ok? && n >= 1
    ensures var after, list := SweepTimes(c, ring, rows, limit, nonce, n), Listed(rows);
            CountIn(c, ring, Listed(after), NeedsRotation) == 0
            <==> forall j | limit <= j < |list| :: BucketOf(c, ring, list[j].enc) != NeedsRotation
  {
    var after, list := SweepTimes(c, ring, rows, limit, nonce, n), Listed(rows);
    RepeatedSweeps(c, ring, rows, limit, nonce, n);
    CountZeroMeansNone(c, ring, Listed(after), NeedsRotation);
    hide SweepTimes, Listed, BucketOf, Lawful, DistinctIds, EncryptStudioToken, CountIn;
    if CountIn(c, ring, Listed(after), NeedsRotation) == 0 {
      forall j | limit <= j < |list|
        ensures BucketOf(c, ring, list[j].enc) != NeedsRotation
      {
        assert Listed(after)[j] == list[j];
      }
    } else {
      var j :| 0 <= j < |Listed(after)| && BucketOf(c, ring, Listed(after)[j].enc) == NeedsRotation;
      assert j >= limit && list[j] == Listed(after)[j];
    }
  }

  lemma {:induction false} ListedAll(rows: seq<TokenRow>)
    requires forall k | 0 <= k < |rows| :: rows[k].enc != ""
    ensures Listed(rows) == rows
  {
    if rows != [] {
      assert forall k | 0 <= k < |rows| - 1 :: rows[1..][k] == rows[k + 1];
      ListedAll(rows[1..]);
    }
  }

  /** One tenant more than a sweep takes, each with a token under the old key. */
  function OneTooMany(limit: nat): seq<TokenRow> {
    seq(limit + 1, k requires 0 <= k <= limit => TokenRow(k, "tenant", "a" + "token"))
  }

  /** Whatever the limit, such a table never converges: after any number of unraced sweeps a row still needs rotation. */
  lemma OneRowTooMany(limit: nat, nonce: nat -> nat, n: nat)
    requires n >= 1
    ensures var c, ring := KEY_IN_FRONT, Ring("a", Some("b"), Next);
            && Lawful(c) && DistinctIds(OneTooMany(limit)) && EncryptStudioToken(c, ring, "", 0).Ok?
            && CountIn(c, ring, Listed(SweepTimes(c, ring, OneTooMany(limit), limit, nonce, n)), NeedsRotation) > 0
  {
    var c, ring, rows := KEY_IN_FRONT, Ring("a", Some("b"), Next), OneTooMany(limit);
    LawfulCipherExists();
    assert c.seal("a", "token", 0) == "a" + "token";
    assert BucketOf(c, ring, rows[limit].enc) == NeedsRotation;
    ListedAll(rows);
    hide Lawful, BucketOf, SweepTimes, Listed;
    ConvergesExactly(c, ring, rows, limit, nonce, n);
  }

  // ---- promotion ----

  /** The ring once the other key is gone. */
  function Promoted(ring: Ring): Ring {
    match ring.encryptSlot
    case Primary => Ring(ring.primary, None, Primary)
    case Next => Ring(if ring.next.Some? then ring.next.value else "", None, Primary)
  }

  lemma PromotedReads(c: Cipher, ring: Ring, blob: string)
    ensures DecryptWithSlot(c, Promoted(ring), blob)
            == if BucketOf(c, ring, blob) == OnTarget then Some(Opened(Primary, DecryptWithSlot(c, ring, blob).value.plaintext)) else None
  {
  }

  /** Every listed row is on the write key: what a census with `safeToPromote` found. */
  ghost predicate AllOnTarget(c: Cipher, ring: Ring, rows: seq<TokenRow>) {
    forall id | Get(rows, id).Some? && Get(rows, id).value != "" :: BucketOf(c, ring, Get(rows, id).value) == OnTarget
  }

  lemma {:induction false} HeldIsListed(rows: seq<TokenRow>, id: nat)
    requires Get(rows, id).Some? && Get(rows, id).value != ""
    ensures exists k :: 0 <= k < |Listed(rows)| && Listed(rows)[k].enc == Get(rows, id).value
  {
    if rows[0].id != id {
      HeldIsListed(rows[1..], id);
      var k :| 0 <= k < |Listed(rows[1..])| && Listed(rows[1..])[k].enc == Get(rows, id).value;
      assert Listed(rows)[if rows[0].enc != "" then k + 1 else k] == Listed(rows[1..])[k];
    } else {
      assert Listed(rows)[0] == rows[0];
    }
  }

  lemma SafeCensusMeansAllOnTarget(c: Cipher, ring: Ring, rows: seq<TokenRow>)
    requires forall k | 0 <= k < |Listed(rows)| :: BucketOf(c, ring, Listed(rows)[k].enc) == OnTarget
    ensures AllOnTarget(c, ring, rows)
  {
    hide BucketOf;
    forall id | Get(rows, id).Some? && Get(rows, id).value != ""
      ensures BucketOf(c, ring, Get(rows, id).value) == OnTarget
    {
      HeldIsListed(rows, id);
    }
  }

  /**
   Promotion. Once every row is on the write key, dropping the other key changes no tenant's token, and any
   later steps keep it so, sweeps and mints alike, as long as the mints use the write slot.
   */
  lemma {:induction false} PromotionIsSafe(c: Cipher, ring: Ring, rows: seq<TokenRow>, truth: map<nat, string>, steps: seq<Step>)
    requires Lawful(c) && CanSteps(c, ring, steps) && AllOnTarget(c, ring, rows)
    requires Kept(c, ring, rows, truth) && forall id | id in truth && Get(rows, id).Some? :: Get(rows, id).value != ""
    requires forall k | 0 <= k < |steps| && steps[k].Mint? :: steps[k].p.slot == ring.encryptSlot
    ensures var after, known := AfterSteps(c, ring, rows, steps), TruthAfter(truth, steps);
            && AllOnTarget(c, ring, after) && Kept(c, Promoted(ring), after, known)
            && forall id | id in known && Get(after, id).Some? :: Get(after, id).value != ""
  {
    RotationNeverLosesAToken(c, ring, rows, truth, steps);
    if steps == [] {
      hide BucketOf, DecryptWithSlot, Get;
      forall blob { PromotedReads(c, ring, blob); }
    } else {
      var front, step := steps[..|steps| - 1], steps[|steps| - 1];
      assert forall k | 0 <= k < |front| :: front[k] == steps[k];
      PromotionIsSafe(c, ring, rows, truth, front);
      var before := AfterSteps(c, ring, rows, front);
      TargetKept(c, ring, before, TruthAfter(truth, front), step);
      hide BucketOf, DecryptWithSlot, Get, AfterStep, CanStep;
      forall blob { PromotedReads(c, ring, blob); }
    }
  }

  lemma TargetKept(c: Cipher, ring: Ring, rows: seq<TokenRow>, truth: map<nat, string>, step: Step)
    requires Lawful(c) && CanStep(c, ring, step) && AllOnTarget(c, ring, rows)
    requires forall id | id in truth && Get(rows, id).Some? :: Get(rows, id).value != ""
    requires step.Mint? ==> step.p.slot == ring.encryptSlot
    ensures var after := AfterStep(c, ring, rows, step);
            AllOnTarget(c, ring, after)
            && forall id | id in AfterTruth(truth, step) && Get(after, id).Some? :: Get(after, id).value != ""
  {
    hide DecryptWithSlot, Get, SetToken;
    match step
    case Mint(p) =>
      var blob := c.seal(SlotKey(ring, p.slot).value, p.text, p.nonce);
      SealedReads(c, ring, p.slot, p.text, p.nonce);
      assert BucketOf(c, ring, blob) == OnTarget && blob != "";
      forall id { GetAfterSet(rows, p.id, blob, id); }
    case Rewrite(id, expected, nonce) =>
      var blob := Resealed(c, ring, expected, nonce);
      SealedIsNotEmpty(c, ring, expected, nonce);
      forall other { GetAfterSet(rows, id, blob, other); }
  }

  /** A mint after the census keeps promotion safe exactly when its key is the write key. */
  lemma MintUnderOtherKeyBreaksPromotion(c: Cipher, ring: Ring, rows: seq<TokenRow>, p: Provision)
    requires Lawful(c) && CanProvision(c, ring, p) && AllOnTarget(c, ring, rows) && Get(rows, p.id).Some?
    ensures var after := AfterStep(c, ring, rows, Mint(p));
            AllOnTarget(c, ring, after) <==> SlotKey(ring, p.slot) == SlotKey(ring, ring.encryptSlot)
  {
    var blob := c.seal(SlotKey(ring, p.slot).value, p.text, p.nonce);
    SealedReads(c, ring, p.slot, p.text, p.nonce);
    assert blob != "";
    assert BucketOf(c, ring, blob) == OnTarget <==> SlotKey(ring, p.slot) == SlotKey(ring, ring.encryptSlot);
    hide BucketOf, DecryptWithSlot, Get, SlotKey, Lawful;
    forall id { GetAfterSet(rows, p.id, blob, id); }
    assert Get(AfterStep(c, ring, rows, Mint(p)), p.id) == Some(blob);
  }
}
