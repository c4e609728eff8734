/**
 * Share submission: the nonce byte-order flip, the block-blob splice and the
 * stale / invalid / share / block classification of one submitted solution.
 */
module Miner {
  import Hex
  import Blocks

  // ------------------------------------------------------------ nonce flip

  /** The two-character groups (bytes) of `s` in reverse order. */
  function SwapPairs(s: string): (r: string)
    requires |s| % 2 == 0
    ensures |r| == |s|
    decreases |s|
  {
    if s == [] then [] else SwapPairs(s[2..]) + s[..2]
  }

  /** Character `j` of the flipped string comes from the mirrored byte, same half. */
  lemma {:induction false} SwapPairsAt(s: string, j: int)
    requires |s| % 2 == 0 && 0 <= j < |s|
    ensures SwapPairs(s)[j] == s[|s| - 2 - 2 * (j / 2) + j % 2]
    decreases |s|
  {
    if j < |s| - 2 {
      SwapPairsAt(s[2..], j);
    }
  }

  lemma {:induction false} SwapPairsAppend(a: string, b: string)
    requires |a| % 2 == 0 && |b| % 2 == 0
    ensures SwapPairs(a + b) == SwapPairs(b) + SwapPairs(a)
    decreases |a|
  {
    if a == [] {
      assert a + b == b;
    } else {
      assert (a + b)[2..] == a[2..] + b && (a + b)[..2] == a[..2];
      SwapPairsAppend(a[2..], b);
    }
  }

  /** Flipping twice gives the digits back. */
  lemma {:induction false} SwapPairsTwice(s: string)
    requires |s| % 2 == 0
    ensures SwapPairs(SwapPairs(s)) == s
    decreases |s|
  {
    if s != [] {
      SwapPairsAppend(SwapPairs(s[2..]), s[..2]);
      assert SwapPairs(s[..2]) == s[..2] by {
        assert s[..2][2..] == [];
      }
      SwapPairsTwice(s[2..]);
      assert s[..2] + s[2..] == s;
    }
  }

  /**
   * The flip loop: byte group i of the padded nonce is written to the mirrored
   * position of a fresh 16-character buffer.
   */
  method FlipNonce(digits: string) returns (flipped: string)
    requires |digits| >= 16
    ensures flipped == SwapPairs(digits[..16])
  {
    var buf := new char[16];
    var i := 0;
    while i < 16
      invariant 0 <= i <= 16 && i % 2 == 0
      invariant forall j :: 16 - i <= j < 16 ==> buf[j] == SwapPairs(digits[..16])[j]
    {
      SwapPairsAt(digits[..16], 16 - i - 1);
      SwapPairsAt(digits[..16], 16 - i - 2);
      buf[16 - i - 1] := digits[i + 1];
      buf[16 - i - 2] := digits[i];
      i := i + 2;
    }
    flipped := buf[..];
  }

  /** The digits after the "0x" of a nonce, as the protocol sends it. */
  predicate WellFormedNonce(nonceHex: string) {
    |nonceHex| > 2 && Hex.IsHex(nonceHex[2..])
  }

  /** The flipped nonce of `nonceHex`: its value padded to 16 digits, bytes reversed. */
  function FlippedNonce(nonceHex: string): (r: string)
    requires WellFormedNonce(nonceHex)
    ensures |r| == 16
  {
    SwapPairs(Hex.Padded16(Hex.Value(nonceHex[2..]))[..16])
  }

  /** For a 64-bit nonce the flip reverses exactly the sixteen digits of its value, and is undone by flipping again. */
  lemma FlippedNonceSpec(nonceHex: string)
    requires WellFormedNonce(nonceHex) && Hex.Value(nonceHex[2..]) < 0x1_0000_0000_0000_0000
    ensures var padded := Hex.Padded16(Hex.Value(nonceHex[2..]));
            |padded| == 16 && Hex.Value(padded) == Hex.Value(nonceHex[2..])
            && SwapPairs(FlippedNonce(nonceHex)) == padded
  {
    var padded := Hex.Padded16(Hex.Value(nonceHex[2..]));
    Hex.Padded16Nonce(Hex.Value(nonceHex[2..]));
    assert padded[..16] == padded;
    SwapPairsTwice(padded);
  }

  // ------------------------------------------------------------ blob splice

  /**
   * The block submitted to the daemon: the cached blob without its "0x"
   * prefix, with the 16 nonce characters at offsets 2..17 replaced.
   */
  function SpliceBlob(blob: string, flipped: string): (r: string)
    requires |blob| >= 20 && |flipped| == 16
    ensures |r| == |blob| - 2
    ensures forall i :: 0 <= i < |r| ==> r[i] == if 2 <= i < 18 then flipped[i - 2] else blob[i + 2]
  {
    blob[2..4] + flipped + blob[20..]
  }

  // ------------------------------------------------------- classification

  /** The parameters of one VerifySolution call. */
  datatype VerifyRequest = VerifyRequest(nonceHex: string, hashNoNonce: string, mixDigest: string,
                                         height: nat, difficulty: int)

  /** The duplicate-detection key of a solution. */
  datatype Fingerprint = Fingerprint(nonceHex: string, hashNoNonce: string, mixDigest: string)

  /** The daemon's submitblock answer: an RPC error, or whether the block was accepted. */
  datatype SubmitReply = SubmitError | SubmitAnswer(ok: bool)

  /**
   * Oracle answers: the verifier's verdict on a request, the daemon's answer to a
   * submitted blob, and whether a backend write fails (without a duplicate).
   */
  datatype Oracles = Oracles(verify: VerifyRequest -> bool, submit: string -> SubmitReply, writeFails: bool)

  /** The side effects of a submission, in the order they happen. */
  datatype Effect =
    | Verify(request: VerifyRequest)
    | LogIP(login: string, ip: string)
    | SubmitBlock(blob: string)
    | RefreshTemplate
    | WriteBlock(login: string, id: string, fingerprint: Fingerprint, shareDiff: int, blockDiff: int, height: nat)
    | WriteShare(login: string, id: string, fingerprint: Fingerprint, shareDiff: int, height: nat)

  /** The submission's inputs: who sent it and the three solution parameters. */
  datatype Submission = Submission(login: string, id: string, ip: string,
                                   nonceHex: string, hashNoNonce: string, mixDigest: string)

  /** `(duplicate, accepted)`, the effects, and the backend's fingerprint set afterwards. */
  datatype Outcome = Outcome(duplicate: bool, accepted: bool, effects: seq<Effect>, seen: set<Fingerprint>)

  predicate IsWrite(e: Effect) {
    e.WriteBlock? || e.WriteShare?
  }

  function FingerprintOf(s: Submission): Fingerprint {
    Fingerprint(s.nonceHex, s.hashNoNonce, s.mixDigest)
  }

  function ShareRequest(s: Submission, h: Blocks.HeightDiffPair, shareDiff: int): VerifyRequest {
    VerifyRequest(s.nonceHex, s.hashNoNonce, s.mixDigest, h.height, shareDiff)
  }

  function BlockRequest(s: Submission, h: Blocks.HeightDiffPair): VerifyRequest {
    VerifyRequest(s.nonceHex, s.hashNoNonce, s.mixDigest, h.height, h.diff)
  }

  /** The block path is reached: the header is known and both verifier checks pass. */
  predicate ReachesBlock(t: Blocks.BlockTemplate, s: Submission, shareDiff: int, o: Oracles) {
    s.hashNoNonce in t.headers
    && o.verify(ShareRequest(s, t.headers[s.hashNoNonce], shareDiff))
    && o.verify(BlockRequest(s, t.headers[s.hashNoNonce]))
  }

  /**
   * A duplicate-checked backend write: a known fingerprint is reported as
   * existing; otherwise the write records it unless it fails.
   */
  function Write(seen: set<Fingerprint>, fp: Fingerprint, fails: bool): (bool, set<Fingerprint>) {
    if fp in seen then (true, seen)
    else if fails then (false, seen)
    else (false, seen + {fp})
  }

  /**
   * The reply after a duplicate-checked write of `effects`' last record:
   * a duplicate when the fingerprint was known, otherwise acknowledged.
   */
  function Recorded(effects: seq<Effect>, seen: set<Fingerprint>, fp: Fingerprint, fails: bool): (r: Outcome)
    ensures r.effects == effects
    ensures r.duplicate <==> fp in seen
    ensures r.accepted <==> fp !in seen
    ensures r.seen == if fp !in seen && !fails then seen + {fp} else seen
  {
    var (exist, seen') := Write(seen, fp, fails);
    if exist then Outcome(true, false, effects, seen') else Outcome(false, true, effects, seen')
  }

  /** processShare against the template snapshot `t` and the backend's fingerprint set `seen`. */
  function ProcessShare(t: Blocks.BlockTemplate, s: Submission, shareDiff: int, o: Oracles,
                        seen: set<Fingerprint>): (r: Outcome)
    requires WellFormedNonce(s.nonceHex)
    requires ReachesBlock(t, s, shareDiff, o) ==> |t.blob| >= 20
    // stale: nothing is called and nothing is written
    ensures s.hashNoNonce !in t.headers ==> r == Outcome(false, false, [], seen)
    // the low bar uses the configured difficulty, the high bar the header's own; both its height
    ensures s.hashNoNonce in t.headers ==>
              |r.effects| >= 1 && r.effects[0] == Verify(VerifyRequest(s.nonceHex, s.hashNoNonce, s.mixDigest,
                                                   t.headers[s.hashNoNonce].height, shareDiff))
    // invalid: only the low-bar check happened
    ensures s.hashNoNonce in t.headers && !o.verify(ShareRequest(s, t.headers[s.hashNoNonce], shareDiff)) ==>
              !r.duplicate && !r.accepted && |r.effects| == 1 && r.seen == seen
    // a valid share logs the IP exactly once, before the high-bar check
    ensures s.hashNoNonce in t.headers && o.verify(ShareRequest(s, t.headers[s.hashNoNonce], shareDiff)) ==>
              && |r.effects| >= 3
              && r.effects[1] == LogIP(s.login, s.ip)
              && r.effects[2] == Verify(VerifyRequest(s.nonceHex, s.hashNoNonce, s.mixDigest,
                                                      t.headers[s.hashNoNonce].height, t.headers[s.hashNoNonce].diff))
              && forall i :: 0 <= i < |r.effects| && i != 1 ==> !r.effects[i].LogIP?
    // a block is written only after the daemon accepted it and the template was refreshed
    ensures forall i :: 0 <= i < |r.effects| && r.effects[i].WriteBlock? ==>
              && ReachesBlock(t, s, shareDiff, o)
              && o.submit(SpliceBlob(t.blob, FlippedNonce(s.nonceHex))) == SubmitAnswer(true)
              && i == 5 && i == |r.effects| - 1 && r.effects[3] == SubmitBlock(SpliceBlob(t.blob, FlippedNonce(s.nonceHex)))
              && r.effects[4] == RefreshTemplate
    // a share is written only when the high-bar check fails, and never together with a block
    ensures forall i :: 0 <= i < |r.effects| && r.effects[i].WriteShare? ==>
              !ReachesBlock(t, s, shareDiff, o) && i == 3 && i == |r.effects| - 1
    // a valid share below the block bar is written as a share and acknowledged, unless it is a duplicate
    ensures s.hashNoNonce in t.headers && o.verify(ShareRequest(s, t.headers[s.hashNoNonce], shareDiff))
            && !o.verify(BlockRequest(s, t.headers[s.hashNoNonce])) ==>
              && |r.effects| == 4
              && r.effects[3] == WriteShare(s.login, s.id, FingerprintOf(s), shareDiff, t.headers[s.hashNoNonce].height)
              && (r.duplicate <==> FingerprintOf(s) in seen) && r.accepted == !r.duplicate
              && r.seen == (if FingerprintOf(s) !in seen && !o.writeFails then seen + {FingerprintOf(s)} else seen)
    // a block the daemon accepted refreshes the template, is written as a block and acknowledged, unless it is a duplicate
    ensures ReachesBlock(t, s, shareDiff, o)
            && o.submit(SpliceBlob(t.blob, FlippedNonce(s.nonceHex))) == SubmitAnswer(true) ==>
              && |r.effects| == 6
              && r.effects[3] == SubmitBlock(SpliceBlob(t.blob, FlippedNonce(s.nonceHex)))
              && r.effects[4] == RefreshTemplate
              && r.effects[5] == WriteBlock(s.login, s.id, FingerprintOf(s), shareDiff,
                                            t.headers[s.hashNoNonce].diff, t.headers[s.hashNoNonce].height)
              && (r.duplicate <==> FingerprintOf(s) in seen) && r.accepted == !r.duplicate
              && r.seen == (if FingerprintOf(s) !in seen && !o.writeFails then seen + {FingerprintOf(s)} else seen)
    // a daemon rejection or an RPC error: the spliced blob was submitted last, with no refresh and no write
    ensures ReachesBlock(t, s, shareDiff, o)
            && o.submit(SpliceBlob(t.blob, FlippedNonce(s.nonceHex))) != SubmitAnswer(true) ==>
              && |r.effects| == 4 && r.effects[3] == SubmitBlock(SpliceBlob(t.blob, FlippedNonce(s.nonceHex)))
              && !r.duplicate && r.seen == seen
    // a rejection credits nothing; an RPC error is still acknowledged
    ensures ReachesBlock(t, s, shareDiff, o)
            && o.submit(SpliceBlob(t.blob, FlippedNonce(s.nonceHex))) == SubmitAnswer(false) ==>
              !r.accepted
    ensures ReachesBlock(t, s, shareDiff, o)
            && o.submit(SpliceBlob(t.blob, FlippedNonce(s.nonceHex))) == SubmitError ==>
              r.accepted
    // duplicate exactly when a write found the fingerprint already recorded
    ensures r.duplicate <==> |r.effects| > 0 && IsWrite(r.effects[|r.effects| - 1]) && FingerprintOf(s) in seen
    ensures !(r.duplicate && r.accepted)
    // the fingerprint set only grows, by this solution, and only when it is acknowledged
    ensures r.seen == seen || (r.seen == seen + {FingerprintOf(s)} && r.accepted && FingerprintOf(s) !in seen)
  {
    if s.hashNoNonce !in t.headers then
      Outcome(false, false, [], seen)
    else
      var h := t.headers[s.hashNoNonce];
      var share := ShareRequest(s, h, shareDiff);
      var block := BlockRequest(s, h);
      if !o.verify(share) then
        Outcome(false, false, [Verify(share)], seen)
      else
        var fp := FingerprintOf(s);
        if o.verify(block) then
          var blob := SpliceBlob(t.blob, FlippedNonce(s.nonceHex));
          var submitted := [Verify(share), LogIP(s.login, s.ip), Verify(block), SubmitBlock(blob)];
          match o.submit(blob)
          case SubmitError => Outcome(false, true, submitted, seen)
          case SubmitAnswer(ok) =>
            if !ok then Outcome(false, false, submitted, seen)
            else
              Recorded([Verify(share), LogIP(s.login, s.ip), Verify(block), SubmitBlock(blob), RefreshTemplate,
                        WriteBlock(s.login, s.id, fp, shareDiff, h.diff, h.height)], seen, fp, o.writeFails)
        else
          Recorded([Verify(share), LogIP(s.login, s.ip), Verify(block), WriteShare(s.login, s.id, fp, shareDiff, h.height)],
                   seen, fp, o.writeFails)
  }

  /**
   * processShare as the source runs it: the flip loop first, then the checks
   * one after the other with early returns, the effects recorded as they
   * happen and the submitted blob spliced from the loop's own buffer.
   */
  method ProcessShareMethod(t: Blocks.BlockTemplate, s: Submission, shareDiff: int, o: Oracles,
                            seen: set<Fingerprint>) returns (r: Outcome)
    requires WellFormedNonce(s.nonceHex)
    requires ReachesBlock(t, s, shareDiff, o) ==> |t.blob| >= 20
    ensures r == ProcessShare(t, s, shareDiff, o, seen)
  {
    var flipped := FlipNonce(Hex.Padded16(Hex.Value(s.nonceHex[2..])));
    if s.hashNoNonce !in t.headers {
      return Outcome(false, false, [], seen);
    }
    var h := t.headers[s.hashNoNonce];
    var share := ShareRequest(s, h, shareDiff);
    var effects := [Verify(share)];
    if !o.verify(share) {
      return Outcome(false, false, effects, seen);
    }
    var block := BlockRequest(s, h);
    effects := effects + [LogIP(s.login, s.ip), Verify(block)];
    var fp := FingerprintOf(s);
    var written := seen;
    if o.verify(block) {
      var blob := SpliceBlob(t.blob, flipped);
      effects := effects + [SubmitBlock(blob)];
      var reply := o.submit(blob);
      if reply == SubmitAnswer(false) {
        return Outcome(false, false, effects, seen);
      } else if reply == SubmitAnswer(true) {
        effects := effects + [RefreshTemplate, WriteBlock(s.login, s.id, fp, shareDiff, h.diff, h.height)];
        var w := Write(seen, fp, o.writeFails);
        if w.0 {
          return Outcome(true, false, effects, w.1);
        }
        written := w.1;
      }
    } else {
      effects := effects + [WriteShare(s.login, s.id, fp, shareDiff, h.height)];
      var w := Write(seen, fp, o.writeFails);
      if w.0 {
        return Outcome(true, false, effects, w.1);
      }
      written := w.1;
    }
    r := Outcome(false, true, effects, written);
  }

  /** The same solution submitted again after it was recorded is reported as a duplicate, and writes nothing new. */
  lemma ResubmissionIsDuplicate(t: Blocks.BlockTemplate, s: Submission, shareDiff: int, o: Oracles,
                                seen: set<Fingerprint>)
    requires WellFormedNonce(s.nonceHex)
    requires ReachesBlock(t, s, shareDiff, o) ==> |t.blob| >= 20
    requires ProcessShare(t, s, shareDiff, o, seen).seen != seen
    ensures var first := ProcessShare(t, s, shareDiff, o, seen);
            var second := ProcessShare(t, s, shareDiff, o, first.seen);
            first.accepted && !first.duplicate && second.duplicate && !second.accepted
            && second.seen == first.seen
  {
  }
}
