/**
 * The block-template store of the stratum proxy: the current job and the
 * backlog of recent job headers against which late solutions are checked.
 */
module Blocks {
  import opened Optional
  import U = Uint64
  import Hex

  /** How many heights back a job header stays valid. */
  const MaxBacklog: U.U64 := 3

  /** The difficulty and height a job header was issued with. */
  datatype HeightDiffPair = HeightDiffPair(diff: int, height: U.U64)

  /** An immutable snapshot of the current work; `headers` is the backlog. */
  datatype BlockTemplate = BlockTemplate(
    header: string,
    seed: string,
    target: string,
    prevHash: string,
    blob: string,
    difficulty: int,
    height: U.U64,
    headers: map<string, HeightDiffPair>)

  /** The five strings of a getwork reply: header, seed, target, height in hex, blob. */
  datatype WorkReply = WorkReply(header: string, seed: string, target: string, number: string, blob: string)

  /** Calls made to the daemon by a refresh. */
  datatype DaemonCall = GetLatestBlock | GetWork

  /** The outcome of a refresh: the template now stored, and the daemon calls made. */
  datatype Refresh = Refresh(template: Option<BlockTemplate>, calls: seq<DaemonCall>)

  /** An old backlog entry survives next to a new job at `height`: the comparison is done in uint64. */
  predicate Recent(v: HeightDiffPair, height: U.U64) {
    v.height > U.Sub(height, MaxBacklog)
  }

  /** The old entries that are carried over into the new backlog. */
  function Carried(prev: map<string, HeightDiffPair>, height: U.U64): map<string, HeightDiffPair> {
    map k | k in prev && Recent(prev[k], height) :: prev[k]
  }

  /**
   * The backlog of a new template: the fresh header's pair, overwritten by any
   * recent old entry under the same key, together with every recent old entry.
   */
  function Backlog(prev: map<string, HeightDiffPair>, key: string, newPair: HeightDiffPair, height: U.U64)
    : (r: map<string, HeightDiffPair>)
    ensures key in r
    ensures forall k :: k in r ==> k == key || k in prev
    ensures forall k :: k in prev && Recent(prev[k], height) ==> k in r && r[k] == prev[k]
    ensures forall k :: k in prev && k != key && !Recent(prev[k], height) ==> k !in r
    ensures forall k :: k in r ==> r[k] == newPair || (k in prev && r[k] == prev[k] && Recent(prev[k], height))
    ensures (key !in prev || !Recent(prev[key], height)) ==> r[key] == newPair
    ensures newPair.height == height ==> forall k :: k in r ==> r[k].height + MaxBacklog > height
  {
    map[key := newPair] + Carried(prev, height)
  }

  /** No backlog entry is at or below `height - MaxBacklog` (counted in integers). */
  ghost predicate Bounded(t: BlockTemplate) {
    forall k :: k in t.headers ==> t.headers[k].height + MaxBacklog > t.height
  }

  /** The template built from a getwork reply, on top of the current one (if any). */
  function NewTemplate(cur: Option<BlockTemplate>, latestHash: string, reply: WorkReply, targetToDiff: string -> int)
    : BlockTemplate
  {
    var diff := targetToDiff(reply.target);
    var height := Hex.ParseUint(Hex.StripAll0x(reply.number));
    var prev := if cur.Some? then cur.value.headers else map[];
    BlockTemplate(reply.header, reply.seed, reply.target, latestHash, reply.blob, diff, height,
                  Backlog(prev, reply.header, HeightDiffPair(diff, height), height))
  }

  /**
   * One refresh. `latest` is the latest block hash (None: the RPC failed);
   * `work` is what getwork would answer (None: it fails); `targetToDiff` is the
   * target-to-difficulty conversion.
   */
  function NextTemplate(cur: Option<BlockTemplate>, latest: Option<string>, work: Option<WorkReply>,
                        targetToDiff: string -> int): (r: Refresh)
    ensures latest.None? ==> r == Refresh(cur, [GetLatestBlock])
    ensures cur.Some? && latest == Some(cur.value.prevHash) ==> r == Refresh(cur, [GetLatestBlock])
    ensures GetWork in r.calls <==> latest.Some? && (cur.None? || cur.value.prevHash != latest.value)
    ensures GetWork in r.calls && work.None? ==> r.template == cur
    ensures latest.Some? && (cur.None? || cur.value.prevHash != latest.value) && work.Some? ==>
              && r.calls == [GetLatestBlock, GetWork] && r.template.Some?
              && var n, w := r.template.value, work.value;
                 && n.header == w.header && n.seed == w.seed && n.target == w.target && n.blob == w.blob
                 && n.prevHash == latest.value
                 && n.difficulty == targetToDiff(w.target)
                 && n.height == Hex.ParseUint(Hex.StripAll0x(w.number))
                 && n.headers == Backlog(if cur.Some? then cur.value.headers else map[], w.header,
                                         HeightDiffPair(n.difficulty, n.height), n.height)
    ensures r.template != cur ==>
              && r.template.Some? && latest.Some? && work.Some?
              && r.template.value.header == work.value.header
              && r.template.value.prevHash == latest.value
              && r.template.value.header in r.template.value.headers
              && Bounded(r.template.value)
    ensures cur.None? && r.template.Some? ==>
              r.template.value.headers == map[work.value.header := HeightDiffPair(r.template.value.difficulty, r.template.value.height)]
  {
    if latest.None? then Refresh(cur, [GetLatestBlock])
    else if cur.Some? && cur.value.prevHash == latest.value then Refresh(cur, [GetLatestBlock])
    else if work.None? then Refresh(cur, [GetLatestBlock, GetWork])
    else Refresh(Some(NewTemplate(cur, latest.value, work.value, targetToDiff)), [GetLatestBlock, GetWork])
  }

  /**
   * Copy the job backlog and add the current header: the map is filled by
   * insertions while iterating over the old backlog in no particular order.
   */
  method BuildHeaders(cur: Option<BlockTemplate>, key: string, newPair: HeightDiffPair, height: U.U64)
    returns (headers: map<string, HeightDiffPair>)
    ensures headers == Backlog(if cur.Some? then cur.value.headers else map[], key, newPair, height)
  {
    headers := map[key := newPair];
    if cur.Some? {
      var prev := cur.value.headers;
      var todo := prev.Keys;
      while todo != {}
        invariant todo <= prev.Keys
        invariant headers == map[key := newPair] + Carried(prev - todo, height)
        decreases todo
      {
        var k :| k in todo;
        if Recent(prev[k], height) {
          headers := headers[k := prev[k]];
        }
        todo := todo - {k};
      }
      assert prev - todo == prev;
    }
  }

  /** The height of a new template is the number its "0x"-prefixed getwork field denotes. */
  lemma NewTemplateHeight(cur: Option<BlockTemplate>, latestHash: string, reply: WorkReply,
                          targetToDiff: string -> int, digits: string)
    requires reply.number == "0x" + digits
    requires digits != [] && Hex.IsHex(digits) && Hex.Value(digits) < U.Modulus
    ensures NewTemplate(cur, latestHash, reply, targetToDiff).height == Hex.Value(digits)
    ensures reply.header !in (if cur.Some? then cur.value.headers else map[]) ==>
              NewTemplate(cur, latestHash, reply, targetToDiff).headers[reply.header]
                == HeightDiffPair(targetToDiff(reply.target), Hex.Value(digits))
  {
    Hex.ParsePrefixedHex(digits);
  }

  /**
   * The uint64 wrap in the window test: below height 3 the cut-off wraps to
   * just under 2^64, so every old entry of realistic height is dropped.
   */
  lemma WrappedWindowDropsOld(v: HeightDiffPair, height: U.U64)
    requires height < MaxBacklog && v.height < U.Modulus - MaxBacklog
    ensures !Recent(v, height)
  {
  }

  /** Without wrap, the window is the plain integer one. */
  lemma WindowWithoutWrap(v: HeightDiffPair, height: U.U64)
    requires height >= MaxBacklog
    ensures Recent(v, height) <==> v.height + MaxBacklog > height
  {
  }

  class ProxyServer {
    /** The published template (stored atomically by the proxy); None before the first refresh. */
    var blockTemplate: Option<BlockTemplate>
    /** The daemon calls made by refreshes, in order. */
    var daemonCalls: seq<DaemonCall>

    constructor ()
      ensures blockTemplate == None && daemonCalls == []
    {
      blockTemplate := None;
      daemonCalls := [];
    }

    /**
     * Refresh the template: leave it alone when an RPC fails or the chain tip is
     * unchanged, otherwise build a new template and publish it with one store.
     */
    method FetchBlockTemplate(latest: Option<string>, work: Option<WorkReply>, targetToDiff: string -> int)
      modifies this
      ensures var r := NextTemplate(old(blockTemplate), latest, work, targetToDiff);
              blockTemplate == r.template && daemonCalls == old(daemonCalls) + r.calls
    {
      var t := blockTemplate;
      daemonCalls := daemonCalls + [GetLatestBlock];
      if latest.None? {
        return;
      }
      if t.Some? && t.value.prevHash == latest.value {
        return;
      }
      daemonCalls := daemonCalls + [GetWork];
      if work.None? {
        return;
      }
      var reply := work.value;
      var diff := targetToDiff(reply.target);
      var height := Hex.ParseUint(Hex.StripAll0x(reply.number));
      var headers := BuildHeaders(t, reply.header, HeightDiffPair(diff, height), height);
      var newTemplate := BlockTemplate(reply.header, reply.seed, reply.target, latest.value, reply.blob,
                                       diff, height, headers);
      blockTemplate := Some(newTemplate);
    }
  }
}
