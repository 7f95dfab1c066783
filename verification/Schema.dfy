/** The ingest contract: the batch that nodecheck posts and probestore stores. */
module Schema {
  import opened Base

  type RunId = string

  datatype FailedPhase = TcpPhase | TlsPhase

  /** A node is identified by its address and the SNI expected of it. */
  datatype NodeKey = NodeKey(addr: string, sni: string)

  datatype NodeRef = NodeRef(name: string, addr: string, sni: string, provider: Option<string>) {
    function Key(): NodeKey { NodeKey(addr, sni) }
  }

  /** The columns of `probe_result` that a batch supplies. */
  datatype Measurement = Measurement(
    ts: int,
    tcpOk: bool,
    tlsOk: bool,
    latencyMs: Option<real>,
    error: Option<string>,
    failedPhase: Option<FailedPhase>)

  datatype ResultIn = ResultIn(node: NodeRef, m: Measurement)

  datatype RunIn = RunIn(runId: RunId, source: string, startedAt: int, results: seq<ResultIn>)

  /** The columns of `node` and of `probe_run` besides their keys. */
  datatype NodeInfo = NodeInfo(name: string, provider: Option<string>)

  datatype RunInfo = RunInfo(source: string, startedAt: int)

  predicate ValidNode(n: NodeRef) {
    && |n.name| <= 128 && |n.addr| <= 255 && |n.sni| <= 255
    && (n.provider.Some? ==> |n.provider.value| <= 128)
  }

  /** What the request schema checks before the handler runs. */
  predicate ValidRun(p: RunIn) {
    && |p.source| <= 128
    && |p.results| >= 1
    && forall i :: 0 <= i < |p.results| ==> ValidNode(p.results[i].node)
  }

  function Info(p: RunIn): RunInfo { RunInfo(p.source, p.startedAt) }

  /** The distinct node keys of a batch. */
  function BatchKeys(rs: seq<ResultIn>): set<NodeKey> {
    set r | r in rs :: r.node.Key()
  }

  /** The entry that a later one of the same key does not replace: the last. */
  function LastNode(rs: seq<ResultIn>, k: NodeKey): NodeInfo
    requires k in BatchKeys(rs)
  {
    var n := rs[|rs| - 1].node;
    if n.Key() == k then NodeInfo(n.name, n.provider)
    else assert rs == rs[..|rs| - 1] + [rs[|rs| - 1]]; LastNode(rs[..|rs| - 1], k)
  }

  /** LastNode, said by position. */
  lemma {:induction false} LastNodeIsLast(rs: seq<ResultIn>, k: NodeKey)
    requires k in BatchKeys(rs)
    ensures exists i :: (
      && 0 <= i < |rs| && rs[i].node.Key() == k
      && LastNode(rs, k) == NodeInfo(rs[i].node.name, rs[i].node.provider)
      && forall j :: i < j < |rs| ==> rs[j].node.Key() != k)
  {
    var n := |rs| - 1;
    if rs[n].node.Key() != k {
      assert rs == rs[..n] + [rs[n]];
      LastNodeIsLast(rs[..n], k);
      var i :| 0 <= i < n && rs[..n][i].node.Key() == k
        && LastNode(rs[..n], k) == NodeInfo(rs[..n][i].node.name, rs[..n][i].node.provider)
        && forall j :: i < j < n ==> rs[..n][j].node.Key() != k;
      assert rs[i].node.Key() == k;
    } else {
      assert rs[n].node.Key() == k;
    }
  }
}
