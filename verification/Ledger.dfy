/** The store as one request at a time would build it: the reference that the
    concurrent ingest refines. It has no row ids, no locks and no visibility rules. */
module Ledger {
  import opened Base
  import opened Schema

  datatype Entry = Entry(runId: RunId, key: NodeKey, m: Measurement)

  datatype Ledger = Ledger(
    nodes: map<NodeKey, NodeInfo>,
    runs: map<RunId, RunInfo>,
    entries: seq<Entry>)

  const Empty := Ledger(map[], map[], [])

  /** Node rows are inserted only for keys that are not there yet. */
  function AddNodes(nodes: map<NodeKey, NodeInfo>, rs: seq<ResultIn>): map<NodeKey, NodeInfo> {
    (map k | k in BatchKeys(rs) :: LastNode(rs, k)) + nodes
  }

  function EntriesOf(p: RunIn): seq<Entry> {
    seq(|p.results|, i requires 0 <= i < |p.results| =>
      Entry(p.runId, p.results[i].node.Key(), p.results[i].m))
  }

  function Ingest(l: Ledger, p: RunIn): Ledger {
    if p.runId in l.runs then l
    else Ledger(AddNodes(l.nodes, p.results), l.runs[p.runId := Info(p)], l.entries + EntriesOf(p))
  }

  function Replay(ps: seq<RunIn>): Ledger {
    if |ps| == 0 then Empty else Ingest(Replay(ps[..|ps| - 1]), ps[|ps| - 1])
  }

  /** The entries stored under one run id, in order. */
  function EntriesFor(es: seq<Entry>, r: RunId): seq<Entry> {
    if |es| == 0 then []
    else EntriesFor(es[..|es| - 1], r) + if es[|es| - 1].runId == r then [es[|es| - 1]] else []
  }

  lemma {:induction false} EntriesForAppend(a: seq<Entry>, b: seq<Entry>, r: RunId)
    ensures EntriesFor(a + b, r) == EntriesFor(a, r) + EntriesFor(b, r)
  {
    if |b| == 0 {
      assert a + b == a;
    } else {
      var n := |b| - 1;
      EntriesForAppend(a, b[..n], r);
      assert (a + b)[..|a + b| - 1] == a + b[..n];
    }
  }

  lemma {:induction false} EntriesForUniform(es: seq<Entry>, owner: RunId, r: RunId)
    requires forall i :: 0 <= i < |es| ==> es[i].runId == owner
    ensures EntriesFor(es, r) == if r == owner then es else []
  {
    if |es| > 0 {
      EntriesForUniform(es[..|es| - 1], owner, r);
      assert es == es[..|es| - 1] + [es[|es| - 1]];
    }
  }

  /** The first batch of a sequence that carries run id `r`. */
  function FirstRun(ps: seq<RunIn>, r: RunId): Option<RunIn> {
    if |ps| == 0 then None
    else match FirstRun(ps[..|ps| - 1], r)
      case Some(p) => Some(p)
      case None => if ps[|ps| - 1].runId == r then Some(ps[|ps| - 1]) else None
  }

  /** However batches are repeated, a run id holds exactly the results of the first
      batch that carried it, whole and in order, and nothing else. */
  lemma {:induction false} ReplayStoresFirstBatchWhole(ps: seq<RunIn>, r: RunId)
    ensures r in Replay(ps).runs <==> FirstRun(ps, r).Some?
    ensures match FirstRun(ps, r)
      case Some(p) => p in ps && p.runId == r && Replay(ps).runs[r] == Info(p)
        && EntriesFor(Replay(ps).entries, r) == EntriesOf(p)
      case None => EntriesFor(Replay(ps).entries, r) == []
  {
    if |ps| > 0 {
      var n := |ps| - 1;
      var l, p := Replay(ps[..n]), ps[n];
      ReplayStoresFirstBatchWhole(ps[..n], r);
      ReplayStoresFirstBatchWhole(ps[..n], p.runId);
      EntriesForAppend(l.entries, EntriesOf(p), r);
      EntriesForUniform(EntriesOf(p), p.runId, r);
    }
  }

  /** Whether a batch mentions a node, and its run id is not a repeat. */
  function FirstMention(ps: seq<RunIn>, k: NodeKey): Option<RunIn> {
    if |ps| == 0 then None
    else
      var n := |ps| - 1;
      match FirstMention(ps[..n], k)
      case Some(p) => Some(p)
      case None =>
        if k in BatchKeys(ps[n].results) && ps[n].runId !in Replay(ps[..n]).runs then Some(ps[n]) else None
  }

  /** A node carries the name and provider of the last entry for it in the first batch
      that was stored with it, whatever later batches call it. */
  lemma {:induction false} ReplayNamesNodesOnce(ps: seq<RunIn>, k: NodeKey)
    ensures k in Replay(ps).nodes <==> FirstMention(ps, k).Some?
    ensures match FirstMention(ps, k)
      case Some(p) => p in ps && k in BatchKeys(p.results)
        && Replay(ps).nodes[k] == LastNode(p.results, k)
      case None => true
  {
    if |ps| > 0 {
      ReplayNamesNodesOnce(ps[..|ps| - 1], k);
    }
  }

  /** Every stored result names a stored node and a stored run. */
  lemma {:induction false} ReplayIsClosed(ps: seq<RunIn>)
    ensures forall i :: 0 <= i < |Replay(ps).entries| ==>
      Replay(ps).entries[i].key in Replay(ps).nodes && Replay(ps).entries[i].runId in Replay(ps).runs
  {
    if |ps| > 0 {
      var n := |ps| - 1;
      ReplayIsClosed(ps[..n]);
      var p, l := ps[n], Replay(ps[..n]);
      forall i | 0 <= i < |EntriesOf(p)|
        ensures EntriesOf(p)[i].key in BatchKeys(p.results)
      {
        assert p.results[i] in p.results;
      }
    }
  }
}
