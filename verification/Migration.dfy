/** Migration 0002: the `failed_phase` column, its backfill, and taking it away again. */
module Migration {
  import opened Base
  import opened Schema
  import opened PushPayload

  /** A stored row; `failedPhase` is meaningful only while the column exists. */
  datatype Row = Row(nodeId: nat, runPk: nat, ts: int, tcpOk: bool, tlsOk: bool, latencyMs: Option<real>,
                     error: Option<string>, failedPhase: Option<FailedPhase>)

  /** Every row names the phase that its own two booleans give. */
  predicate Classified(rows: seq<Row>) {
    forall i :: 0 <= i < |rows| ==> rows[i].failedPhase == Classify(rows[i].tcpOk, rows[i].tlsOk)
  }

  function Backfilled(r: Row): Row {
    r.(failedPhase := if !r.tcpOk then Some(TcpPhase) else if !r.tlsOk then Some(TlsPhase) else None)
  }

  class ProbeResultTable {
    var rows: array<Row>
    var hasFailedPhase: bool
    var hasIndex: bool

    constructor (initial: seq<Row>)
      ensures rows[..] == initial && hasFailedPhase && hasIndex && fresh(rows)
    {
      rows := new Row[|initial|](i requires 0 <= i < |initial| => initial[i]);
      hasFailedPhase := true;
      hasIndex := true;
    }

    /** Adds the column and the index, and classifies every row from its booleans. */
    method Upgrade()
      modifies this, rows
      ensures hasFailedPhase && hasIndex && rows == old(rows)
      ensures forall i :: 0 <= i < rows.Length ==> rows[i] == Backfilled(old(rows[i]))
      ensures Classified(rows[..])
      ensures forall i :: 0 <= i < rows.Length ==>
        && (rows[i].failedPhase == Some(TcpPhase) <==> !old(rows[i]).tcpOk)
        && (rows[i].failedPhase == Some(TlsPhase) <==> old(rows[i]).tcpOk && !old(rows[i]).tlsOk)
        && rows[i].(failedPhase := None) == old(rows[i]).(failedPhase := None)
    {
      hasFailedPhase := true;
      for i := 0 to rows.Length
        modifies rows
        invariant forall j :: i <= j < rows.Length ==> rows[j] == old(rows[j])
        invariant forall j :: 0 <= j < i ==> rows[j] == old(rows[j]).(failedPhase := None)
      {
        rows[i] := rows[i].(failedPhase := None);
      }
      hasIndex := true;
      for i := 0 to rows.Length
        modifies rows
        invariant forall j :: i <= j < rows.Length ==> rows[j] == old(rows[j]).(failedPhase := None)
        invariant forall j :: 0 <= j < i ==> rows[j] == Backfilled(old(rows[j]))
      {
        rows[i] := Backfilled(rows[i]);
      }
    }

    /** Drops the index and the column; its values are lost. */
    method Downgrade()
      modifies this, rows
      ensures !hasFailedPhase && !hasIndex && rows == old(rows)
      ensures forall i :: 0 <= i < rows.Length ==> rows[i] == old(rows[i]).(failedPhase := None)
    {
      hasIndex := false;
      hasFailedPhase := false;
      for i := 0 to rows.Length
        modifies rows
        invariant forall j :: i <= j < rows.Length ==> rows[j] == old(rows[j])
        invariant forall j :: 0 <= j < i ==> rows[j] == old(rows[j]).(failedPhase := None)
      {
        rows[i] := rows[i].(failedPhase := None);
      }
    }

    /** Down and up again restores the table exactly when every row was classified by its
        booleans, which is what nodecheck always sends; a row that another client labelled
        differently comes back changed. */
    method DownAndUp()
      requires hasFailedPhase && hasIndex
      modifies this, rows
      ensures hasFailedPhase && hasIndex && rows == old(rows)
      ensures rows[..] == old(rows[..]) <==> Classified(old(rows[..]))
    {
      Downgrade();
      Upgrade();
      ghost var was := old(rows[..]);
      assert forall i :: 0 <= i < rows.Length ==> rows[i] == Backfilled(was[i]);
      if rows[..] == was {
        forall i | 0 <= i < |was| ensures was[i].failedPhase == Classify(was[i].tcpOk, was[i].tlsOk) {
          assert rows[..][i] == was[i];
        }
      }
    }
  }

  function StoredRow(m: Measurement, nodeId: nat, runPk: nat): Row {
    Row(nodeId, runPk, m.ts, m.tcpOk, m.tlsOk, m.latencyMs, m.error, m.failedPhase)
  }

  /** Rows that came from coherent measurements survive the round trip. */
  lemma {:induction false} CoherentRowsAreClassified(ms: seq<Measurement>, rows: seq<Row>)
    requires |rows| == |ms|
    requires forall i :: 0 <= i < |ms| ==> Coherent(ms[i]) && rows[i] == StoredRow(ms[i], rows[i].nodeId, rows[i].runPk)
    ensures Classified(rows)
  {
  }
}
