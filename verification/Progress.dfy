/** What can always still be reached: whatever is running, lost or repeated, an admitted
    push can be carried to its client's success. */
module Progress {
  import opened Base
  import opened Schema
  import opened PushClient
  import opened IngestSystem
  import opened IngestInvariant
  import opened ExactlyOnce

  /** `end` continues `steps` by steps of the server, which no client notices. */
  ghost predicate Continues(d: Deployment, steps: seq<Step>, end: seq<Step>) {
    && steps <= end && Exec(d, steps).Some? && Exec(d, end).Some?
    && Exec(d, end).value.clients == Exec(d, steps).value.clients
    && Exec(d, steps).value.requests <= Exec(d, end).value.requests
  }

  lemma {:induction false} OneMore(d: Deployment, steps: seq<Step>, step: Step)
    requires Exec(d, steps).Some? && Enabled(d, Exec(d, steps).value, step)
    ensures steps <= steps + [step]
    ensures Exec(d, steps + [step]) == Some(Apply(d, Exec(d, steps).value, step))
    ensures !IsOutside(step) ==> Continues(d, steps, steps + [step])
    ensures Commits(d, steps + [step]) ==
      Commits(d, steps) + if step.Commit? then [Exec(d, steps).value.txs[step.t].body] else []
  {
    ExecMore(d, steps, step);
    assert (steps + [step])[..|steps|] == steps;
  }

  // ---- emptying the server ----

  /** One request ends, by an abort unless it is decided. */
  lemma {:induction false} EndOne(d: Deployment, steps: seq<Step>, t: nat) returns (end: seq<Step>)
    requires Exec(d, steps).Some? && t in Exec(d, steps).value.txs
    ensures Continues(d, steps, end)
    ensures Exec(d, end).value.txs == Exec(d, steps).value.txs - {t}
    ensures Exec(d, end).value.committed == Exec(d, steps).value.committed
  {
    end := steps;
    if !Exec(d, end).value.txs[t].stage.Decided? {
      OneMore(d, end, Abort(t));
      end := end + [Abort(t)];
    }
    OneMore(d, end, Answer(t));
    end := end + [Answer(t)];
  }

  lemma {:induction false} EndAll(d: Deployment, steps: seq<Step>) returns (end: seq<Step>)
    requires Exec(d, steps).Some?
    ensures Continues(d, steps, end)
    ensures Exec(d, end).value.txs == map[] && Exec(d, end).value.committed == Exec(d, steps).value.committed
    decreases Exec(d, steps).value.txs.Keys
  {
    var s := Exec(d, steps).value;
    end := steps;
    if s.txs != map[] {
      var t :| t in s.txs;
      end := EndOne(d, steps, t);
      assert t !in Exec(d, end).value.txs.Keys;
      end := EndAll(d, end);
    }
  }

  // ---- serving one request ----

  /** `t` serves `b` and nothing else runs. */
  predicate Alone(s: Sys, t: nat, b: RunIn) { s.txs.Keys == {t} && s.txs[t].body == b }

  /** `end` continues `steps`, without a commit, to a state in which only `t` runs, for `b`. */
  ghost predicate Leads(d: Deployment, steps: seq<Step>, end: seq<Step>, t: nat, b: RunIn) {
    Continues(d, steps, end) && Alone(Exec(d, end).value, t, b) && Commits(d, end) == Commits(d, steps)
  }

  lemma {:induction false} BeginAlone(d: Deployment, steps: seq<Step>, t: nat, q: Push) returns (end: seq<Step>)
    requires d.Valid() && Exec(d, steps).Some? && Enabled(d, Exec(d, steps).value, Begin(t, q))
    requires Exec(d, steps).value.txs == map[] && !Exec(d, steps).value.HasRun(q.body.runId)
    ensures Leads(d, steps, end, t, q.body) && Exec(d, end).value.txs[t].stage == Inserting
    ensures !Exec(d, end).value.HasRun(q.body.runId)
  {
    OneMore(d, steps, Begin(t, q));
    end := steps + [Begin(t, q)];
    HasRunOutside(Exec(d, steps).value, Exec(d, end).value);
    OneMore(d, end, CheckRun(t));
    HasRunOutside(Exec(d, end).value, Exec(d, end + [CheckRun(t)]).value);
    end := end + [CheckRun(t)];
  }

  /** Nobody else is writing, so every row is committed or the transaction's own. */
  lemma {:induction false} InsertAlone(d: Deployment, steps: seq<Step>, t: nat, b: RunIn) returns (end: seq<Step>)
    requires d.Valid() && Exec(d, steps).Some? && Alone(Exec(d, steps).value, t, b)
    requires Exec(d, steps).value.txs[t].stage == Inserting && !Exec(d, steps).value.HasRun(b.runId)
    ensures Leads(d, steps, end, t, b) && Exec(d, end).value.txs[t].stage.Upserting?
  {
    var s := Exec(d, steps).value;
    assert TablesOk(s) && TxOk(d, s, t) by { Serialisable(d, steps); }
    assert forall pk :: pk in s.runs && s.runs[pk].externalId == b.runId ==> s.CommittedRun(pk);
    OneMore(d, steps, InsertRun(t));
    end := steps + [InsertRun(t)];
  }

  lemma {:induction false} UpsertAlone(d: Deployment, steps: seq<Step>, t: nat, b: RunIn) returns (end: seq<Step>)
    requires d.Valid() && Exec(d, steps).Some? && Alone(Exec(d, steps).value, t, b)
    requires Exec(d, steps).value.txs[t].stage.Upserting?
    ensures Leads(d, steps, end, t, b)
    ensures Exec(d, end).value.txs[t].stage.Upserting? && |Exec(d, end).value.txs[t].stage.todo| == 0
    decreases |Exec(d, steps).value.txs[t].stage.todo|
  {
    var s := Exec(d, steps).value;
    end := steps;
    if |s.txs[t].stage.todo| > 0 {
      assert TablesOk(s) by { Serialisable(d, steps); }
      OneMore(d, steps, UpsertNode(t));
      end := UpsertAlone(d, steps + [UpsertNode(t)], t, b);
    }
  }

  lemma {:induction false} CommitAlone(d: Deployment, steps: seq<Step>, t: nat, b: RunIn) returns (end: seq<Step>)
    requires d.Valid() && Exec(d, steps).Some? && Alone(Exec(d, steps).value, t, b)
    requires Exec(d, steps).value.txs[t].stage.Upserting? && |Exec(d, steps).value.txs[t].stage.todo| == 0
    ensures Continues(d, steps, end) && Alone(Exec(d, end).value, t, b) && Commits(d, end) == Commits(d, steps) + [b]
    ensures Exec(d, end).value.txs[t].stage == Decided(Created(|b.results|, false))
  {
    OneMore(d, steps, ReadNodes(t));
    end := steps + [ReadNodes(t)];
    NodeLookupIsTotal(d, end, t);
    AddAlone(d, end, t);
    OneMore(d, end, AddResults(t));
    end := end + [AddResults(t)];
    OneMore(d, end, Commit(t));
    end := end + [Commit(t)];
  }

  lemma {:induction false} AddAlone(d: Deployment, steps: seq<Step>, t: nat)
    requires d.Valid() && Exec(d, steps).Some? && Enabled(d, Exec(d, steps).value, AddResults(t))
    ensures var s := Exec(d, steps).value; var s' := Apply(d, s, AddResults(t));
      s' == Stand(s, t, s'.txs[t].stage) && s'.txs[t].stage.Committing?
  {
    assert TxOk(d, Exec(d, steps).value, t) by { Serialisable(d, steps); }
    AddResultsTx(d, Exec(d, steps).value, t);
  }

  lemma {:induction false} StoreAlone(d: Deployment, steps: seq<Step>, t: nat, q: Push) returns (end: seq<Step>)
    requires d.Valid() && Exec(d, steps).Some? && Enabled(d, Exec(d, steps).value, Begin(t, q))
    requires Exec(d, steps).value.txs == map[] && !Exec(d, steps).value.HasRun(q.body.runId)
    ensures Continues(d, steps, end)
    ensures Exec(d, end).value.txs == map[] && Commits(d, end) == Commits(d, steps) + [q.body]
    ensures Reply(q.body.runId, Created(|q.body.results|, false)) in Exec(d, end).value.replies
  {
    end := BeginAlone(d, steps, t, q);
    end := InsertAlone(d, end, t, q.body);
    end := UpsertAlone(d, end, t, q.body);
    end := CommitAlone(d, end, t, q.body);
    OneMore(d, end, Answer(t));
    end := end + [Answer(t)];
  }

  lemma {:induction false} UnusedId(used: set<nat>) returns (t: nat)
    ensures forall u :: u in used ==> u < t
  {
    t := 0;
    if used != {} {
      var u :| u in used;
      var below := UnusedId(used - {u});
      t := if u < below then below else u + 1;
      assert used == (used - {u}) + {u};
    }
  }

  ghost predicate Acknowledged(d: Deployment, s: Sys, r: RunId)
    requires r in d.pushes
  {
    exists duplicate :: Reply(r, Created(|d.pushes[r].body.results|, duplicate)) in s.replies
  }

  /** From every reachable state, with any number of requests running, waiting or hung, an
      admitted push that is on the wire can be carried to a stored run and a reply with the
      full count. */
  lemma {:induction false} ServerCanStore(d: Deployment, steps: seq<Step>, r: RunId) returns (end: seq<Step>)
    requires d.Valid() && Exec(d, steps).Some? && r in d.pushes && d.Admits(d.pushes[r])
    requires d.pushes[r] in Exec(d, steps).value.requests
    ensures Continues(d, steps, end)
    ensures Exec(d, end).value.HasRun(r) && Acknowledged(d, Exec(d, end).value, r)
  {
    var q := d.pushes[r];
    end := EndAll(d, steps);
    var idle := end;
    var s := Exec(d, idle).value;
    var t := UnusedId(s.committed);
    if s.HasRun(r) {
      RetryIsAnswered(d, idle, r, t);
      end := idle + [Begin(t, q)] + [CheckRun(t)] + [CountStored(t)] + [Answer(t)];
      FourStepsContinue(d, idle, Begin(t, q), CheckRun(t), CountStored(t), Answer(t));
      assert Acknowledged(d, Exec(d, end).value, r);
    } else {
      end := StoreAlone(d, idle, t, q);
    }
    ClientsMayTrustTheReply(d, end);
  }

  lemma {:induction false} FourStepsContinue(d: Deployment, steps: seq<Step>, w: Step, x: Step, y: Step, z: Step)
    requires Exec(d, steps + [w] + [x] + [y] + [z]).Some?
    requires !IsOutside(w) && !IsOutside(x) && !IsOutside(y) && !IsOutside(z)
    ensures Continues(d, steps, steps + [w] + [x] + [y] + [z])
  {
    LastStep(d, steps + [w] + [x] + [y], z);
    LastStep(d, steps + [w] + [x], y);
    LastStep(d, steps + [w], x);
    LastStep(d, steps, w);
  }

  lemma {:induction false} LastStep(d: Deployment, steps: seq<Step>, step: Step)
    requires Exec(d, steps + [step]).Some? && !IsOutside(step)
    ensures Continues(d, steps, steps + [step])
  {
    assert (steps + [step])[..|steps|] == steps;
    OneMore(d, steps, step);
  }

  // ---- the client ----

  /** A client that awaits a reply has its push on the wire. */
  lemma {:induction false} AwaitingHasSent(d: Deployment, steps: seq<Step>, r: RunId)
    requires d.Valid() && Exec(d, steps).Some? && r in Exec(d, steps).value.clients
    requires Exec(d, steps).value.clients[r].Awaiting?
    ensures r in d.pushes && d.pushes[r] in Exec(d, steps).value.requests
  {
    var n := |steps| - 1;
    var s := Exec(d, steps[..n]).value;
    if steps[n] != Send(r) {
      ClientKept(d, s, steps[n], r);
      AwaitingHasSent(d, steps[..n], r);
    }
  }

  /** Only its own Send makes a client await a reply, and nothing leaves the wire. */
  lemma {:induction false} ClientKept(d: Deployment, s: Sys, step: Step, r: RunId)
    requires Enabled(d, s, step) && step != Send(r)
    requires r in Apply(d, s, step).clients && Apply(d, s, step).clients[r].Awaiting?
    ensures r in s.clients && s.clients[r].Awaiting? && s.requests <= Apply(d, s, step).requests
  {
  }

  /** A client whose push is admitted can succeed until it gives up: from every reachable
      state in which it posts or awaits, some continuation ends in its success. */
  lemma {:induction false} ClientCanSucceed(d: Deployment, steps: seq<Step>, r: RunId) returns (end: seq<Step>)
    requires d.Valid() && Exec(d, steps).Some? && r in d.pushes && d.Admits(d.pushes[r])
    requires var s := Exec(d, steps).value; r in s.clients && (s.clients[r].Posting? || s.clients[r].Awaiting?)
    ensures steps <= end && Exec(d, end).Some?
    ensures var s := Exec(d, end).value; r in s.clients && s.clients[r] == Stored && s.HasRun(r)
  {
    end := steps;
    if Exec(d, end).value.clients[r].Posting? {
      OneMore(d, end, Send(r));
      end := end + [Send(r)];
    }
    AwaitingHasSent(d, end, r);
    end := ServerCanStore(d, end, r);
    var duplicate :| Reply(r, Created(|d.pushes[r].body.results|, duplicate)) in Exec(d, end).value.replies;
    var m := Reply(r, Created(|d.pushes[r].body.results|, duplicate));
    OneMore(d, end, Receive(m));
    HasRunOutside(Exec(d, end).value, Apply(d, Exec(d, end).value, Receive(m)));
    end := end + [Receive(m)];
  }
}
