/** Which requests are answered as duplicates: those whose check finds the run, and no other. */
module Retries {
  import opened Schema
  import opened IngestSystem
  import opened IngestInvariant
  import opened ExactlyOnce

  /** On the way to reporting a stored run of `n` results, and to nothing else but a crash. */
  predicate Reporting(stage: Stage, n: nat) {
    match stage
    case Checking => true
    case Counting(_) => true
    case Decided(status) => status == Created(n, true) || status == Crashed
    case _ => false
  }

  /** `t` handles `b`, whose run is stored: it can only report it, or crash. */
  ghost predicate OnlyReports(s: Sys, t: nat, b: RunIn) {
    t in s.txs && s.txs[t].body == b && s.HasRun(b.runId) && Reporting(s.txs[t].stage, |b.results|)
  }

  /** `t` handles `b` and has found no run: it can only store it, or crash. */
  predicate OnlyStores(s: Sys, t: nat, b: RunIn) {
    && t in s.txs && s.txs[t].body == b
    && match s.txs[t].stage
       case Checking => false
       case Counting(_) => false
       case Decided(status) => status == Created(|b.results|, false) || status == Crashed
       case _ => true
  }

  /** A step of anyone else leaves a running transaction where it was. */
  lemma {:induction false} OthersStand(d: Deployment, s: Sys, step: Step, t: nat)
    requires TablesOk(s) && TxsOk(d, s) && Enabled(d, s, step) && t in s.txs
    requires IsOutside(step) || Actor(step) != t
    ensures t in Apply(d, s, step).txs && Apply(d, s, step).txs[t] == s.txs[t]
  {
    StepTouches(d, s, step);
  }

  lemma {:induction false} StoredStays(d: Deployment, s: Sys, step: Step, r: RunId)
    requires TablesOk(s) && TxsOk(d, s) && Enabled(d, s, step) && s.HasRun(r)
    ensures Apply(d, s, step).HasRun(r)
  {
    StepKeepsCommitted(d, s, step);
    var pk :| s.CommittedRun(pk) && s.runs[pk].externalId == r;
    assert Apply(d, s, step).CommittedRun(pk);
  }

  lemma {:induction false} OwnStepReports(d: Deployment, s: Sys, step: Step, t: nat, b: RunIn)
    requires OnlyReports(s, t, b) && TxOk(d, s, t) && CountsOk(d, s) && Enabled(d, s, step)
    requires !IsOutside(step) && Actor(step) == t && step != Answer(t)
    ensures var s' := Apply(d, s, step);
      t in s'.txs && s'.txs[t].body == b && Reporting(s'.txs[t].stage, |b.results|)
  {
    if step.CountStored? {
      CountStoredTx(d, s, t);
    }
  }

  lemma {:induction false} StepReports(d: Deployment, s: Sys, step: Step, t: nat, b: RunIn)
    requires Inv(d, s) && OnlyReports(s, t, b) && Enabled(d, s, step) && step != Answer(t)
    ensures OnlyReports(Apply(d, s, step), t, b)
  {
    StoredStays(d, s, step, b.runId);
    if IsOutside(step) || Actor(step) != t {
      OthersStand(d, s, step, t);
    } else {
      OwnStepReports(d, s, step, t, b);
    }
  }

  lemma {:induction false} StepStores(d: Deployment, s: Sys, step: Step, t: nat, b: RunIn)
    requires TablesOk(s) && TxsOk(d, s) && OnlyStores(s, t, b) && Enabled(d, s, step) && step != Answer(t)
    ensures OnlyStores(Apply(d, s, step), t, b)
  {
    if IsOutside(step) || Actor(step) != t {
      OthersStand(d, s, step, t);
    }
  }

  lemma {:induction false} RunReports(d: Deployment, steps: seq<Step>, more: seq<Step>, t: nat, b: RunIn)
    requires d.Valid() && Exec(d, steps).Some? && OnlyReports(Exec(d, steps).value, t, b)
    requires Exec(d, steps + more).Some? && Answer(t) !in more
    ensures OnlyReports(Exec(d, steps + more).value, t, b)
  {
    if |more| == 0 {
      assert steps + more == steps;
    } else {
      var n := |more| - 1;
      assert (steps + more)[..|steps + more| - 1] == steps + more[..n];
      RunReports(d, steps, more[..n], t, b);
      Serialisable(d, steps + more[..n]);
      assert more[n] in more;
      StepReports(d, Exec(d, steps + more[..n]).value, more[n], t, b);
    }
  }

  lemma {:induction false} RunStores(d: Deployment, steps: seq<Step>, more: seq<Step>, t: nat, b: RunIn)
    requires d.Valid() && Exec(d, steps).Some? && OnlyStores(Exec(d, steps).value, t, b)
    requires Exec(d, steps + more).Some? && Answer(t) !in more
    ensures OnlyStores(Exec(d, steps + more).value, t, b)
  {
    if |more| == 0 {
      assert steps + more == steps;
    } else {
      var n := |more| - 1;
      assert (steps + more)[..|steps + more| - 1] == steps + more[..n];
      RunStores(d, steps, more[..n], t, b);
      Serialisable(d, steps + more[..n]);
      assert more[n] in more;
      StepStores(d, Exec(d, steps + more[..n]).value, more[n], t, b);
    }
  }

  /** A later call is a duplicate: if the run is stored when the handling of a repeated
      push begins, then in every continuation, until it is answered, it stores nothing and
      has no other answer than a duplicate with the full count, or a crash. */
  lemma {:induction false} LaterCallIsDuplicate(d: Deployment, steps: seq<Step>, t: nat, q: Push, more: seq<Step>)
    requires d.Valid() && Exec(d, steps).Some? && Enabled(d, Exec(d, steps).value, Begin(t, q))
    requires Exec(d, steps).value.HasRun(q.body.runId)
    requires Exec(d, steps + [Begin(t, q)] + more).Some? && Answer(t) !in more
    ensures OnlyReports(Exec(d, steps + [Begin(t, q)] + more).value, t, q.body)
  {
    var s := Exec(d, steps).value;
    ExecMore(d, steps, Begin(t, q));
    assert Exec(d, steps + [Begin(t, q)]).value.HasRun(q.body.runId) by { HasRunOutside(s, Apply(d, s, Begin(t, q))); }
    RunReports(d, steps + [Begin(t, q)], more, t, q.body);
  }

  /** The check decides: whatever happens between it and the answer, a created reply says
      `duplicate` exactly if the run was stored when the check was made. */
  lemma {:induction false} DuplicateIffFound(d: Deployment, steps: seq<Step>, t: nat, more: seq<Step>)
    requires d.Valid() && Exec(d, steps).Some? && Enabled(d, Exec(d, steps).value, CheckRun(t))
    requires Exec(d, steps + [CheckRun(t)] + more).Some? && Answer(t) !in more
    ensures var s, s' := Exec(d, steps).value, Exec(d, steps + [CheckRun(t)] + more).value;
      && t in s'.txs && s'.txs[t].body == s.txs[t].body
      && !(s'.txs[t].stage.Decided? && s'.txs[t].stage.status.Rejected?)
      && (s'.txs[t].stage.Decided? && s'.txs[t].stage.status.Created? ==>
            && s'.txs[t].stage.status.stored == |s.txs[t].body.results|
            && (s'.txs[t].stage.status.duplicate <==> s.HasRun(s.txs[t].body.runId)))
  {
    var s, b := Exec(d, steps).value, Exec(d, steps).value.txs[t].body;
    ExecMore(d, steps, CheckRun(t));
    HasRunOutside(s, Exec(d, steps + [CheckRun(t)]).value);
    if s.HasRun(b.runId) {
      RunReports(d, steps + [CheckRun(t)], more, t, b);
    } else {
      RunStores(d, steps + [CheckRun(t)], more, t, b);
    }
  }
}
