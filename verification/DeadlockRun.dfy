/** From any entanglement a run into a deadlock, and with it the exact condition. */
module DeadlockRun {
  import opened Schema
  import opened IngestSystem
  import opened IngestInvariant
  import opened ExactlyOnce
  import opened Progress
  import opened Deadlock
  import opened Entanglement

  // ---- storing the first pushes ----

  /** Nothing runs, `first` is stored and nothing else, and the other clients have not begun. */
  ghost predicate OnlyStored(d: Deployment, steps: seq<Step>, first: seq<RunId>) {
    && Exec(d, steps).Some? && Exec(d, steps).value.txs == map[] && IdsOf(Commits(d, steps)) == first
    && forall r :: r in d.pushes && r !in first ==>
         r in Exec(d, steps).value.clients && Exec(d, steps).value.clients[r].Posting?
  }

  lemma {:induction false} StoreAll(d: Deployment, first: seq<RunId>) returns (steps: seq<Step>)
    requires d.Valid() && AreStored(d, first)
    ensures OnlyStored(d, steps, first)
  {
    steps := [];
    if |first| > 0 {
      var n := |first| - 1;
      steps := StoreAll(d, first[..n]);
      steps := StoreNext(d, steps, first[..n], first[n]);
      assert first[..n] + [first[n]] == first;
    }
  }

  lemma {:induction false} StoreNext(d: Deployment, steps: seq<Step>, first: seq<RunId>, r: RunId)
    returns (end: seq<Step>)
    requires d.Valid() && OnlyStored(d, steps, first) && Admitted(d, r) && r !in first
    ensures OnlyStored(d, end, first + [r])
  {
    OneMore(d, steps, Send(r));
    end := steps + [Send(r)];
    NotYetStored(d, end, first, r);
    var t := UnusedId(Exec(d, end).value.committed);
    var sent := end;
    end := StoreAlone(d, sent, t, d.pushes[r]);
    assert IdsOf(Commits(d, end)) == first + [r] by {
      assert IdsOf(Commits(d, sent) + [d.pushes[r].body]) == IdsOf(Commits(d, sent)) + [r];
    }
  }

  lemma {:induction false} NotYetStored(d: Deployment, steps: seq<Step>, first: seq<RunId>, r: RunId)
    requires d.Valid() && Exec(d, steps).Some? && IdsOf(Commits(d, steps)) == first && r !in first
    ensures !Exec(d, steps).value.HasRun(r)
  {
    Serialisable(d, steps);
    var ps := Commits(d, steps);
    forall i | 0 <= i < |ps| ensures ps[i].runId != r {
      assert IdsOf(ps)[i] == ps[i].runId;
    }
    NewIdIsNotReplayed(ps, r);
  }

  // ---- opening the others ----

  /** `t` handles push `r` and has done `n` of its nodes. */
  ghost predicate UpsertsFrom(d: Deployment, s: Sys, t: nat, r: RunId, n: nat)
    requires r in d.pushes
  {
    && t in s.txs && s.txs[t].body == d.pushes[r].body && n <= |ItemsOf(d, r)|
    && s.txs[t].stage.Upserting? && s.txs[t].stage.todo == ItemsOf(d, r)[n..]
  }

  /** `t` has inserted its run and none of its nodes; all else is as in `s`. */
  ghost predicate OpenedOne(d: Deployment, s: Sys, s': Sys, t: nat, r: RunId)
    requires r in d.pushes
  {
    && s'.nodes == s.nodes && s'.committed == s.committed
    && UpsertsFrom(d, s', t, r, 0) && s'.txs == s.txs[t := s'.txs[t]]
    && (forall pk :: pk in s'.runs ==> (pk in s.runs && s'.runs[pk] == s.runs[pk]) || s'.runs[pk].externalId == r)
    && (forall q :: q in s.clients && q != r ==> q in s'.clients && s'.clients[q] == s.clients[q])
  }

  lemma {:induction false} BeginNext(d: Deployment, steps: seq<Step>, t: nat, r: RunId) returns (end: seq<Step>)
    requires d.Valid() && Admitted(d, r) && Exec(d, steps).Some?
    requires var s := Exec(d, steps).value; t !in s.txs && t !in s.committed && r in s.clients && s.clients[r].Posting?
    ensures Exec(d, end).Some?
    ensures var s, s' := Exec(d, steps).value, Exec(d, end).value;
      && s'.nodes == s.nodes && s'.runs == s.runs && s'.committed == s.committed
      && s'.txs == s.txs[t := Tx(d.pushes[r].body, Checking)]
      && forall q :: q in s.clients && q != r ==> q in s'.clients && s'.clients[q] == s.clients[q]
  {
    ExecMore(d, steps, Send(r));
    end := steps + [Send(r)];
    ExecMore(d, end, Begin(t, d.pushes[r]));
    end := end + [Begin(t, d.pushes[r])];
  }

  lemma {:induction false} OpenOne(d: Deployment, steps: seq<Step>, t: nat, r: RunId) returns (end: seq<Step>)
    requires d.Valid() && Admitted(d, r) && Exec(d, steps).Some?
    requires var s := Exec(d, steps).value;
      && t !in s.txs && t !in s.committed && r in s.clients && s.clients[r].Posting?
      && forall pk :: pk in s.runs ==> s.runs[pk].externalId != r
    ensures Exec(d, end).Some? && OpenedOne(d, Exec(d, steps).value, Exec(d, end).value, t, r)
  {
    end := BeginNext(d, steps, t, r);
    assert !Exec(d, end).value.HasRun(r);
    ExecMore(d, end, CheckRun(t));
    end := end + [CheckRun(t)];
    ExecMore(d, end, InsertRun(t));
    end := end + [InsertRun(t)];
  }

  /** No run of `ws` has a row. */
  predicate NoneBegun(s: Sys, ws: seq<RunId>) {
    forall pk :: pk in s.runs ==> s.runs[pk].externalId !in ws
  }

  /** The first `n` of `ws` are open, as transactions from `base` on, over `s`. */
  ghost predicate Opened(d: Deployment, s: Sys, s': Sys, ws: seq<RunId>, base: nat, n: nat)
    requires n <= |ws| && forall i :: 0 <= i < |ws| ==> ws[i] in d.pushes
  {
    && s'.nodes == s.nodes && s'.committed == s.committed
    && (forall t :: t in s'.txs ==> base <= t < base + n)
    && (forall i :: 0 <= i < n ==> UpsertsFrom(d, s', base + i, ws[i], 0))
    && NoneBegun(s', ws[n..])
    && (forall i :: n <= i < |ws| ==> ws[i] in s'.clients && s'.clients[ws[i]].Posting?)
  }

  ghost predicate CanOpen(d: Deployment, s: Sys, ws: seq<RunId>, base: nat) {
    && s.txs == map[] && (forall t :: t in s.committed ==> t < base)
    && (forall i :: 0 <= i < |ws| ==> Admitted(d, ws[i]) && ws[i] in s.clients && s.clients[ws[i]].Posting?)
    && (forall i, j :: 0 <= i < j < |ws| ==> ws[i] != ws[j])
    && NoneBegun(s, ws)
  }

  lemma {:induction false} OpenedMore(d: Deployment, s: Sys, m: Sys, e: Sys, ws: seq<RunId>, base: nat, n: nat)
    requires CanOpen(d, s, ws, base) && n < |ws| && Opened(d, s, m, ws, base, n) && OpenedOne(d, m, e, base + n, ws[n])
    ensures Opened(d, s, e, ws, base, n + 1)
  {
    assert ws[n..] == [ws[n]] + ws[n + 1..];
    forall i | 0 <= i < n ensures UpsertsFrom(d, e, base + i, ws[i], 0) {
      assert UpsertsFrom(d, m, base + i, ws[i], 0);
    }
    assert ws[n] !in ws[n + 1..];
  }

  lemma {:induction false} OpenAll(d: Deployment, steps: seq<Step>, ws: seq<RunId>, base: nat, n: nat)
    returns (end: seq<Step>)
    requires d.Valid() && Exec(d, steps).Some? && CanOpen(d, Exec(d, steps).value, ws, base) && n <= |ws|
    ensures Exec(d, end).Some? && Opened(d, Exec(d, steps).value, Exec(d, end).value, ws, base, n)
  {
    var s := Exec(d, steps).value;
    end := steps;
    assert ws[0..] == ws;
    if n > 0 {
      end := OpenAll(d, steps, ws, base, n - 1);
      var m := Exec(d, end).value;
      assert ws[n - 1] == ws[n - 1..][0] && ws[n - 1] in ws[n - 1..];
      end := OpenOne(d, end, base + n - 1, ws[n - 1]);
      OpenedMore(d, s, m, Exec(d, end).value, ws, base, n - 1);
    }
  }

  // ---- carrying each to its part ----

  /** `e` is `s` after `t` has done `n` more of its nodes: what it did not find it inserted. */
  ghost predicate Upserted(s: Sys, e: Sys, t: nat, n: nat)
    requires t in s.txs && s.txs[t].stage.Upserting?
  {
    var todo := s.txs[t].stage.todo;
    && n <= |todo| && e.committed == s.committed
    && e.txs == s.txs[t := s.txs[t].(stage := s.txs[t].stage.(todo := todo[n..]))]
    && (forall i :: i in s.nodes ==> i in e.nodes && e.nodes[i] == s.nodes[i])
    && (forall i :: i in e.nodes && i !in s.nodes ==>
          e.nodes[i].xmin == t && Names(todo, n, e.nodes[i].key) && !HasKey(s, e.nodes[i].key))
    && (forall m :: 0 <= m < n ==> HasKey(e, todo[m].key))
  }

  predicate HasKey(s: Sys, k: NodeKey) { exists i :: i in s.nodes && s.nodes[i].key == k }

  lemma {:induction false} HasKeyKept(s: Sys, e: Sys, k: NodeKey)
    requires forall i :: i in s.nodes ==> i in e.nodes && e.nodes[i] == s.nodes[i]
    ensures HasKey(s, k) ==> HasKey(e, k)
  {
    if HasKey(s, k) {
      var i :| i in s.nodes && s.nodes[i].key == k;
      assert e.nodes[i] == s.nodes[i];
    }
  }

  /** Every row of a node that is among the first `n` to do is visible to `t`. */
  predicate AllVisible(s: Sys, t: nat, todo: seq<NodeIn>, n: nat) {
    forall i :: i in s.nodes && Names(todo, n, s.nodes[i].key) ==> s.SeesNode(t, i)
  }

  lemma {:induction false} UpsertOne(d: Deployment, s: Sys, t: nat)
    requires TablesOk(s) && Wants(s, t)
    requires forall i :: i in s.nodes && s.nodes[i].key == s.txs[t].stage.todo[0].key ==> s.SeesNode(t, i)
    ensures Enabled(d, s, UpsertNode(t)) && Upserted(s, Apply(d, s, UpsertNode(t)), t, 1)
  {
    var e, todo := Apply(d, s, UpsertNode(t)), s.txs[t].stage.todo;
    assert s.nextNode !in s.nodes;
    forall i | i in e.nodes && i !in s.nodes
      ensures e.nodes[i].xmin == t && Names(todo, 1, e.nodes[i].key) && !HasKey(s, e.nodes[i].key)
    {
      assert todo[0].key == e.nodes[i].key;
    }
    assert HasKey(e, todo[0].key) by {
      if !HasKey(s, todo[0].key) {
        assert e.nodes[s.nextNode].key == todo[0].key;
      } else {
        var i :| i in s.nodes && s.nodes[i].key == todo[0].key;
        assert e.nodes[i] == s.nodes[i];
      }
    }
  }

  lemma {:induction false} UpsertedMore(s: Sys, m: Sys, e: Sys, t: nat, n: nat)
    requires t in s.txs && s.txs[t].stage.Upserting? && Upserted(s, m, t, n)
    requires t in m.txs && m.txs[t].stage.Upserting? && Upserted(m, e, t, 1)
    ensures Upserted(s, e, t, n + 1)
  {
    var todo, left := s.txs[t].stage.todo, m.txs[t].stage.todo;
    assert left == todo[n..] && left[0] == todo[n] && left[1..] == todo[n + 1..];
    forall i | i in e.nodes && i !in s.nodes
      ensures e.nodes[i].xmin == t && Names(todo, n + 1, e.nodes[i].key) && !HasKey(s, e.nodes[i].key)
    {
      if i in m.nodes {
        var x :| 0 <= x < n && todo[x].key == e.nodes[i].key;
      } else {
        assert todo[n].key == e.nodes[i].key;
        HasKeyKept(s, m, e.nodes[i].key);
      }
    }
    forall x | 0 <= x < n + 1 ensures HasKey(e, todo[x].key) {
      if x < n {
        HasKeyKept(m, e, todo[x].key);
      } else {
        assert HasKey(e, left[0].key);
      }
    }
  }

  lemma {:induction false} NextIsVisible(s: Sys, m: Sys, t: nat, n: nat)
    requires t in s.txs && s.txs[t].stage.Upserting? && n < |s.txs[t].stage.todo|
    requires AllVisible(s, t, s.txs[t].stage.todo, n + 1) && Upserted(s, m, t, n)
    ensures Wants(m, t)
    ensures forall i :: i in m.nodes && m.nodes[i].key == m.txs[t].stage.todo[0].key ==> m.SeesNode(t, i)
  {
    var todo := s.txs[t].stage.todo;
    assert m.txs[t].stage.todo[0] == todo[n];
    forall i | i in m.nodes && m.nodes[i].key == todo[n].key ensures m.SeesNode(t, i) {
      if i in s.nodes {
        assert Names(todo, n + 1, s.nodes[i].key);
      }
    }
  }

  lemma {:induction false} UpsertMany(d: Deployment, steps: seq<Step>, t: nat, n: nat) returns (end: seq<Step>)
    requires d.Valid() && Exec(d, steps).Some?
    requires var s := Exec(d, steps).value;
      && t in s.txs && s.txs[t].stage.Upserting? && n <= |s.txs[t].stage.todo|
      && AllVisible(s, t, s.txs[t].stage.todo, n)
    ensures Exec(d, end).Some? && Upserted(Exec(d, steps).value, Exec(d, end).value, t, n)
  {
    var s := Exec(d, steps).value;
    end := steps;
    if n > 0 {
      FewerVisible(s, t, s.txs[t].stage.todo, n - 1);
      end := UpsertMany(d, steps, t, n - 1);
      end := UpsertNext(d, s, end, t, n - 1);
    }
  }

  lemma {:induction false} FewerVisible(s: Sys, t: nat, todo: seq<NodeIn>, n: nat)
    requires n < |todo| && AllVisible(s, t, todo, n + 1)
    ensures AllVisible(s, t, todo, n)
  {
    forall k | Names(todo, n, k) ensures Names(todo, n + 1, k) {
      var x :| 0 <= x < n && todo[x].key == k;
    }
  }

  lemma {:induction false} UpsertNext(d: Deployment, s: Sys, steps: seq<Step>, t: nat, n: nat) returns (end: seq<Step>)
    requires d.Valid() && Exec(d, steps).Some?
    requires t in s.txs && s.txs[t].stage.Upserting? && n < |s.txs[t].stage.todo|
    requires AllVisible(s, t, s.txs[t].stage.todo, n + 1) && Upserted(s, Exec(d, steps).value, t, n)
    ensures Exec(d, end).Some? && Upserted(s, Exec(d, end).value, t, n + 1)
  {
    var m := Exec(d, steps).value;
    NextIsVisible(s, m, t, n);
    assert TablesOk(m) by { Serialisable(d, steps); }
    UpsertOne(d, m, t);
    ExecMore(d, steps, UpsertNode(t));
    end := steps + [UpsertNode(t)];
    UpsertedMore(s, m, Exec(d, end).value, t, n);
  }

  // ---- all of them ----

  /** The pushes of an entanglement in a list, with how much of each is to be done. */
  ghost predicate Listed(d: Deployment, ws: seq<RunId>, ns: seq<nat>) {
    |ns| == |ws| && forall i :: 0 <= i < |ws| ==> IsPart(d, ws[i], ns[i])
  }

  ghost predicate ListedApart(d: Deployment, known: set<NodeKey>, ws: seq<RunId>, ns: seq<nat>)
    requires Listed(d, ws, ns)
  {
    forall i, j, k :: 0 <= i < j < |ws| ==> !Takes(d, ws[i], ns[i], known, k) || !Takes(d, ws[j], ns[j], known, k)
  }

  /** A row is of a node known before, and committed, or taken by one of the first `n`. */
  predicate RowTaken(d: Deployment, row: NodeRow, committed: set<nat>, known: set<NodeKey>, ws: seq<RunId>,
                     ns: seq<nat>, base: nat, n: nat)
    requires n <= |ws| == |ns| && forall i :: 0 <= i < |ws| ==> ws[i] in d.pushes
  {
    || (row.xmin in committed && row.key in known)
    || exists i :: 0 <= i < n && row.xmin == base + i && Takes(d, ws[i], ns[i], known, row.key)
  }

  ghost predicate HoldsAll(d: Deployment, s: Sys, t: nat, r: RunId, n: nat, known: set<NodeKey>)
    requires r in d.pushes
  {
    forall k :: Takes(d, r, n, known, k) ==> Holds(s, t, k)
  }

  /** The first `n` are carried to their parts, and the rest are open. */
  ghost predicate Carried(d: Deployment, s: Sys, known: set<NodeKey>, ws: seq<RunId>, ns: seq<nat>, base: nat, n: nat)
    requires Listed(d, ws, ns) && n <= |ws|
  {
    && (forall t :: t in s.committed ==> t < base)
    && (forall i :: 0 <= i < |ws| ==> UpsertsFrom(d, s, base + i, ws[i], if i < n then ns[i] else 0))
    && (forall x :: x in s.nodes ==> RowTaken(d, s.nodes[x], s.committed, known, ws, ns, base, n))
    && (forall k :: k in known ==> HasKey(s, k))
    && (forall i :: 0 <= i < n ==> HoldsAll(d, s, base + i, ws[i], ns[i], known))
  }

  lemma {:induction false} NextIsFree(d: Deployment, s: Sys, known: set<NodeKey>, ws: seq<RunId>, ns: seq<nat>,
                                      base: nat, n: nat)
    requires Listed(d, ws, ns) && ListedApart(d, known, ws, ns) && n < |ws| && Carried(d, s, known, ws, ns, base, n)
    ensures AllVisible(s, base + n, ItemsOf(d, ws[n]), ns[n])
  {
    forall x | x in s.nodes && Names(ItemsOf(d, ws[n]), ns[n], s.nodes[x].key) ensures s.SeesNode(base + n, x) {
      assert RowTaken(d, s.nodes[x], s.committed, known, ws, ns, base, n);
      if s.nodes[x].key !in known {
        NotTakenBefore(d, known, ws, ns, n, s.nodes[x].key);
      }
    }
  }

  lemma {:induction false} NotTakenBefore(d: Deployment, known: set<NodeKey>, ws: seq<RunId>, ns: seq<nat>, n: nat,
                                          k: NodeKey)
    requires Listed(d, ws, ns) && ListedApart(d, known, ws, ns) && n < |ws| && Takes(d, ws[n], ns[n], known, k)
    ensures forall i :: 0 <= i < n ==> !Takes(d, ws[i], ns[i], known, k)
  {
  }

  /** What the next one takes is not there yet. */
  lemma {:induction false} NotThereYet(d: Deployment, s: Sys, known: set<NodeKey>, ws: seq<RunId>, ns: seq<nat>,
                                       base: nat, n: nat, k: NodeKey)
    requires Listed(d, ws, ns) && ListedApart(d, known, ws, ns) && n < |ws| && Carried(d, s, known, ws, ns, base, n)
    requires Takes(d, ws[n], ns[n], known, k)
    ensures !HasKey(s, k)
  {
    NotTakenBefore(d, known, ws, ns, n, k);
  }

  lemma {:induction false} RowsStayTaken(d: Deployment, s: Sys, e: Sys, known: set<NodeKey>, ws: seq<RunId>,
                                         ns: seq<nat>, base: nat, n: nat, x: nat)
    requires Listed(d, ws, ns) && n < |ws| && Carried(d, s, known, ws, ns, base, n)
    requires Upserted(s, e, base + n, ns[n]) && x in e.nodes
    ensures RowTaken(d, e.nodes[x], e.committed, known, ws, ns, base, n + 1)
  {
    if x in s.nodes {
      assert RowTaken(d, s.nodes[x], s.committed, known, ws, ns, base, n);
    } else {
      assert UpsertsFrom(d, s, base + n, ws[n], 0);
      assert ItemsOf(d, ws[n])[0..] == ItemsOf(d, ws[n]);
      assert Takes(d, ws[n], ns[n], known, e.nodes[x].key);
    }
  }

  lemma {:induction false} NowHolds(d: Deployment, s: Sys, e: Sys, known: set<NodeKey>, ws: seq<RunId>, ns: seq<nat>,
                                    base: nat, n: nat, k: NodeKey)
    requires Listed(d, ws, ns) && ListedApart(d, known, ws, ns) && n < |ws| && Carried(d, s, known, ws, ns, base, n)
    requires Upserted(s, e, base + n, ns[n]) && Takes(d, ws[n], ns[n], known, k)
    ensures Holds(e, base + n, k)
  {
    assert UpsertsFrom(d, s, base + n, ws[n], 0);
    var items := ItemsOf(d, ws[n]);
    assert items[0..] == items;
    var m :| 0 <= m < ns[n] && items[m].key == k;
    assert HasKey(e, items[m].key);
    var x :| x in e.nodes && e.nodes[x].key == k;
    NotThereYet(d, s, known, ws, ns, base, n, k);
    assert x !in s.nodes;
  }

  lemma {:induction false} StillHolds(d: Deployment, s: Sys, e: Sys, t: nat, r: RunId, n: nat, known: set<NodeKey>)
    requires r in d.pushes && HoldsAll(d, s, t, r, n, known)
    requires forall i :: i in s.nodes ==> i in e.nodes && e.nodes[i] == s.nodes[i]
    ensures HoldsAll(d, e, t, r, n, known)
  {
    forall k | Takes(d, r, n, known, k) ensures Holds(e, t, k) {
      assert Holds(s, t, k);
      var i :| i in s.nodes && s.nodes[i].key == k && s.nodes[i].xmin == t;
      assert e.nodes[i] == s.nodes[i];
    }
  }

  lemma {:induction false} OthersStandBy(d: Deployment, s: Sys, e: Sys, ws: seq<RunId>, ns: seq<nat>, base: nat,
                                         n: nat, i: nat)
    requires Listed(d, ws, ns) && n < |ws| && i < |ws|
    requires UpsertsFrom(d, s, base + i, ws[i], if i < n then ns[i] else 0) && UpsertsFrom(d, s, base + n, ws[n], 0)
    requires Upserted(s, e, base + n, ns[n])
    ensures UpsertsFrom(d, e, base + i, ws[i], if i < n + 1 then ns[i] else 0)
  {
    assert ItemsOf(d, ws[n])[0..] == ItemsOf(d, ws[n]);
  }

  lemma {:induction false} CarriedMore(d: Deployment, s: Sys, e: Sys, known: set<NodeKey>, ws: seq<RunId>, ns: seq<nat>,
                                       base: nat, n: nat)
    requires Listed(d, ws, ns) && ListedApart(d, known, ws, ns) && n < |ws| && Carried(d, s, known, ws, ns, base, n)
    requires Upserted(s, e, base + n, ns[n])
    ensures Carried(d, e, known, ws, ns, base, n + 1)
  {
    assert UpsertsFrom(d, s, base + n, ws[n], 0);
    forall i | 0 <= i < |ws| ensures UpsertsFrom(d, e, base + i, ws[i], if i < n + 1 then ns[i] else 0) {
      OthersStandBy(d, s, e, ws, ns, base, n, i);
    }
    forall x | x in e.nodes ensures RowTaken(d, e.nodes[x], e.committed, known, ws, ns, base, n + 1) {
      RowsStayTaken(d, s, e, known, ws, ns, base, n, x);
    }
    forall k | k in known ensures HasKey(e, k) {
      HasKeyKept(s, e, k);
    }
    forall i | 0 <= i < n + 1 ensures HoldsAll(d, e, base + i, ws[i], ns[i], known) {
      if i < n {
        StillHolds(d, s, e, base + i, ws[i], ns[i], known);
      } else {
        forall k | Takes(d, ws[n], ns[n], known, k) ensures Holds(e, base + n, k) {
          NowHolds(d, s, e, known, ws, ns, base, n, k);
        }
      }
    }
  }

  lemma {:induction false} CarryAll(d: Deployment, steps: seq<Step>, known: set<NodeKey>, ws: seq<RunId>, ns: seq<nat>,
                                    base: nat, n: nat) returns (end: seq<Step>)
    requires d.Valid() && Exec(d, steps).Some? && Listed(d, ws, ns) && ListedApart(d, known, ws, ns) && n <= |ws|
    requires Carried(d, Exec(d, steps).value, known, ws, ns, base, 0)
    ensures Exec(d, end).Some? && Carried(d, Exec(d, end).value, known, ws, ns, base, n)
  {
    end := steps;
    if n > 0 {
      end := CarryAll(d, steps, known, ws, ns, base, n - 1);
      end := CarryNext(d, end, known, ws, ns, base, n - 1);
    }
  }

  lemma {:induction false} CarryNext(d: Deployment, steps: seq<Step>, known: set<NodeKey>, ws: seq<RunId>, ns: seq<nat>,
                                     base: nat, n: nat) returns (end: seq<Step>)
    requires d.Valid() && Exec(d, steps).Some? && Listed(d, ws, ns) && ListedApart(d, known, ws, ns) && n < |ws|
    requires Carried(d, Exec(d, steps).value, known, ws, ns, base, n)
    ensures Exec(d, end).Some? && Carried(d, Exec(d, end).value, known, ws, ns, base, n + 1)
  {
    var s := Exec(d, steps).value;
    NextIsFree(d, s, known, ws, ns, base, n);
    assert UpsertsFrom(d, s, base + n, ws[n], 0) && IsPart(d, ws[n], ns[n]);
    assert ItemsOf(d, ws[n])[0..] == ItemsOf(d, ws[n]);
    end := UpsertMany(d, steps, base + n, ns[n]);
    CarriedMore(d, s, Exec(d, end).value, known, ws, ns, base, n);
  }

  // ---- the deadlock ----

  ghost predicate ListedGoOn(d: Deployment, known: set<NodeKey>, ws: seq<RunId>, ns: seq<nat>)
    requires Listed(d, ws, ns)
  {
    forall i {:trigger ListedNext(d, known, ws, ns, i)} :: 0 <= i < |ws| ==> ListedNext(d, known, ws, ns, i)
  }

  ghost predicate ListedNext(d: Deployment, known: set<NodeKey>, ws: seq<RunId>, ns: seq<nat>, i: nat)
    requires Listed(d, ws, ns) && i < |ws|
  {
    exists j :: 0 <= j < |ws| && Takes(d, ws[j], ns[j], known, ItemsOf(d, ws[i])[ns[i]].key)
  }

  lemma {:induction false} NextIsNotOwn(d: Deployment, r: RunId, n: nat, known: set<NodeKey>)
    requires IsPart(d, r, n)
    ensures !Takes(d, r, n, known, ItemsOf(d, r)[n].key)
  {
    SeenIsLastPerKey(d.pushes[r].body.results);
  }

  function IdsFrom(base: nat, n: nat): (ts: set<nat>)
    ensures forall t :: t in ts <==> base <= t < base + n
  {
    if n == 0 then {} else IdsFrom(base, n - 1) + {base + n - 1}
  }

  lemma {:induction false} CarriedIsDeadlock(d: Deployment, s: Sys, known: set<NodeKey>, ws: seq<RunId>, ns: seq<nat>,
                                             base: nat)
    requires Listed(d, ws, ns) && ListedGoOn(d, known, ws, ns) && |ws| > 0 && Carried(d, s, known, ws, ns, base, |ws|)
    ensures DeadlockOf(s, IdsFrom(base, |ws|))
  {
    var ts := IdsFrom(base, |ws|);
    assert base in ts;
    forall t | t in ts ensures Blocked(s, t, ts) {
      var j := CarriedWaits(d, s, known, ws, ns, base, t - base);
      assert base + j in ts;
    }
  }

  lemma {:induction false} CarriedWaits(d: Deployment, s: Sys, known: set<NodeKey>, ws: seq<RunId>, ns: seq<nat>,
                                        base: nat, i: nat) returns (j: nat)
    requires Listed(d, ws, ns) && ListedGoOn(d, known, ws, ns) && i < |ws| && Carried(d, s, known, ws, ns, base, |ws|)
    ensures j < |ws| && WaitsFor(s, base + i, base + j)
  {
    j := TakerOfNext(d, known, ws, ns, i);
    HoldsTaken(d, s, known, ws, ns, base, j, ItemsOf(d, ws[i])[ns[i]].key);
    assert UpsertsFrom(d, s, base + i, ws[i], ns[i]);
    WaitsAt(d, s, base + i, ws[i], ns[i], base + j);
  }

  lemma {:induction false} TakerOfNext(d: Deployment, known: set<NodeKey>, ws: seq<RunId>, ns: seq<nat>, i: nat)
    returns (j: nat)
    requires Listed(d, ws, ns) && ListedGoOn(d, known, ws, ns) && i < |ws|
    ensures j < |ws| && j != i && Takes(d, ws[j], ns[j], known, ItemsOf(d, ws[i])[ns[i]].key)
  {
    assert ListedNext(d, known, ws, ns, i);
    j :| 0 <= j < |ws| && Takes(d, ws[j], ns[j], known, ItemsOf(d, ws[i])[ns[i]].key);
    NextIsNotOwn(d, ws[i], ns[i], known);
  }

  lemma {:induction false} HoldsTaken(d: Deployment, s: Sys, known: set<NodeKey>, ws: seq<RunId>, ns: seq<nat>,
                                      base: nat, j: nat, k: NodeKey)
    requires Listed(d, ws, ns) && j < |ws| && Carried(d, s, known, ws, ns, base, |ws|)
    requires Takes(d, ws[j], ns[j], known, k)
    ensures Holds(s, base + j, k) && base + j !in s.committed
  {
    assert HoldsAll(d, s, base + j, ws[j], ns[j], known);
  }

  lemma {:induction false} WaitsAt(d: Deployment, s: Sys, t: nat, r: RunId, n: nat, u: nat)
    requires r in d.pushes && UpsertsFrom(d, s, t, r, n) && n < |ItemsOf(d, r)| && t != u && u !in s.committed
    requires Holds(s, u, ItemsOf(d, r)[n].key)
    ensures WaitsFor(s, t, u)
  {
    assert s.txs[t].stage.todo[0] == ItemsOf(d, r)[n];
  }

  // ---- from an entanglement to its list ----

  lemma {:induction false} Enumerate(rs: set<RunId>) returns (ws: seq<RunId>)
    ensures (forall r :: r in ws <==> r in rs) && forall i, j :: 0 <= i < j < |ws| ==> ws[i] != ws[j]
  {
    ws := [];
    if rs != {} {
      var r :| r in rs;
      ws := Enumerate(rs - {r});
      ws := ws + [r];
    }
  }

  /** `ws` and `ns` list the parts, each once. */
  ghost predicate Lists(part: map<RunId, nat>, ws: seq<RunId>, ns: seq<nat>) {
    && |ns| == |ws| && (forall r :: r in ws <==> r in part)
    && (forall i, j :: 0 <= i < j < |ws| ==> ws[i] != ws[j])
    && (forall i :: 0 <= i < |ws| ==> ws[i] in part && ns[i] == part[ws[i]])
  }

  lemma {:induction false} ListOf(part: map<RunId, nat>) returns (ws: seq<RunId>, ns: seq<nat>)
    ensures Lists(part, ws, ns)
  {
    ws := Enumerate(part.Keys);
    forall i | 0 <= i < |ws| ensures ws[i] in part {
      assert ws[i] in part.Keys;
    }
    ns := seq(|ws|, i requires 0 <= i < |ws| => part[ws[i]]);
  }

  lemma {:induction false} ListIsApart(d: Deployment, known: set<NodeKey>, part: map<RunId, nat>, ws: seq<RunId>,
                                       ns: seq<nat>)
    requires AreParts(d, part) && Apart(d, known, part) && Lists(part, ws, ns)
    ensures Listed(d, ws, ns) && ListedApart(d, known, ws, ns) && |ws| > 0
  {
    var r :| r in part;
    assert r in ws;
    forall i | 0 <= i < |ws| ensures IsPart(d, ws[i], ns[i]) {
      assert IsPart(d, ws[i], part[ws[i]]);
    }
    forall i, j, k | 0 <= i < j < |ws| ensures !Takes(d, ws[i], ns[i], known, k) || !Takes(d, ws[j], ns[j], known, k) {
      assert ws[i] != ws[j];
    }
  }

  lemma {:induction false} ListGoesOn(d: Deployment, known: set<NodeKey>, part: map<RunId, nat>, ws: seq<RunId>,
                                      ns: seq<nat>)
    requires AreParts(d, part) && Lists(part, ws, ns) && Listed(d, ws, ns)
    requires forall p {:trigger NextTaken(d, known, part, p)} :: p in part ==> NextTaken(d, known, part, p)
    ensures ListedGoOn(d, known, ws, ns)
  {
    forall i | 0 <= i < |ws| ensures ListedNext(d, known, ws, ns, i) {
      ListGoesOnAt(d, known, part, ws, ns, i);
    }
  }

  lemma {:induction false} ListGoesOnAt(d: Deployment, known: set<NodeKey>, part: map<RunId, nat>, ws: seq<RunId>,
                                        ns: seq<nat>, i: nat)
    requires AreParts(d, part) && Lists(part, ws, ns) && Listed(d, ws, ns) && i < |ws|
    requires NextTaken(d, known, part, ws[i])
    ensures ListedNext(d, known, ws, ns, i)
  {
    var q :| q in part && Takes(d, q, part[q], known, ItemsOf(d, ws[i])[part[ws[i]]].key);
    assert q in ws;
    var j :| 0 <= j < |ws| && ws[j] == q;
    assert Takes(d, ws[j], ns[j], known, ItemsOf(d, ws[i])[ns[i]].key);
  }

  // ---- the theorem ----

  /** A store of `first` alone is known and committed. */
  lemma {:induction false} StoredIsKnown(d: Deployment, steps: seq<Step>, first: seq<RunId>)
    requires d.Valid() && OnlyStored(d, steps, first) && AreStored(d, first)
    ensures var s := Exec(d, steps).value;
      && (forall x :: x in s.nodes ==> s.nodes[x].xmin in s.committed && s.nodes[x].key in Known(d, first))
      && (forall k :: k in Known(d, first) ==> HasKey(s, k))
      && (forall pk :: pk in s.runs ==> s.runs[pk].externalId in first)
  {
    var s, ps := Exec(d, steps).value, Commits(d, steps);
    Serialisable(d, steps);
    KnownIsReplayed(d, ps);
    forall x | x in s.nodes ensures s.nodes[x].xmin in s.committed && s.nodes[x].key in Known(d, first) {
      assert s.CommittedNode(x);
    }
    forall pk | pk in s.runs ensures s.runs[pk].externalId in first {
      assert s.CommittedRun(pk);
      if s.runs[pk].externalId !in first {
        NotYetStored(d, steps, first, s.runs[pk].externalId);
      }
    }
  }

  lemma {:induction false} OpenedIsCarried(d: Deployment, s: Sys, e: Sys, known: set<NodeKey>, ws: seq<RunId>,
                                           ns: seq<nat>, base: nat)
    requires Listed(d, ws, ns) && CanOpen(d, s, ws, base) && Opened(d, s, e, ws, base, |ws|)
    requires forall x :: x in s.nodes ==> s.nodes[x].xmin in s.committed && s.nodes[x].key in known
    requires forall k :: k in known ==> HasKey(s, k)
    ensures Carried(d, e, known, ws, ns, base, 0)
  {
    forall k | k in known ensures HasKey(e, k) {
      HasKeyKept(s, e, k);
    }
  }

  /** An entanglement leads to a deadlock: store the first pushes, open the others, and carry
      each to its part. */
  lemma {:induction false} EntanglementDeadlocks(d: Deployment, first: seq<RunId>, part: map<RunId, nat>)
    returns (steps: seq<Step>, ts: set<nat>)
    requires d.Valid() && Entangled(d, first, part)
    ensures Exec(d, steps).Some? && DeadlockOf(Exec(d, steps).value, ts)
  {
    var ws, ns := ListOf(part);
    ListEntangles(d, first, part, ws, ns);
    steps, ts := ListDeadlocks(d, first, ws, ns);
  }

  ghost predicate EntangledList(d: Deployment, first: seq<RunId>, ws: seq<RunId>, ns: seq<nat>) {
    && AreStored(d, first) && Listed(d, ws, ns) && |ws| > 0
    && ListedApart(d, Known(d, first), ws, ns) && ListedGoOn(d, Known(d, first), ws, ns)
    && (forall r :: r in ws ==> r !in first) && forall i, j :: 0 <= i < j < |ws| ==> ws[i] != ws[j]
  }

  lemma {:induction false} ListEntangles(d: Deployment, first: seq<RunId>, part: map<RunId, nat>, ws: seq<RunId>,
                                         ns: seq<nat>)
    requires Entangled(d, first, part) && Lists(part, ws, ns)
    ensures EntangledList(d, first, ws, ns)
  {
    ListIsApart(d, Known(d, first), part, ws, ns);
    ListGoesOn(d, Known(d, first), part, ws, ns);
  }

  lemma {:induction false} ListDeadlocks(d: Deployment, first: seq<RunId>, ws: seq<RunId>, ns: seq<nat>)
    returns (steps: seq<Step>, ts: set<nat>)
    requires d.Valid() && EntangledList(d, first, ws, ns)
    ensures Exec(d, steps).Some? && DeadlockOf(Exec(d, steps).value, ts)
  {
    var known := Known(d, first);
    var stored := StoreAll(d, first);
    var base := UnusedId(Exec(d, stored).value.committed);
    steps := OpenOver(d, stored, first, ws, ns, base);
    steps := CarryAll(d, steps, known, ws, ns, base, |ws|);
    CarriedIsDeadlock(d, Exec(d, steps).value, known, ws, ns, base);
    ts := IdsFrom(base, |ws|);
  }

  lemma {:induction false} OpenOver(d: Deployment, steps: seq<Step>, first: seq<RunId>, ws: seq<RunId>, ns: seq<nat>,
                                    base: nat) returns (end: seq<Step>)
    requires d.Valid() && OnlyStored(d, steps, first) && AreStored(d, first) && Listed(d, ws, ns)
    requires (forall r :: r in ws ==> r !in first) && forall i, j :: 0 <= i < j < |ws| ==> ws[i] != ws[j]
    requires forall t :: t in Exec(d, steps).value.committed ==> t < base
    ensures Exec(d, end).Some? && Carried(d, Exec(d, end).value, Known(d, first), ws, ns, base, 0)
  {
    var s := Exec(d, steps).value;
    StoredIsKnown(d, steps, first);
    forall i | 0 <= i < |ws| ensures Admitted(d, ws[i]) && ws[i] in s.clients && s.clients[ws[i]].Posting? {
      assert IsPart(d, ws[i], ns[i]) && ws[i] in ws;
    }
    end := OpenAll(d, steps, ws, base, |ws|);
    OpenedIsCarried(d, s, Exec(d, end).value, Known(d, first), ws, ns, base);
  }

  /** Some run of the clients comes to a deadlock. */
  ghost predicate CanDeadlock(d: Deployment) {
    exists steps: seq<Step>, ts: set<nat> :: Exec(d, steps).Some? && DeadlockOf(Exec(d, steps).value, ts)
  }

  ghost predicate HasEntanglement(d: Deployment) {
    exists first: seq<RunId>, part: map<RunId, nat> :: Entangled(d, first, part)
  }

  /** What the clients post decides whether requests can come to wait for each other: they
      can exactly if, once some pushes are stored, first parts of some others take different
      nodes while each comes to a node that another has taken. */
  lemma {:induction false} DeadlockIff(d: Deployment)
    requires d.Valid()
    ensures CanDeadlock(d) <==> HasEntanglement(d)
  {
    if CanDeadlock(d) {
      var steps: seq<Step>, ts: set<nat> :| Exec(d, steps).Some? && DeadlockOf(Exec(d, steps).value, ts);
      var first, part := DeadlockIsEntangled(d, steps, ts);
    }
    if HasEntanglement(d) {
      var first: seq<RunId>, part: map<RunId, nat> :| Entangled(d, first, part);
      var steps, ts := EntanglementDeadlocks(d, first, part);
    }
  }

  /** After `i` nodes of `p` and `j` of `q`, with none in common, each comes to a node that
      the other has done. */
  predicate Crossed(d: Deployment, p: RunId, i: nat, q: RunId, j: nat)
    requires p in d.pushes && q in d.pushes
  {
    && i < |ItemsOf(d, p)| && j < |ItemsOf(d, q)|
    && Names(ItemsOf(d, q), j, ItemsOf(d, p)[i].key) && Names(ItemsOf(d, p), i, ItemsOf(d, q)[j].key)
    && forall m, n :: 0 <= m < i && 0 <= n < j ==> ItemsOf(d, p)[m].key != ItemsOf(d, q)[n].key
  }

  lemma {:induction false} CrossedIsEntangled(d: Deployment, p: RunId, i: nat, q: RunId, j: nat)
    requires Admitted(d, p) && Admitted(d, q) && p != q && Crossed(d, p, i, q, j)
    ensures Entangled(d, [], map[p := i, q := j])
  {
    CrossedTake(d, p, i, q, j);
    PairEntangles(d, map[p := i, q := j], p, q);
  }

  lemma {:induction false} CrossedTake(d: Deployment, p: RunId, i: nat, q: RunId, j: nat)
    requires p in d.pushes && q in d.pushes && Crossed(d, p, i, q, j)
    ensures Takes(d, q, j, {}, ItemsOf(d, p)[i].key) && Takes(d, p, i, {}, ItemsOf(d, q)[j].key)
    ensures forall k :: !Takes(d, p, i, {}, k) || !Takes(d, q, j, {}, k)
  {
  }

  lemma {:induction false} PairEntangles(d: Deployment, part: map<RunId, nat>, p: RunId, q: RunId)
    requires part.Keys == {p, q} && IsPart(d, p, part[p]) && IsPart(d, q, part[q])
    requires Takes(d, q, part[q], {}, ItemsOf(d, p)[part[p]].key) && Takes(d, p, part[p], {}, ItemsOf(d,
      q)[part[q]].key)
    requires forall k :: !Takes(d, p, part[p], {}, k) || !Takes(d, q, part[q], {}, k)
    ensures Entangled(d, [], part)
  {
    assert p in part && q in part;
    assert AreParts(d, part);
    assert NextTaken(d, {}, part, p) && NextTaken(d, {}, part, q);
  }

  /** So two pushes that name nodes in crossed orders can deadlock over an empty store. */
  lemma {:induction false} OppositeOrdersDeadlock(d: Deployment, p: RunId, i: nat, q: RunId, j: nat)
    returns (steps: seq<Step>, ts: set<nat>)
    requires d.Valid() && Admitted(d, p) && Admitted(d, q) && p != q && Crossed(d, p, i, q, j)
    ensures Exec(d, steps).Some? && DeadlockOf(Exec(d, steps).value, ts)
  {
    CrossedIsEntangled(d, p, i, q, j);
    steps, ts := EntanglementDeadlocks(d, [], map[p := i, q := j]);
  }
}
