/** The clients of the step system are runs of the retry loop. */
module ClientLoop {
  import opened Schema
  import opened PushClient
  import opened IngestSystem
  import opened ExactlyOnce

  /** What a step plays for one client: the end of an attempt, or of a wait. */
  function TurnOf(step: Step, r: RunId): seq<Turn> {
    match step
    case Receive(m) => if m.runId == r then [Turn(false, Response(HttpCode(m.status)))] else []
    case LoseContact(c) => if c == r then [Turn(false, NoResponse)] else []
    case CancelWait(c) => if c == r then [Turn(true, NoResponse)] else []
    case _ => []
  }

  /** The turns of the loop that the steps so far have played for one client. */
  function TurnsOf(steps: seq<Step>, r: RunId): seq<Turn> {
    if |steps| == 0 then [] else TurnsOf(steps[..|steps| - 1], r) + TurnOf(steps[|steps| - 1], r)
  }

  /** In the middle of an attempt the loop still stands where it was when it sent. */
  function Between(c: Client): Client {
    match c
    case Awaiting(k) => Posting(k)
    case _ => c
  }

  lemma {:induction false} TurnPlayed(turns: seq<Turn>, turn: Turn, k: nat)
    requires Play(turns) == Posting(k)
    ensures Play(turns + [turn]) == if k > 0 && turn.cancelled then Cancelled else AfterAttempt(k, Judge(turn.exchange))
  {
    assert (turns + [turn])[..|turns|] == turns;
  }

  /** In every run each client is where the loop is after the turns played for it. */
  lemma {:induction false} ClientsPlay(d: Deployment, steps: seq<Step>, r: RunId)
    requires d.Valid() && Exec(d, steps).Some? && r in d.pushes
    ensures var s := Exec(d, steps).value; r in s.clients && Between(s.clients[r]) == Play(TurnsOf(steps, r))
  {
    if |steps| > 0 {
      var n := |steps| - 1;
      ClientsPlay(d, steps[..n], r);
      ClientTurn(d, Exec(d, steps[..n]).value, steps[n], r, TurnsOf(steps[..n], r));
    }
  }

  lemma {:induction false} ClientTurn(d: Deployment, s: Sys, step: Step, r: RunId, turns: seq<Turn>)
    requires Enabled(d, s, step) && r in s.clients && Between(s.clients[r]) == Play(turns)
    ensures var s' := Apply(d, s, step);
      r in s'.clients && Between(s'.clients[r]) == Play(turns + TurnOf(step, r))
  {
    if |TurnOf(step, r)| > 0 {
      TurnPlayed(turns, TurnOf(step, r)[0], s.clients[r].attempt);
    } else {
      assert turns + TurnOf(step, r) == turns;
    }
  }

  /** The loop itself, on the turns that a run of the system has played for one client and
      any others after them: if the client has come to its end there, the loop returns that
      end, and then success means stored and a refusal means never stored. */
  method PushInSystem(ghost d: Deployment, ghost steps: seq<Step>, r: RunId, turns: seq<Turn>) returns (end: Client)
    requires d.Valid() && Exec(d, steps).Some? && r in d.pushes
    requires |turns| == MAX_ATTEMPTS && TurnsOf(steps, r) <= turns
    requires var c := Exec(d, steps).value.clients; r in c && !c[r].Posting? && !c[r].Awaiting?
    ensures end == Exec(d, steps).value.clients[r]
    ensures end.Stored? ==> Exec(d, steps).value.HasRun(r)
    ensures end.Refused? ==> !d.Admits(d.pushes[r]) && !Exec(d, steps).value.HasRun(r)
  {
    ClientsPlay(d, steps, r);
    ClientsMayTrustTheReply(d, steps);
    assert turns[..|TurnsOf(steps, r)|] == TurnsOf(steps, r);
    PlayEnds(turns, |TurnsOf(steps, r)|);
    var posts, waited;
    end, posts, waited := PushResults(turns);
  }
}
