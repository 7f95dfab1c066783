/** The send-and-wait loop shared by the UDP probers, driven by whatever the socket, the
    context and the clock do. */
module UdpExchange {
  import opened Base
  import opened Bytes
  import opened Probe

  type bytes = seq<byte>

  const READ_BUFFER := 1500

  /** `accept` is None when any datagram will do; otherwise it returns an error text. */
  datatype Exchange = Exchange(
    payload: bytes, attempts: nat, sendPhase: string, respPhase: string,
    accept: Option<bytes -> Option<string>>, silenceOk: bool)

  datatype Read = Datagram(data: bytes) | ReadFailed(err: string, timeout: bool)

  /** One pass of the loop: the write that resends, the clock when the deadline is computed,
      the read and when it returned, the context, and the clock when the deadline is checked. */
  datatype Attempt = Attempt(
    writeErr: Option<string>, armedAt: int, deadlineErr: Option<string>,
    read: Read, doneAt: int, cancelled: bool, checkedAt: int)

  datatype Env = Env(
    dialErr: Option<string>, setupErr: Option<string>, writeErr: Option<string>, sendTook: int,
    openedAt: int, ctxDeadline: Option<int>, attempts: seq<Attempt>, respTook: int)

  function Min(a: int, b: int): int { if a < b then a else b }

  /** Go's integer division, which truncates toward zero. */
  function Quotient(a: int, n: nat): int
    requires n > 0
  {
    if a >= 0 then a / n else -((-a) / n)
  }

  function PhaseDeadline(env: Env, timeout: int): int {
    if env.ctxDeadline.Some? then Min(env.ctxDeadline.value, env.openedAt + timeout) else env.openedAt + timeout
  }

  function ReadDeadline(x: Exchange, env: Env, timeout: int, i: nat): int
    requires x.attempts > 0 && i < |env.attempts|
  {
    Min(env.attempts[i].armedAt + Quotient(timeout, x.attempts), PhaseDeadline(env, timeout))
  }

  function Received(data: bytes): bytes {
    if |data| <= READ_BUFFER then data else data[..READ_BUFFER]
  }

  /** What attempt `i` comes to if it is made. Only Silent goes on to the next. */
  datatype Event = Accepted(reply: bytes) | Definitive(err: string) | OutOfTime(err: string) | Silent(err: string)

  function EventAt(x: Exchange, env: Env, timeout: int, i: nat): Event
    requires i < |env.attempts|
  {
    var a := env.attempts[i];
    if i > 0 && a.writeErr.Some? then Definitive(a.writeErr.value)
    else if a.deadlineErr.Some? then Definitive(a.deadlineErr.value)
    else
      match a.read
      case Datagram(data) =>
        if x.accept.Some? && x.accept.value(Received(data)).Some?
        then Definitive(x.accept.value(Received(data)).value)
        else Accepted(Received(data))
      case ReadFailed(err, timedOut) =>
        if !timedOut || a.cancelled then Definitive(err)
        else if a.checkedAt < PhaseDeadline(env, timeout) then Silent(err)
        else OutOfTime(err)
  }

  predicate Ready(x: Exchange, env: Env) { x.attempts > 0 && |env.attempts| == x.attempts }

  /** The attempt at which the loop ends: the first that is not silent, or the last. */
  function StopFrom(x: Exchange, env: Env, timeout: int, i: nat): (stop: nat)
    requires Ready(x, env) && i < x.attempts
    ensures i <= stop < x.attempts
    decreases x.attempts - i
  {
    if EventAt(x, env, timeout, i).Silent? && i + 1 < x.attempts then StopFrom(x, env, timeout, i + 1) else i
  }

  function Stop(x: Exchange, env: Env, timeout: int): (stop: nat)
    requires Ready(x, env)
    ensures stop < x.attempts
  {
    StopFrom(x, env, timeout, 0)
  }

  /** The second phase, from the attempt at which the loop ends. A success after an earlier
      silence keeps the text of that silence. */
  function Verdict(x: Exchange, env: Env, timeout: int): Phase
    requires Ready(x, env)
  {
    var stop := Stop(x, env, timeout);
    match EventAt(x, env, timeout, stop)
    case Accepted(_) =>
      Phase(x.respPhase, true, env.respTook, StaleError(x, env, timeout, stop))
    case Definitive(err) => Phase(x.respPhase, false, env.respTook, err)
    case OutOfTime(err) => SilentVerdict(x, env, err)
    case Silent(err) => SilentVerdict(x, env, err)
  }

  function SilentVerdict(x: Exchange, env: Env, err: string): Phase {
    Phase(x.respPhase, x.silenceOk, env.respTook, if x.silenceOk then "" else err)
  }

  /** What `Err` holds when attempt `i` begins. */
  function StaleError(x: Exchange, env: Env, timeout: int, i: nat): string
    requires i < |env.attempts|
  {
    if i > 0 && EventAt(x, env, timeout, i - 1).Silent? then EventAt(x, env, timeout, i - 1).err else ""
  }

  function SendFailure(env: Env): Option<string> {
    if env.dialErr.Some? then env.dialErr else if env.setupErr.Some? then env.setupErr else env.writeErr
  }

  function Phases(x: Exchange, env: Env, timeout: int): seq<Phase>
    requires Ready(x, env)
  {
    match SendFailure(env)
    case Some(err) => [Phase(x.sendPhase, false, env.sendTook, err)]
    case None => [Phase(x.sendPhase, true, env.sendTook, ""), Verdict(x, env, timeout)]
  }

  /** The datagrams that left: the first, and one for each further attempt whose write went through. */
  function DatagramsSent(x: Exchange, env: Env, timeout: int): nat
    requires Ready(x, env)
  {
    if SendFailure(env).Some? then 0
    else
      var stop := Stop(x, env, timeout);
      if stop > 0 && env.attempts[stop].writeErr.Some? then stop else stop + 1
  }

  /** The deadlines set on the socket: one for each attempt whose write and deadline succeed. */
  function DeadlinesSet(x: Exchange, env: Env, timeout: int): nat
    requires Ready(x, env)
  {
    var stop := Stop(x, env, timeout);
    var a := env.attempts[stop];
    if (stop > 0 && a.writeErr.Some?) || a.deadlineErr.Some? then stop else stop + 1
  }

  /** The loop, once the first datagram has left. */
  method Await(x: Exchange, env: Env, timeout: int, deadline: int)
    returns (resp: Phase, reply: Option<bytes>, definitive: bool, sent: seq<bytes>, deadlines: seq<int>)
    requires Ready(x, env) && SendFailure(env).None? && deadline == PhaseDeadline(env, timeout)
    ensures var stop := Stop(x, env, timeout); var e := EventAt(x, env, timeout, stop);
      && resp == Phase(x.respPhase, e.Accepted?, 0, if e.Accepted? then StaleError(x, env, timeout, stop) else e.err)
      && (definitive <==> e.Definitive?)
      && reply == (if e.Accepted? && |e.reply| > 0 then Some(e.reply) else None)
    ensures |sent| == DatagramsSent(x, env, timeout) && forall d :: d in sent ==> d == x.payload
    ensures |deadlines| == DeadlinesSet(x, env, timeout)
    ensures forall i :: 0 <= i < |deadlines| ==> deadlines[i] == ReadDeadline(x, env, timeout, i)
  {
    var slice := Quotient(timeout, x.attempts);
    resp := Phase(x.respPhase, false, 0, "");
    reply, definitive, sent, deadlines := None, false, [x.payload], [];

    ghost var stop := Stop(x, env, timeout);
    var attempt := 0;
    while attempt < x.attempts
      invariant attempt <= x.attempts && |sent| == if attempt == 0 then 1 else attempt
      invariant forall d :: d in sent ==> d == x.payload
      invariant |deadlines| == attempt
      invariant forall i :: 0 <= i < |deadlines| ==> deadlines[i] == ReadDeadline(x, env, timeout, i)
      invariant attempt < x.attempts ==> stop == StopFrom(x, env, timeout, attempt)
      invariant attempt == x.attempts ==> stop == attempt - 1
      invariant attempt > 0 ==> EventAt(x, env, timeout, attempt - 1).Silent?
      invariant resp == Phase(x.respPhase, false, 0,
        if attempt == 0 then "" else EventAt(x, env, timeout, attempt - 1).err)
      invariant !definitive && reply == None
    {
      var a := env.attempts[attempt];
      if attempt > 0 {
        if a.writeErr.Some? {
          resp := resp.(err := a.writeErr.value);
          definitive := true;
          break;
        }
        sent := sent + [x.payload];
      }
      var wait := a.armedAt + slice;
      if wait > deadline {
        wait := deadline;
      }
      if a.deadlineErr.Some? {
        resp := resp.(err := a.deadlineErr.value);
        definitive := true;
        break;
      }
      deadlines := deadlines + [wait];
      if a.read.Datagram? {
        var data := Received(a.read.data);
        if x.accept.Some? && x.accept.value(data).Some? {
          resp := resp.(err := x.accept.value(data).value);
          definitive := true;
          break;
        }
        reply := if |data| == 0 then None else Some(data);
        resp := resp.(ok := true);
        break;
      }
      resp := resp.(err := a.read.err);
      if !a.read.timeout {
        definitive := true;
        break;
      }
      if a.cancelled {
        definitive := true;
        break;
      }
      if !(a.checkedAt < deadline) {
        break;
      }
      attempt := attempt + 1;
    }
  }

  // ---- the trace as it is ----

  /** Attempt `j` got nothing but a timeout, with time left. */
  predicate TimedOut(env: Env, timeout: int, j: nat)
    requires j < |env.attempts|
  {
    var a := env.attempts[j];
    && (j > 0 ==> a.writeErr.None?) && a.deadlineErr.None?
    && a.read.ReadFailed? && a.read.timeout && !a.cancelled
    && a.checkedAt < env.openedAt + timeout && (env.ctxDeadline.Some? ==> a.checkedAt < env.ctxDeadline.value)
  }

  /** Attempt `i` is made: all before it timed out with time left. */
  predicate Made(env: Env, timeout: int, i: nat)
    requires i <= |env.attempts|
  {
    forall j :: 0 <= j < i ==> TimedOut(env, timeout, j)
  }

  /** The datagram of attempt `i` left; the first has left in the send phase. */
  predicate Wrote(env: Env, i: nat)
    requires i < |env.attempts|
  {
    i == 0 || env.attempts[i].writeErr.None?
  }

  /** What the buffer of one MTU holds of a datagram. */
  function Cut(data: bytes): bytes { if |data| <= 1500 then data else data[..1500] }

  /** Attempt `i` read a datagram that is taken as the answer. */
  predicate Answered(x: Exchange, env: Env, i: nat)
    requires i < |env.attempts|
  {
    var a := env.attempts[i];
    && Wrote(env, i) && a.deadlineErr.None? && a.read.Datagram?
    && (x.accept.Some? ==> x.accept.value(Cut(a.read.data)).None?)
  }

  /** What attempt `i` met that is an answer of its own: a failed write or deadline, a datagram
      that is not taken, an error other than a timeout, or the end of the context. */
  function Contradiction(x: Exchange, env: Env, i: nat): Option<string>
    requires i < |env.attempts|
  {
    var a := env.attempts[i];
    if i > 0 && a.writeErr.Some? then a.writeErr
    else if a.deadlineErr.Some? then a.deadlineErr
    else if a.read.Datagram? then (if x.accept.Some? then x.accept.value(Cut(a.read.data)) else None)
    else if !a.read.timeout || a.cancelled then Some(a.read.err)
    else None
  }

  /** Attempt `i` timed out, and was the last or past the deadline. */
  predicate GaveUp(env: Env, timeout: int, i: nat)
    requires i < |env.attempts|
  {
    var a := env.attempts[i];
    && Wrote(env, i) && a.deadlineErr.None? && a.read.ReadFailed? && a.read.timeout && !a.cancelled
    && (|| i == |env.attempts| - 1
        || a.checkedAt >= env.openedAt + timeout
        || (env.ctxDeadline.Some? && a.checkedAt >= env.ctxDeadline.value))
  }

  /** An attempt that is made is answered, or silence is enough and is all there is. */
  predicate PassesOn(x: Exchange, env: Env, timeout: int) {
    || (exists i :: 0 <= i < |env.attempts| && Made(env, timeout, i) && Answered(x, env, i))
    || (x.silenceOk && exists i :: 0 <= i < |env.attempts| && Made(env, timeout, i) && GaveUp(env, timeout, i))
  }

  /** The events of the machine are those of the trace. */
  lemma {:induction false} EventsOfTrace(x: Exchange, env: Env, timeout: int, i: nat)
    requires i < |env.attempts|
    ensures EventAt(x, env, timeout, i).Silent? <==> TimedOut(env, timeout, i)
    ensures EventAt(x, env, timeout, i).Accepted? <==> Answered(x, env, i)
    ensures EventAt(x, env, timeout, i).Definitive? <==> Contradiction(x, env, i).Some?
    ensures EventAt(x, env, timeout, i).Definitive? ==>
      Contradiction(x, env, i) == Some(EventAt(x, env, timeout, i).err)
    ensures GaveUp(env, timeout, i) <==>
      || EventAt(x, env, timeout, i).OutOfTime?
      || (EventAt(x, env, timeout, i).Silent? && i == |env.attempts| - 1)
    ensures TimedOut(env, timeout, i) || GaveUp(env, timeout, i) ==>
      EventAt(x, env, timeout, i).err == env.attempts[i].read.err
    ensures Answered(x, env, i) ==> EventAt(x, env, timeout, i).reply == Cut(env.attempts[i].read.data)
  {
  }

  lemma {:induction false} MadeIsReached(x: Exchange, env: Env, timeout: int, i: nat)
    requires i < |env.attempts|
    ensures Made(env, timeout, i) <==> Reached(x, env, timeout, i)
  {
    forall j | 0 <= j < i ensures EventAt(x, env, timeout, j).Silent? <==> TimedOut(env, timeout, j) {
      EventsOfTrace(x, env, timeout, j);
    }
  }

  /** Attempt `i` is made and something ends the loop there. */
  predicate EndsAt(x: Exchange, env: Env, timeout: int, i: nat)
    requires i < |env.attempts|
  {
    Made(env, timeout, i) && (Contradiction(x, env, i).Some? || Answered(x, env, i) || GaveUp(env, timeout, i))
  }

  lemma {:induction false} EndIsStop(x: Exchange, env: Env, timeout: int, i: nat)
    requires Ready(x, env) && i < x.attempts
    ensures EndsAt(x, env, timeout, i) <==> i == Stop(x, env, timeout)
  {
    MadeIsReached(x, env, timeout, i);
    EventsOfTrace(x, env, timeout, i);
    if EndsAt(x, env, timeout, i) {
      EventEndsTheLoop(x, env, timeout, i);
    } else if i == Stop(x, env, timeout) {
      StopIsReached(x, env, timeout, 0);
    }
  }

  lemma {:induction false} MadeUpToStop(x: Exchange, env: Env, timeout: int, i: nat)
    requires Ready(x, env) && i < x.attempts && Made(env, timeout, i)
    ensures i <= Stop(x, env, timeout)
  {
    var stop := Stop(x, env, timeout);
    EndIsStop(x, env, timeout, stop);
    EndDoesNotTimeOut(x, env, timeout, stop);
  }

  lemma {:induction false} EndDoesNotTimeOut(x: Exchange, env: Env, timeout: int, i: nat)
    requires i < |env.attempts| && EndsAt(x, env, timeout, i)
    ensures TimedOut(env, timeout, i) ==> i == |env.attempts| - 1
  {
  }

  /** What `Err` holds before attempt `i`: the text of the timeout before it. */
  function TextBefore(env: Env, i: nat): string
    requires i < |env.attempts|
  {
    if i > 0 && env.attempts[i - 1].read.ReadFailed? then env.attempts[i - 1].read.err else ""
  }

  /** What the phase, the reply and the number of datagrams are when attempt `i` ends the loop. */
  predicate Tells(x: Exchange, env: Env, timeout: int, i: nat, resp: Phase, reply: Option<bytes>, sent: nat)
    requires i < |env.attempts|
  {
    && (Contradiction(x, env, i).Some? ==>
          && !resp.ok && Some(resp.err) == Contradiction(x, env, i) && reply.None?
          && sent == if Wrote(env, i) then i + 1 else i)
    && (Answered(x, env, i) ==>
          && resp.ok && resp.err == TextBefore(env, i) && sent == i + 1
          && var data := Cut(env.attempts[i].read.data); reply == if |data| == 0 then None else Some(data))
    && (GaveUp(env, timeout, i) ==>
          && resp.ok == x.silenceOk && resp.err == (if x.silenceOk then "" else env.attempts[i].read.err)
          && sent == i + 1 && reply.None?)
  }

  /** The trace decides the verdict, the reply, what is sent and how often a deadline is set. */
  lemma {:induction false} TraceDecides(x: Exchange, env: Env, timeout: int, reply: Option<bytes>)
    requires Ready(x, env) && SendFailure(env).None?
    requires var e := EventAt(x, env, timeout, Stop(x, env, timeout));
      reply == if e.Accepted? && |e.reply| > 0 then Some(e.reply) else None
    ensures var stop := Stop(x, env, timeout);
      && EndsAt(x, env, timeout, stop)
      && Tells(x, env, timeout, stop, Verdict(x, env, timeout), reply, DatagramsSent(x, env, timeout))
    ensures forall i :: 0 <= i < x.attempts && EndsAt(x, env, timeout, i) ==> i == Stop(x, env, timeout)
    ensures forall i :: 0 <= i < x.attempts && Made(env, timeout, i) && Wrote(env, i) ==>
      (env.attempts[i].deadlineErr.None? ==> i < DeadlinesSet(x, env, timeout))
  {
    var stop := Stop(x, env, timeout);
    EndIsStop(x, env, timeout, stop);
    EventsOfTrace(x, env, timeout, stop);
    if stop > 0 {
      EventsOfTrace(x, env, timeout, stop - 1);
      assert TimedOut(env, timeout, stop - 1);
    }
    forall i | 0 <= i < x.attempts && EndsAt(x, env, timeout, i) ensures i == stop {
      EndIsStop(x, env, timeout, i);
    }
    forall i | 0 <= i < x.attempts && Made(env, timeout, i) ensures i <= stop {
      MadeUpToStop(x, env, timeout, i);
    }
  }

  /** The phase passes exactly on an answer, or on silence where that is enough. */
  lemma {:induction false} PassesOnTrace(x: Exchange, env: Env, timeout: int, resp: Phase, reply: Option<bytes>,
                                         sent: nat)
    requires Ready(x, env)
    requires forall i :: 0 <= i < x.attempts && EndsAt(x, env, timeout, i) ==>
      Tells(x, env, timeout, i, resp, reply, sent)
    requires exists i :: 0 <= i < x.attempts && EndsAt(x, env, timeout, i)
    ensures resp.ok <==> PassesOn(x, env, timeout)
  {
    var i :| 0 <= i < x.attempts && EndsAt(x, env, timeout, i);
    assert Tells(x, env, timeout, i, resp, reply, sent);
    if j :| 0 <= j < x.attempts && Made(env, timeout, j) && Answered(x, env, j) {
      assert EndsAt(x, env, timeout, j);
    }
    if j :| 0 <= j < x.attempts && Made(env, timeout, j) && GaveUp(env, timeout, j) {
      assert EndsAt(x, env, timeout, j);
    }
  }

  /** `reply` is nil for an accepted datagram of no bytes. `deadlines` are those set on the
      socket, `sent` the datagrams written. What the phases are is said of the trace as it
      is: see Made, Answered, Contradiction, GaveUp, PassesOn and
      Tells. */
  method Run(x: Exchange, env: Env, timeout: int)
    returns (phases: seq<Phase>, reply: Option<bytes>, sent: seq<bytes>, deadlines: seq<int>)
    requires Ready(x, env)
    ensures phases == Phases(x, env, timeout)
    // the send phase
    ensures |phases| >= 1 && phases[0].name == x.sendPhase && phases[0].duration == env.sendTook
    ensures phases[0].ok <==> env.dialErr.None? && env.setupErr.None? && env.writeErr.None?
    ensures !phases[0].ok ==> |phases| == 1 && sent == [] && deadlines == [] && reply.None?
    ensures env.dialErr.Some? ==> phases[0].err == env.dialErr.value
    ensures env.dialErr.None? && env.setupErr.Some? ==> phases[0].err == env.setupErr.value
    ensures env.dialErr.None? && env.setupErr.None? && env.writeErr.Some? ==> phases[0].err == env.writeErr.value
    ensures phases[0].ok ==> |phases| == 2 && phases[0].err == ""
    // the response phase
    ensures phases[0].ok ==> phases[1].name == x.respPhase && phases[1].duration == env.respTook
    ensures phases[0].ok ==> (phases[1].ok <==> PassesOn(x, env, timeout))
    ensures phases[0].ok ==> exists i :: 0 <= i < x.attempts && EndsAt(x, env, timeout, i)
    ensures phases[0].ok ==> forall i :: 0 <= i < x.attempts && EndsAt(x, env, timeout, i) ==>
      Tells(x, env, timeout, i, phases[1], reply, |sent|)
    // the socket
    ensures |sent| <= x.attempts && |deadlines| <= |sent| && forall d :: d in sent ==> d == x.payload
    ensures forall i :: 0 <= i < |deadlines| ==> deadlines[i] == ReadDeadline(x, env, timeout, i)
    ensures phases[0].ok ==> forall i :: 0 <= i < x.attempts && Made(env, timeout, i) && Wrote(env, i) ==>
      (env.attempts[i].deadlineErr.None? ==> i < |deadlines|)
  {
    phases, reply, sent, deadlines := [], None, [], [];

    var send := Phase(x.sendPhase, false, env.sendTook, "");
    if env.dialErr.Some? {
      return [send.(err := env.dialErr.value)], reply, sent, deadlines;
    }
    if env.setupErr.Some? {
      return [send.(err := env.setupErr.value)], reply, sent, deadlines;
    }
    if env.writeErr.Some? {
      return [send.(err := env.writeErr.value)], reply, sent, deadlines;
    }
    sent := [x.payload];
    send := send.(ok := true);
    phases := phases + [send];

    var deadline := env.openedAt + timeout;
    if env.ctxDeadline.Some? && env.ctxDeadline.value < deadline {
      deadline := env.ctxDeadline.value;
    }
    var resp, definitive;
    resp, reply, definitive, sent, deadlines := Await(x, env, timeout, deadline);

    if !resp.ok && x.silenceOk && !definitive {
      resp := resp.(ok := true, err := "");
    }
    resp := resp.(duration := env.respTook);
    phases := phases + [resp];
    TraceDecides(x, env, timeout, reply);
    PassesOnTrace(x, env, timeout, phases[1], reply, |sent|);
  }

  // ---- what a verdict means, by events ----

  /** Attempt `i` is made: the send phase passed and every earlier attempt was silent. */
  predicate Reached(x: Exchange, env: Env, timeout: int, i: nat)
    requires i < |env.attempts|
  {
    forall j :: 0 <= j < i ==> EventAt(x, env, timeout, j).Silent?
  }

  lemma {:induction false} StopIsReached(x: Exchange, env: Env, timeout: int, i: nat)
    requires Ready(x, env) && i < x.attempts && Reached(x, env, timeout, i)
    ensures var stop := StopFrom(x, env, timeout, i);
      Reached(x, env, timeout, stop) && (EventAt(x, env, timeout, stop).Silent? ==> stop == x.attempts - 1)
    ensures StopFrom(x, env, timeout, i) == Stop(x, env, timeout)
    decreases x.attempts - i
  {
    ReachedContinues(x, env, timeout, i);
    if EventAt(x, env, timeout, i).Silent? && i + 1 < x.attempts {
      StopIsReached(x, env, timeout, i + 1);
    }
  }

  lemma {:induction false} ReachedContinues(x: Exchange, env: Env, timeout: int, i: nat)
    requires Ready(x, env) && i < x.attempts && Reached(x, env, timeout, i)
    ensures StopFrom(x, env, timeout, i) == Stop(x, env, timeout)
  {
    if i > 0 {
      ReachedContinues(x, env, timeout, i - 1);
    }
  }

  /** A reached attempt at which something other than silence happens ends the loop. */
  lemma {:induction false} EventEndsTheLoop(x: Exchange, env: Env, timeout: int, i: nat)
    requires Ready(x, env) && i < x.attempts && Reached(x, env, timeout, i)
    requires !EventAt(x, env, timeout, i).Silent? || i == x.attempts - 1
    ensures Stop(x, env, timeout) == i
  {
    ReachedContinues(x, env, timeout, i);
  }

  /** The attempts ran out on timeouts alone. */
  predicate OnlySilence(x: Exchange, env: Env, timeout: int, i: nat)
    requires i < |env.attempts|
  {
    && Reached(x, env, timeout, i)
    && (EventAt(x, env, timeout, i).OutOfTime? || (EventAt(x, env, timeout, i).Silent? && i == |env.attempts| - 1))
  }

  /** The phase passes exactly when a reached read was accepted, or when silence passes and
      the loop ended on timeouts alone. */
  lemma {:induction false} PassesIff(x: Exchange, env: Env, timeout: int)
    requires Ready(x, env)
    ensures Verdict(x, env, timeout).ok <==>
      || (exists i :: 0 <= i < x.attempts && Reached(x, env, timeout, i) && EventAt(x, env, timeout, i).Accepted?)
      || (x.silenceOk && exists i :: 0 <= i < x.attempts && OnlySilence(x, env, timeout, i))
  {
    var stop := Stop(x, env, timeout);
    StopIsReached(x, env, timeout, 0);
    if Verdict(x, env, timeout).ok {
      assert Reached(x, env, timeout, stop);
      assert EventAt(x, env, timeout, stop).Accepted? || OnlySilence(x, env, timeout, stop);
    }
    forall i | 0 <= i < x.attempts && Reached(x, env, timeout, i) && EventAt(x, env, timeout, i).Accepted?
      ensures Verdict(x, env, timeout).ok
    {
      EventEndsTheLoop(x, env, timeout, i);
    }
    forall i | 0 <= i < x.attempts && OnlySilence(x, env, timeout, i) && x.silenceOk
      ensures Verdict(x, env, timeout).ok
    {
      EventEndsTheLoop(x, env, timeout, i);
    }
  }

  /** A refused port, a failed write, a rejected datagram and a cancellation never pass,
      and the text reported is their own. */
  lemma {:induction false} DefinitiveFails(x: Exchange, env: Env, timeout: int, i: nat)
    requires Ready(x, env) && i < x.attempts && Reached(x, env, timeout, i)
    requires EventAt(x, env, timeout, i).Definitive?
    ensures !Verdict(x, env, timeout).ok && Verdict(x, env, timeout).err == EventAt(x, env, timeout, i).err
  {
    EventEndsTheLoop(x, env, timeout, i);
  }

  /** A passed phase holds an error text exactly when a reply was accepted right after a
      timeout that had one, so `Err` being set does not mean that the phase failed. */
  lemma {:induction false} StaleErrorIff(x: Exchange, env: Env, timeout: int)
    requires Ready(x, env)
    ensures Verdict(x, env, timeout).ok && Verdict(x, env, timeout).err != "" <==>
      exists i :: 0 < i < x.attempts && Reached(x, env, timeout, i) && EventAt(x, env, timeout, i).Accepted?
        && EventAt(x, env, timeout, i - 1).err != ""
  {
    StopIsReached(x, env, timeout, 0);
    forall i | 0 < i < x.attempts && Reached(x, env, timeout, i) && EventAt(x, env, timeout, i).Accepted?
      && EventAt(x, env, timeout, i - 1).err != ""
      ensures Verdict(x, env, timeout).ok && Verdict(x, env, timeout).err != ""
    {
      EventEndsTheLoop(x, env, timeout, i);
    }
  }

  /** Such a trace: nothing within five of ten nanoseconds, and then an answer. */
  lemma {:induction false} StaleErrorHappens() returns (x: Exchange, env: Env, timeout: int)
    ensures timeout > 0 && Ready(x, env) && ClockRuns(x, env, timeout) && SendFailure(env).None?
    ensures Verdict(x, env, timeout).ok && Verdict(x, env, timeout).err == "i/o timeout"
  {
    var lost := Attempt(None, 0, None, ReadFailed("i/o timeout", true), 5, false, 5);
    var answered := Attempt(None, 5, None, Datagram([1]), 6, false, 6);
    x := Exchange([0], 2, "udp", "response", None, false);
    env := Env(None, None, None, 0, 0, None, [lost, answered], 6);
    timeout := 10;
    assert EventAt(x, env, timeout, 0) == Silent("i/o timeout");
    assert EventAt(x, env, timeout, 1) == Accepted([1]);
    assert Reached(x, env, timeout, 1);
    EventEndsTheLoop(x, env, timeout, 1);
  }

  // ---- the time budget ----

  /** Every deadline set is the end of its slice, of the phase or of the context, and lies
      within all three. */
  lemma {:induction false} DeadlineWithinPhase(x: Exchange, env: Env, timeout: int, i: nat)
    requires Ready(x, env) && i < x.attempts
    ensures ReadDeadline(x, env, timeout, i) <= env.openedAt + timeout
    ensures env.ctxDeadline.Some? ==> ReadDeadline(x, env, timeout, i) <= env.ctxDeadline.value
    ensures ReadDeadline(x, env, timeout, i) <= env.attempts[i].armedAt + Quotient(timeout, x.attempts)
    ensures ReadDeadline(x, env, timeout, i) in {env.openedAt + timeout,
      env.attempts[i].armedAt + Quotient(timeout, x.attempts)}
      || Some(ReadDeadline(x, env, timeout, i)) == env.ctxDeadline
  {
  }

  /** A slice is the timeout divided by the attempts, rounded toward zero. */
  lemma {:induction false} SliceIsQuotient(timeout: int, n: nat)
    requires n > 0
    ensures timeout >= 0 ==> n * Quotient(timeout, n) <= timeout < n * (Quotient(timeout, n) + 1)
    ensures timeout < 0 ==> n * (Quotient(timeout, n) - 1) < timeout <= n * Quotient(timeout, n)
  {
    var t := if timeout >= 0 then timeout else -timeout;
    DivisionBounds(t, n, t / n, t % n);
    assert n * (-(t / n)) == -(n * (t / n)) && n * (-(t / n) - 1) == -(n * (t / n + 1));
  }

  lemma {:induction false} DivisionBounds(t: nat, n: nat, q: int, r: int)
    requires n > 0 && t == n * q + r && 0 <= r < n
    ensures n * q <= t < n * (q + 1)
  {
    assert n * (q + 1) == n * q + n;
  }

  /** The clock only goes forward, and a read returns by its deadline, or at once if that
      has passed. */
  predicate ClockRuns(x: Exchange, env: Env, timeout: int)
    requires Ready(x, env)
  {
    forall i :: 0 <= i < x.attempts ==> ReturnsInTime(x, env, timeout, i)
  }

  predicate ReturnsInTime(x: Exchange, env: Env, timeout: int, i: nat)
    requires Ready(x, env) && i < x.attempts
  {
    var a := env.attempts[i];
    && Before(env, i) <= a.armedAt <= a.doneAt <= a.checkedAt
    && (a.doneAt <= ReadDeadline(x, env, timeout, i) || a.doneAt == a.armedAt)
  }

  /** The time at which attempt `n` begins. */
  function Before(env: Env, n: nat): int
    requires n <= |env.attempts|
  {
    if n == 0 then env.openedAt else env.attempts[n - 1].checkedAt
  }

  /** The time spent in the first `n` reads. */
  function Waited(env: Env, n: nat): int
    requires n <= |env.attempts|
  {
    if n == 0 then 0 else Waited(env, n - 1) + env.attempts[n - 1].doneAt - env.attempts[n - 1].armedAt
  }

  lemma {:induction false} WaitedSoFar(x: Exchange, env: Env, timeout: int, n: nat)
    requires Ready(x, env) && ClockRuns(x, env, timeout) && n <= x.attempts
    ensures Before(env, n) >= env.openedAt
    ensures Waited(env, n) <=
      Min(PhaseDeadline(env, timeout), Before(env, n)) - Min(PhaseDeadline(env, timeout), env.openedAt)
  {
    if n > 0 {
      WaitedSoFar(x, env, timeout, n - 1);
      assert ReturnsInTime(x, env, timeout, n - 1);
      var a, end := env.attempts[n - 1], PhaseDeadline(env, timeout);
      assert a.doneAt == a.armedAt || a.doneAt <= end by { DeadlineWithinPhase(x, env, timeout, n - 1); }
    }
  }

  /** However many attempts are made, the reads together take no longer than the phase. */
  lemma {:induction false} WaitWithinTimeout(x: Exchange, env: Env, timeout: int, n: nat)
    requires Ready(x, env) && ClockRuns(x, env, timeout) && n <= x.attempts && timeout >= 0
    ensures 0 <= Waited(env, n) <= timeout
  {
    WaitedSoFar(x, env, timeout, n);
    WaitedIsPositive(x, env, timeout, n);
  }

  lemma {:induction false} WaitedIsPositive(x: Exchange, env: Env, timeout: int, n: nat)
    requires Ready(x, env) && ClockRuns(x, env, timeout) && n <= x.attempts
    ensures Waited(env, n) >= 0
  {
    if n > 0 {
      WaitedIsPositive(x, env, timeout, n - 1);
      assert ReturnsInTime(x, env, timeout, n - 1);
    }
  }

  /** A peer that never answers, while the time lost between reads adds up to at most `lag`. */
  predicate SilentPeer(x: Exchange, env: Env, timeout: int, lag: nat)
    requires Ready(x, env)
  {
    && SendFailure(env).None?
    && forall i :: 0 <= i < x.attempts ==>
         var a := env.attempts[i];
         && a.writeErr.None? && a.deadlineErr.None? && a.read.ReadFailed? && a.read.timeout && !a.cancelled
         && a.checkedAt <= env.openedAt + (i + 1) * Quotient(timeout, x.attempts) + lag
  }

  lemma {:induction false} MulMonotone(a: int, b: int, q: nat)
    requires a <= b
    ensures a * q <= b * q
  {
    assert (b - a) * q >= 0;
  }

  lemma {:induction false} DivisionSplits(t: nat, n: nat, q: int, r: int)
    requires n > 0 && t > 0 && t == n * q + r && 0 <= r < n
    ensures q >= 0 && n * q <= t && (n - 1) * q < t
  {
    if q < 0 {
      MulMonotone(q, -1, n);
    } else {
      assert (n - 1) * q == n * q - q;
    }
  }

  lemma {:induction false} SlicesFit(timeout: int, n: nat)
    requires timeout > 0 && n > 0
    ensures 0 <= Quotient(timeout, n) && n * Quotient(timeout, n) <= timeout
    ensures (n - 1) * Quotient(timeout, n) < timeout
  {
    DivisionSplits(timeout, n, timeout / n, timeout % n);
  }

  /** Integer division does not cost an attempt: against a silent peer and with no earlier
      context deadline, every attempt is made as long as the lag is below one slice, or is
      nothing at all. */
  lemma {:induction false} EveryAttemptIsMade(x: Exchange, env: Env, timeout: int, lag: nat)
    requires Ready(x, env) && timeout > 0 && SilentPeer(x, env, timeout, lag)
    requires env.ctxDeadline.Some? ==> env.openedAt + timeout <= env.ctxDeadline.value
    requires lag == 0 || lag < Quotient(timeout, x.attempts)
    ensures Stop(x, env, timeout) == x.attempts - 1 && DatagramsSent(x, env, timeout) == x.attempts
    ensures Verdict(x, env, timeout).ok <==> x.silenceOk
  {
    var n, q := x.attempts, Quotient(timeout, x.attempts);
    SlicesFit(timeout, n);
    assert (n - 1) * q + lag < timeout by { assert (n - 1) * q == n * q - q; }
    forall i | 0 <= i < n - 1 ensures EventAt(x, env, timeout, i).Silent? {
      MulMonotone(i + 1, n - 1, q);
    }
    assert Reached(x, env, timeout, n - 1);
    EventEndsTheLoop(x, env, timeout, n - 1);
  }
}
