/** The retry loop of `nodecheck -push-url`, and the way one HTTP exchange is read. */
module PushClient {

  /** What one POST came to: a status code, or no response at all. */
  datatype Exchange = Response(code: int) | NoResponse | BadRequest

  datatype Verdict = Delivered | Permanent | Transient

  /** 4xx is the only class that a retry cannot fix. A request that cannot be built
      never leaves and is permanent as well. */
  function Judge(e: Exchange): Verdict {
    match e
    case Response(code) =>
      if 200 <= code < 300 then Delivered
      else if 400 <= code < 500 then Permanent
      else Transient
    case NoResponse => Transient
    case BadRequest => Permanent
  }

  const MAX_ATTEMPTS := 3

  /** Where a push stands. Posting(k) is about to make attempt k; Awaiting(k) has sent it. */
  datatype Client =
    | Posting(attempt: nat)
    | Awaiting(attempt: nat)
    | Stored
    | Refused
    | Exhausted
    | Cancelled

  function AfterAttempt(attempt: nat, v: Verdict): Client {
    match v
    case Delivered => Stored
    case Permanent => Refused
    case Transient => if attempt + 1 < MAX_ATTEMPTS then Posting(attempt + 1) else Exhausted
  }

  /** One pass of the loop as the environment plays it: whether the context ends during
      the wait before the attempt, and what the exchange would bring. */
  datatype Turn = Turn(cancelled: bool, exchange: Exchange)

  /** The server accepted the batch. */
  predicate Accepts(e: Exchange) { e.Response? && 200 <= e.code < 300 }

  /** The batch was refused for good, or no request could be built of it. */
  predicate Refuses(e: Exchange) { e.BadRequest? || (e.Response? && 400 <= e.code < 500) }

  /** Trying again cannot change it. */
  predicate Settles(e: Exchange) { Accepts(e) || Refuses(e) }

  /** Attempt `k` is reached: no earlier one was accepted or refused, and no wait was cancelled. */
  predicate Reaches(turns: seq<Turn>, k: nat)
    requires k < |turns|
  {
    && (forall i :: 0 <= i < k ==> !Settles(turns[i].exchange))
    && (forall i :: 1 <= i <= k ==> !turns[i].cancelled)
  }

  /** Where the loop stands after some turns. */
  function Play(turns: seq<Turn>): Client {
    if |turns| == 0 then Posting(0)
    else
      var turn := turns[|turns| - 1];
      match Play(turns[..|turns| - 1])
      case Posting(k) => if k > 0 && turn.cancelled then Cancelled else AfterAttempt(k, Judge(turn.exchange))
      case end => end
  }

  lemma {:induction false} PlayEnds(turns: seq<Turn>, n: nat)
    requires n <= |turns| && !Play(turns[..n]).Posting?
    ensures Play(turns) == Play(turns[..n])
  {
    if n < |turns| {
      assert turns[..|turns| - 1][..n] == turns[..n];
      PlayEnds(turns[..|turns| - 1], n);
    } else {
      assert turns[..n] == turns;
    }
  }

  /** `posts` is the number of requests sent, `waited` the seconds spent backing off.
      Success is claimed exactly when some attempt that is reached is answered with 2xx;
      a permanent refusal is never retried; a cancelled wait sends nothing more. */
  method PushResults(turns: seq<Turn>) returns (end: Client, posts: nat, waited: nat)
    requires |turns| == 3
    ensures end == Play(turns)
    ensures end.Stored? <==> exists k :: 0 <= k < 3 && Reaches(turns, k) && Accepts(turns[k].exchange)
    ensures end.Refused? <==> exists k :: 0 <= k < 3 && Reaches(turns, k) && Refuses(turns[k].exchange)
    ensures end.Exhausted? <==> Reaches(turns, 2) && !Settles(turns[2].exchange)
    ensures end.Cancelled? <==>
      exists k :: 1 <= k < 3 && Reaches(turns, k - 1) && !Settles(turns[k - 1].exchange) && turns[k].cancelled
    ensures end.Stored? || end.Refused? || end.Exhausted? || end.Cancelled?
    ensures forall k :: 0 <= k < 3 && Reaches(turns, k) && Settles(turns[k].exchange) ==> posts == k + 1
    ensures end.Exhausted? ==> posts == 3
    ensures end.Cancelled? ==> 1 <= posts < 3 && Reaches(turns, posts - 1) && turns[posts].cancelled
    ensures 1 <= posts <= 3 && Reaches(turns, posts - 1)
    ensures waited == if posts == 1 then 0 else if posts == 2 then 1 else 4
  {
    var backoff := [0, 1, 3];
    waited := 0;
    posts := 0;
    end := Posting(0);
    var attempt := 0;
    while attempt < |backoff|
      invariant 0 <= attempt <= MAX_ATTEMPTS
      invariant posts == attempt
      invariant end == Play(turns[..attempt])
      invariant attempt < MAX_ATTEMPTS ==> end == Posting(attempt)
      invariant attempt == MAX_ATTEMPTS ==> end == Exhausted
      invariant forall i :: 0 <= i < attempt ==> !Settles(turns[i].exchange)
      invariant forall i :: 1 <= i < attempt ==> !turns[i].cancelled
      invariant waited == if attempt == 0 then 0 else if attempt == 1 then 0 else if attempt == 2 then 1 else 4
    {
      assert turns[..attempt + 1][..attempt] == turns[..attempt];
      if backoff[attempt] > 0 {
        if turns[attempt].cancelled {
          PlayEnds(turns, attempt + 1);
          return Cancelled, posts, waited;
        }
        waited := waited + backoff[attempt];
      }
      posts := posts + 1;
      end := AfterAttempt(attempt, Judge(turns[attempt].exchange));
      if !end.Posting? && !end.Exhausted? {
        assert Reaches(turns, attempt);
        PlayEnds(turns, attempt + 1);
        return;
      }
      attempt := attempt + 1;
    }
    assert turns[..MAX_ATTEMPTS] == turns;
  }
}
