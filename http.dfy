/**
 * The HTTP side of every adapter, as an oracle. A GET is a function from the
 * URL it asks for to a response value or a failure (one field per endpoint in
 * each provider's server record). A write (POST, PUT, PATCH, DELETE) is a
 * `Request`; the server either answers it with the status the caller expects,
 * or not, in which case the caller raises and issues nothing more.
 */
module Http {

  datatype Verb = POST | PUT | PATCH | DELETE

  /** One outgoing write: verb, URL, JSON body (per provider) and the status the caller expects. */
  datatype Request<B> = Request(verb: Verb, url: string, body: B, expected: nat)

  /** The status the request helpers expect when a call names none (the older code checks 200). */
  const DefaultStatus: nat := 200

  /** The writes a call issued, in order, and whether it returned normally (`ok`) or raised. */
  datatype Sent<B> = Sent(trace: seq<Request<B>>, ok: bool)

  /** A call that raised before issuing any write (a failed GET, a missing key). */
  function Raised<B>(): (s: Sent<B>)
    ensures s.trace == [] && !s.ok
  {
    Sent([], false)
  }

  /** A call that returned without writing anything. */
  function Nothing<B>(): (s: Sent<B>)
    ensures s.trace == [] && s.ok
  {
    Sent([], true)
  }

  /**
   * Issuing `plan` in order, where each request raises unless the server
   * accepts it: the trace is the plan up to and including the first rejected
   * request, and the call succeeds iff the server accepts every request.
   */
  function Issue<B>(plan: seq<Request<B>>, accepts: Request<B> -> bool): (s: Sent<B>)
    ensures s.trace <= plan
    ensures s.ok <==> forall i :: 0 <= i < |plan| ==> accepts(plan[i])
    ensures s.ok ==> s.trace == plan
    ensures !s.ok ==> s.trace != [] && !accepts(s.trace[|s.trace| - 1])
    ensures forall i :: 0 <= i < |s.trace| - 1 ==> accepts(s.trace[i])
    decreases |plan|
  {
    if plan == [] then Sent([], true)
    else if !accepts(plan[0]) then Sent([plan[0]], false)
    else
      var rest := Issue(plan[1..], accepts);
      Sent([plan[0]] + rest.trace, rest.ok)
  }

  /** When the first `k` requests are accepted and the next is not, exactly `k + 1` are issued. */
  lemma {:induction false} IssueStopsAt<B>(plan: seq<Request<B>>, accepts: Request<B> -> bool, k: nat)
    requires k < |plan| && !accepts(plan[k])
    requires forall i :: 0 <= i < k ==> accepts(plan[i])
    ensures Issue(plan, accepts) == Sent(plan[..k + 1], false)
    decreases k
  {
    if k > 0 {
      IssueStopsAt(plan[1..], accepts, k - 1);
      assert [plan[0]] + plan[1..][..k] == plan[..k + 1];
    }
  }

  /** Running `first` and, only if it returned normally, `second` (one `try` block). */
  function Then<B>(first: Sent<B>, second: Sent<B>): (s: Sent<B>)
    ensures s.ok <==> first.ok && second.ok
    ensures first.ok ==> s.trace == first.trace + second.trace
    ensures !first.ok ==> s == first
  {
    if first.ok then Sent(first.trace + second.trace, second.ok) else first
  }

  /** Issuing `a` then `b` is issuing `a + b`: a rejection in `a` stops before `b`. */
  lemma {:induction false} IssueAppend<B>(a: seq<Request<B>>, b: seq<Request<B>>, accepts: Request<B> -> bool)
    ensures Issue(a + b, accepts) == Then(Issue(a, accepts), Issue(b, accepts))
    decreases |a|
  {
    if a == [] {
      assert a + b == b;
    } else {
      var ab := a + b;
      assert ab != [] && ab[0] == a[0];
      if accepts(a[0]) {
        assert ab[1..] == a[1..] + b;
        IssueAppend(a[1..], b, accepts);
        var rest, restA := Issue(ab[1..], accepts), Issue(a[1..], accepts);
        assert Issue(ab, accepts) == Sent([a[0]] + rest.trace, rest.ok);
        assert Issue(a, accepts) == Sent([a[0]] + restA.trace, restA.ok);
      } else {
        assert Issue(ab, accepts) == Sent([a[0]], false) == Issue(a, accepts);
      }
    }
  }

  /**
   * One more request after a run of accepted ones: it is issued, and when
   * it is rejected nothing planned after it is.
   */
  lemma IssueExtend<B>(prefix: seq<Request<B>>, r: Request<B>, rest: seq<Request<B>>,
                       accepts: Request<B> -> bool, trace: seq<Request<B>>)
    requires Issue(prefix, accepts) == Sent(trace, true)
    ensures Issue(prefix + [r], accepts) == Sent(trace + [r], accepts(r))
    ensures !accepts(r) ==> Issue(prefix + [r] + rest, accepts) == Sent(trace + [r], false)
  {
    IssueAppend(prefix, [r], accepts);
    IssueAppend(prefix + [r], rest, accepts);
  }

  /**
   * A loop that sends each planned request in turn and raises on the first
   * status it did not expect: it issues exactly what `Issue` describes.
   */
  method IssueInOrder<B>(plan: seq<Request<B>>, accepts: Request<B> -> bool) returns (s: Sent<B>)
    ensures s == Issue(plan, accepts)
  {
    var trace: seq<Request<B>> := [];
    for i := 0 to |plan|
      invariant trace == plan[..i]
      invariant forall j :: 0 <= j < i ==> accepts(plan[j])
    {
      trace := trace + [plan[i]];
      if !accepts(plan[i]) {
        IssueStopsAt(plan, accepts, i);
        return Sent(trace, false);
      }
    }
    assert plan[..|plan|] == plan;
    s := Sent(trace, true);
  }
}
