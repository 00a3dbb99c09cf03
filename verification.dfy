/**
 * The verification endpoint `GET /verify/<code>`: find the first request with the
 * code and, if it is not verified yet, mark it verified.
 */
module Verification {
  import opened Wrappers
  import opened Store

  /**
   * The outcome of visiting the verification link for `code` at time `now`:
   * whether the success page is shown, and the request collection afterwards.
   * It succeeds exactly when the first record with the code exists and is not
   * yet verified; it then sets `verified` and `verifiedAt` of that record and
   * nothing else. On failure nothing changes. `expiresAt` is never consulted.
   */
  function VerifyCode(requests: seq<Request>, code: string, now: int): (r: (bool, seq<Request>))
    ensures r.0 <==> exists i :: FirstWithCode(requests, code, i) && !requests[i].verified
    ensures !r.0 ==> r.1 == requests
    ensures forall i | FirstWithCode(requests, code, i) && r.0 ::
      r.1 == requests[i := requests[i].(verified := true, verifiedAt := Some(now))]
  {
    match FindCode(requests, code)
    case None => (false, requests)
    case Some(i) =>
      if requests[i].verified then (false, requests)
      else (true, requests[i := requests[i].(verified := true, verifiedAt := Some(now))])
  }

  /** At most one position is the first with a given code. */
  lemma FirstWithCodeUnique(requests: seq<Request>, code: string, i: int, j: int)
    requires FirstWithCode(requests, code, i) && FirstWithCode(requests, code, j)
    ensures i == j
  {
  }

  /** A code verifies at most once: visiting the link again fails, whenever it happens. */
  lemma VerifySingleUse(requests: seq<Request>, code: string, now: int, later: int)
    ensures !VerifyCode(VerifyCode(requests, code, now).1, code, later).0
  {
    var (ok, after) := VerifyCode(requests, code, now);
    if ok {
      var i :| FirstWithCode(requests, code, i) && !requests[i].verified;
      assert after == requests[i := requests[i].(verified := true, verifiedAt := Some(now))];
      assert forall k | 0 <= k < |after| :: after[k].code == requests[k].code;
      forall j | FirstWithCode(after, code, j) ensures after[j].verified {
        assert FirstWithCode(requests, code, j);
        FirstWithCodeUnique(requests, code, i, j);
      }
    }
  }

  /** The link is honoured after `expiresAt`: the expiry time is not checked. */
  lemma ExpiredCodeStillVerifies(requests: seq<Request>, code: string, i: nat, now: int)
    requires FirstWithCode(requests, code, i) && !requests[i].verified
    requires now > requests[i].expiresAt
    ensures VerifyCode(requests, code, now).0
    ensures VerifyCode(requests, code, now).1[i].verified
  {
  }

  /**
   * Codes are not unique in the collection; a later record whose code repeats an
   * earlier one's is never touched by visiting that code's link.
   */
  lemma ShadowedCodeNeverVerifies(requests: seq<Request>, code: string, i: nat, j: nat, now: int)
    requires i < j < |requests| && requests[i].code == code && requests[j].code == code
    ensures VerifyCode(requests, code, now).1[j] == requests[j]
  {
    match FindCode(requests, code)
    case None =>
    case Some(f) =>
      assert f <= i;
  }

  /** Verification touches one record only, and only its `verified` and `verifiedAt` fields. */
  lemma VerifyFrame(requests: seq<Request>, code: string, now: int)
    ensures |VerifyCode(requests, code, now).1| == |requests|
    ensures forall k | 0 <= k < |requests| ::
      var r := VerifyCode(requests, code, now).1[k];
      r == requests[k] || (r == requests[k].(verified := true, verifiedAt := Some(now)) && !requests[k].verified)
  {
  }
}
