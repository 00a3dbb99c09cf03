/**
 * The two document collections the bot keeps: verification requests (the
 * `verifications` collection) and user profiles (the `users` collection).
 */
module Store {
  import opened Wrappers

  /**
   * One verification request document, as inserted by the `/like` command and
   * later updated by the verification endpoint (`verified`, `verifiedAt`) and by
   * the background pass (`processed`). `processed` is absent on insert; absence
   * reads as `false`, which is how the pass's query treats it.
   */
  datatype Request = Request(
    userId: int,          // Telegram id of the requester
    uid: string,          // game account the like is for
    code: string,         // verification code embedded in the link
    verified: bool,
    expiresAt: int,
    chatId: int,          // where the outcome is reported
    messageId: int,       // the command message the report replies to
    verifiedAt: Option<int>,
    processed: bool)

  /** A profile document; a missing field reads as its default. */
  datatype Profile = Profile(isVip: bool, lastUsed: Option<int>)

  /** What `profiles.find_one(...) or {}` yields for a user without a document. */
  const DefaultProfile: Profile := Profile(false, None)

  /** The profile of `user`, or the default one when there is no document. */
  function ProfileOf(profiles: map<int, Profile>, user: int): (p: Profile)
    ensures user in profiles ==> p == profiles[user]
    ensures user !in profiles ==> !p.isVip && p.lastUsed.None?
  {
    if user in profiles then profiles[user] else DefaultProfile
  }

  /** The records the pass looks for: `{"verified": True, "processed": {"$ne": True}}`. */
  predicate Pending(r: Request) {
    r.verified && !r.processed
  }

  /**
   * Position `i` holds the first record, in the collection's natural order,
   * whose code is `code`: the one `find_one({"code": code})` returns.
   */
  predicate FirstWithCode(requests: seq<Request>, code: string, i: int) {
    0 <= i < |requests| && requests[i].code == code &&
    forall j | 0 <= j < i :: requests[j].code != code
  }

  /** `find_one({"code": code})`: the first record carrying `code`, if any. */
  function FindCode(requests: seq<Request>, code: string): (r: Option<nat>)
    ensures r.Some? ==> FirstWithCode(requests, code, r.value)
    ensures r.None? ==> forall i | 0 <= i < |requests| :: requests[i].code != code
    decreases |requests|
  {
    if requests == [] then None
    else if requests[0].code == code then Some(0)
    else match FindCode(requests[1..], code)
      case None => None
      case Some(i) => Some(i + 1)
  }

  /**
   * The positions the pass's query returns, in natural order: exactly the
   * pending records, each once.
   */
  function PendingIds(requests: seq<Request>): (ids: seq<nat>)
    ensures forall k | 0 <= k < |ids| :: ids[k] < |requests| && Pending(requests[ids[k]])
    ensures forall i | 0 <= i < |requests| && Pending(requests[i]) :: i in ids
    ensures forall k, l | 0 <= k < l < |ids| :: ids[k] < ids[l]
    decreases |requests|
  {
    if requests == [] then []
    else
      var n := |requests| - 1;
      var front := PendingIds(requests[..n]);
      if Pending(requests[n]) then front + [n] else front
  }

  /** No record is pending exactly when the pass's query comes back empty. */
  lemma NoPendingIds(requests: seq<Request>)
    ensures PendingIds(requests) == [] <==> forall i | 0 <= i < |requests| :: !Pending(requests[i])
  {
    var ids := PendingIds(requests);
    if ids != [] {
      assert ids[0] < |requests| && Pending(requests[ids[0]]);
    }
  }
}
