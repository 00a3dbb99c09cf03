/**
 * One pass of the background loop: every verified, unprocessed request is
 * checked against the cooldown, sent to the like service if allowed, reported
 * to its chat once and marked processed.
 */
module Dispatch {
  import opened Wrappers
  import opened Clock
  import opened Store
  import opened RateLimit
  import Commands

  /**
   * What the like service's call yields: an exception (network failure, a body
   * that is not JSON, ...) with its text, or a JSON object whose
   * `LikesbeforeCommand`, `LikesafterCommand`, `LikesGivenByAPI` and
   * `PlayerNickname` may each be missing.
   */
  datatype LikeApiResult =
    | ApiRaised(reason: string)
    | ApiJson(before: Option<int>, after: Option<int>, added: Option<int>, nickname: Option<string>)

  /** The report sent for a request; the Markdown text around these values is not modelled. */
  datatype Message =
    | DailyLimit(hours: nat, mins: nat)
    | LikeFailed
    | LikeSent(name: string, uid: string, before: int, added: int, after: int)
    | ProcessingError(uid: string, reason: string)

  /** A message sent to chat `chatId` as a reply to message `replyTo`. */
  datatype Notice = Notice(chatId: int, replyTo: int, message: Message)

  /** The two collections and the messages sent so far in this pass. */
  datatype PassState = PassState(requests: seq<Request>, profiles: map<int, Profile>, outbox: seq<Notice>)

  /** `profiles.update_one({"user_id": u}, {"$set": {"last_used": now}}, upsert=True)`. */
  function RecordUse(profiles: map<int, Profile>, user: int, now: int): (r: map<int, Profile>)
    ensures r.Keys == profiles.Keys + {user}
    ensures r[user] == Profile(ProfileOf(profiles, user).isVip, Some(now))
    ensures forall u | u in profiles && u != user :: r[u] == profiles[u]
  {
    profiles[user := ProfileOf(profiles, user).(lastUsed := Some(now))]
  }

  /**
   * The like call for an allowed request and what follows from its result:
   * success is reported, and `lastUsed` recorded, exactly when the service
   * answered with a non-zero `LikesGivenByAPI`; a missing field counts as 0.
   */
  function Fulfil(profiles: map<int, Profile>, req: Request, response: LikeApiResult, now: int)
    : (r: (Message, map<int, Profile>))
    ensures r.0.LikeSent? <==> response.ApiJson? && response.added.GetOr(0) != 0
    ensures r.0.LikeSent? ==> r.1 == RecordUse(profiles, req.userId, now) && r.0.uid == req.uid && r.0.added != 0
    ensures !r.0.LikeSent? ==> r.1 == profiles
    ensures r.0.ProcessingError? <==> response.ApiRaised?
    ensures response.ApiRaised? ==> r.0 == ProcessingError(req.uid, response.reason)
    ensures r.0.LikeSent? ==>
      && r.0.name == response.nickname.GetOr(Commands.FallbackName(req.uid))
      && r.0.before == response.before.GetOr(0)
      && r.0.added == response.added.value
      && r.0.after == response.after.GetOr(0)
    ensures !r.0.DailyLimit?
  {
    match response
    case ApiRaised(reason) => (ProcessingError(req.uid, reason), profiles)
    case ApiJson(before, after, added, nickname) =>
      var n := added.GetOr(0);
      if n == 0 then (LikeFailed, profiles)
      else
        var name := nickname.GetOr(Commands.FallbackName(req.uid));
        (LikeSent(name, req.uid, before.GetOr(0), n, after.GetOr(0)), RecordUse(profiles, req.userId, now))
  }

  /**
   * The decision for request `req` (position `id`) given the profiles as they
   * are now: the cooldown is applied to the requester's profile, and the like
   * service (`api(id)`) is consulted only when it allows. Yields the message
   * and the profiles afterwards.
   */
  function Handle(profiles: map<int, Profile>, req: Request, id: nat, now: int, api: nat -> LikeApiResult)
    : (r: (Message, map<int, Profile>))
    ensures r.0.DailyLimit? <==> Evaluate(ProfileOf(profiles, req.userId), now).Deny?
    ensures var d := Evaluate(ProfileOf(profiles, req.userId), now);
      d.Deny? ==> r.0 == DailyLimit(d.hours, d.mins)
    ensures r.0.LikeSent? ==> r.1 == RecordUse(profiles, req.userId, now)
    ensures !r.0.LikeSent? ==> r.1 == profiles
  {
    match Evaluate(ProfileOf(profiles, req.userId), now)
    case Deny(h, m) => (DailyLimit(h, m), profiles)
    case Allow => Fulfil(profiles, req, api(id), now)
  }

  /** An allowed request is reported, and the profiles updated, exactly as the like service's answer for it dictates. */
  lemma HandleAllowed(profiles: map<int, Profile>, req: Request, id: nat, now: int, api: nat -> LikeApiResult)
    requires Evaluate(ProfileOf(profiles, req.userId), now) == Allow
    ensures Handle(profiles, req, id, now, api) == Fulfil(profiles, req, api(id), now)
  {
  }

  /**
   * The loop body for request `id`: read the requester's profile afresh, decide,
   * send one message and mark the request processed.
   */
  function ProcessOne(s: PassState, id: nat, now: int, api: nat -> LikeApiResult): (r: PassState)
    requires id < |s.requests|
    ensures |r.requests| == |s.requests| && |r.outbox| == |s.outbox| + 1
  {
    var req := s.requests[id];
    var handled := Handle(s.profiles, req, id, now, api);
    PassState(s.requests[id := req.(processed := true)], handled.1,
              s.outbox + [Notice(req.chatId, req.messageId, handled.0)])
  }

  predicate ValidIds(requests: seq<Request>, ids: seq<nat>) {
    forall k | 0 <= k < |ids| :: ids[k] < |requests|
  }

  /** The loop over `ids`, in order. It keeps the collection's size and appends one message per id. */
  function ProcessAll(s: PassState, ids: seq<nat>, now: int, api: nat -> LikeApiResult): (r: PassState)
    requires ValidIds(s.requests, ids)
    ensures |r.requests| == |s.requests|
    ensures |r.outbox| == |s.outbox| + |ids|
    ensures r.outbox[..|s.outbox|] == s.outbox
    decreases |ids|
  {
    if ids == [] then s
    else
      var n := |ids| - 1;
      ProcessOne(ProcessAll(s, ids[..n], now, api), ids[n], now, api)
  }

  /** One pass at time `now`: the loop over the pending requests, in the collection's order. */
  function Pass(requests: seq<Request>, profiles: map<int, Profile>, now: int, api: nat -> LikeApiResult)
    : (r: PassState)
    ensures |r.requests| == |requests| && |r.outbox| == |PendingIds(requests)|
  {
    ProcessAll(PassState(requests, profiles, []), PendingIds(requests), now, api)
  }

  // ---------------------------------------------------------------- one step

  /** The message the step sends. */
  function LastMessage(s: PassState): (m: Message)
    requires s.outbox != []
  {
    s.outbox[|s.outbox| - 1].message
  }

  /**
   * A refused request: the like service is not consulted (the step is the same
   * whatever it would answer), the profiles are unchanged, the message is the
   * daily-limit one with the time left the cooldown rule computed, and the
   * request is marked processed.
   */
  lemma DeniedStepSkipsService(s: PassState, id: nat, now: int, api: nat -> LikeApiResult, api': nat -> LikeApiResult)
    requires id < |s.requests|
    requires Evaluate(ProfileOf(s.profiles, s.requests[id].userId), now).Deny?
    ensures ProcessOne(s, id, now, api) == ProcessOne(s, id, now, api')
    ensures ProcessOne(s, id, now, api).profiles == s.profiles
    ensures var d := Evaluate(ProfileOf(s.profiles, s.requests[id].userId), now);
      LastMessage(ProcessOne(s, id, now, api)) == DailyLimit(d.hours, d.mins)
    ensures ProcessOne(s, id, now, api).requests[id].processed
  {
  }

  /**
   * `lastUsed` moves only with a success report: the profiles change only when
   * the message is `LikeSent`, and then exactly the requester's `lastUsed`
   * becomes `now`. A success is reported only when the service added likes.
   */
  lemma StepProfiles(s: PassState, id: nat, now: int, api: nat -> LikeApiResult)
    requires id < |s.requests|
    ensures var r := ProcessOne(s, id, now, api);
      && (LastMessage(r).LikeSent? ==> r.profiles == RecordUse(s.profiles, s.requests[id].userId, now))
      && (!LastMessage(r).LikeSent? ==> r.profiles == s.profiles)
    ensures LastMessage(ProcessOne(s, id, now, api)).LikeSent? <==>
      && Evaluate(ProfileOf(s.profiles, s.requests[id].userId), now) == Allow
      && api(id).ApiJson? && api(id).added.GetOr(0) != 0
  {
  }

  /** A step changes no request but `id`, and of that one only `processed`. */
  lemma StepRequests(s: PassState, id: nat, now: int, api: nat -> LikeApiResult)
    requires id < |s.requests|
    ensures var r := ProcessOne(s, id, now, api);
      && |r.requests| == |s.requests|
      && r.requests[id] == s.requests[id].(processed := true)
      && forall i | 0 <= i < |s.requests| && i != id :: r.requests[i] == s.requests[i]
  {
  }

  /**
   * The message a step sends, and the profiles after it, are those `Handle`
   * decides for the request, so every value of the report reaches the outbox.
   */
  lemma StepMessage(s: PassState, id: nat, now: int, api: nat -> LikeApiResult)
    requires id < |s.requests|
    ensures var h := Handle(s.profiles, s.requests[id], id, now, api);
      && LastMessage(ProcessOne(s, id, now, api)) == h.0
      && ProcessOne(s, id, now, api).profiles == h.1
  {
  }

  /** Request `i` after a step: marked processed if the step was for it, otherwise unchanged. */
  lemma StepRequestAt(s: PassState, id: nat, i: nat, now: int, api: nat -> LikeApiResult)
    requires id < |s.requests| && i < |s.requests|
    ensures ProcessOne(s, id, now, api).requests[i] ==
      if i == id then s.requests[i].(processed := true) else s.requests[i]
  {
  }

  /** The message goes to the chat of the request, as a reply to its command. */
  lemma StepNotice(s: PassState, id: nat, now: int, api: nat -> LikeApiResult)
    requires id < |s.requests|
    ensures var r := ProcessOne(s, id, now, api);
      && r.outbox[..|s.outbox|] == s.outbox
      && r.outbox[|s.outbox|].chatId == s.requests[id].chatId
      && r.outbox[|s.outbox|].replyTo == s.requests[id].messageId
  {
  }

  // ---------------------------------------------------------------- the loop

  /** The state before the `k`-th step of the loop. */
  function Before(s: PassState, ids: seq<nat>, k: nat, now: int, api: nat -> LikeApiResult): (r: PassState)
    requires ValidIds(s.requests, ids) && k <= |ids|
    ensures |r.requests| == |s.requests|
  {
    ProcessAll(s, ids[..k], now, api)
  }

  /** The state after step `k` is that step applied to the state before it. */
  lemma BeforeNext(s: PassState, ids: seq<nat>, k: nat, now: int, api: nat -> LikeApiResult)
    requires ValidIds(s.requests, ids) && k < |ids|
    ensures Before(s, ids, k + 1, now, api) == ProcessOne(Before(s, ids, k, now, api), ids[k], now, api)
  {
    assert ids[..k + 1][..k] == ids[..k];
  }

  /** The messages of a prefix of the loop are a prefix of the messages of the whole loop. */
  lemma {:induction false} OutboxPrefix(s: PassState, ids: seq<nat>, k: nat, now: int, api: nat -> LikeApiResult)
    requires ValidIds(s.requests, ids) && k <= |ids|
    ensures Before(s, ids, k, now, api).outbox == ProcessAll(s, ids, now, api).outbox[..|s.outbox| + k]
    decreases |ids|
  {
    if k < |ids| {
      var n := |ids| - 1;
      OutboxPrefix(s, ids[..n], k, now, api);
      assert ids[..n][..k] == ids[..k];
    } else {
      assert ids[..k] == ids;
    }
  }

  /** The `k`-th message of the loop is the one step `k` sends. */
  lemma OutboxAt(s: PassState, ids: seq<nat>, k: nat, now: int, api: nat -> LikeApiResult)
    requires ValidIds(s.requests, ids) && k < |ids|
    ensures ProcessAll(s, ids, now, api).outbox[|s.outbox| + k] ==
      ProcessOne(Before(s, ids, k, now, api), ids[k], now, api).outbox[|s.outbox| + k]
  {
    OutboxPrefix(s, ids, k + 1, now, api);
    BeforeNext(s, ids, k, now, api);
  }

  /** After the loop, every listed request is marked processed and nothing else changed. */
  lemma ProcessAllRequests(s: PassState, ids: seq<nat>, now: int, api: nat -> LikeApiResult)
    requires ValidIds(s.requests, ids)
    ensures forall i | 0 <= i < |s.requests| ::
      ProcessAll(s, ids, now, api).requests[i] ==
        if i in ids then s.requests[i].(processed := true) else s.requests[i]
  {
    forall i | 0 <= i < |s.requests|
      ensures ProcessAll(s, ids, now, api).requests[i] ==
        if i in ids then s.requests[i].(processed := true) else s.requests[i]
    {
      RequestAfterLoop(s, ids, i, now, api);
    }
  }

  /** Request `i` after the loop: marked processed exactly when `i` is listed. */
  lemma {:induction false} RequestAfterLoop(s: PassState, ids: seq<nat>, i: nat, now: int, api: nat -> LikeApiResult)
    requires ValidIds(s.requests, ids) && i < |s.requests|
    ensures ProcessAll(s, ids, now, api).requests[i] ==
      if i in ids then s.requests[i].(processed := true) else s.requests[i]
    decreases |ids|
  {
    if ids != [] {
      var n := |ids| - 1;
      var mid := ProcessAll(s, ids[..n], now, api);
      assert ProcessAll(s, ids, now, api) == ProcessOne(mid, ids[n], now, api);
      RequestAfterLoop(s, ids[..n], i, now, api);
      StepRequestAt(mid, ids[n], i, now, api);
      MemberSplitLast(ids, i);
    }
  }

  /** Membership in a non-empty list: in its front part or equal to its last element. */
  lemma MemberSplitLast(ids: seq<nat>, i: nat)
    requires ids != []
    ensures (i in ids) == (i in ids[..|ids| - 1] || i == ids[|ids| - 1])
  {
    assert ids == ids[..|ids| - 1] + [ids[|ids| - 1]];
  }

  /** Every step's message goes to its own request's chat and command. */
  lemma ProcessAllAddressing(s: PassState, ids: seq<nat>, now: int, api: nat -> LikeApiResult)
    requires ValidIds(s.requests, ids)
    ensures forall k | 0 <= k < |ids| ::
      && ProcessAll(s, ids, now, api).outbox[|s.outbox| + k].chatId == s.requests[ids[k]].chatId
      && ProcessAll(s, ids, now, api).outbox[|s.outbox| + k].replyTo == s.requests[ids[k]].messageId
  {
    forall k | 0 <= k < |ids|
      ensures ProcessAll(s, ids, now, api).outbox[|s.outbox| + k].chatId == s.requests[ids[k]].chatId
      ensures ProcessAll(s, ids, now, api).outbox[|s.outbox| + k].replyTo == s.requests[ids[k]].messageId
    {
      var b := Before(s, ids, k, now, api);
      OutboxAt(s, ids, k, now, api);
      StepNotice(b, ids[k], now, api);
      ProcessAllRequests(s, ids[..k], now, api);
      assert b.requests[ids[k]].chatId == s.requests[ids[k]].chatId;
    }
  }

  /**
   * During the loop, a user's VIP flag never changes and `lastUsed` either stays
   * or becomes `now`.
   */
  lemma {:induction false} ProcessAllProfiles(s: PassState, ids: seq<nat>, user: int, now: int, api: nat -> LikeApiResult)
    requires ValidIds(s.requests, ids)
    ensures var p := ProfileOf(ProcessAll(s, ids, now, api).profiles, user);
      && p.isVip == ProfileOf(s.profiles, user).isVip
      && (p.lastUsed == ProfileOf(s.profiles, user).lastUsed || p.lastUsed == Some(now))
    ensures user in s.profiles ==> user in ProcessAll(s, ids, now, api).profiles
    decreases |ids|
  {
    if ids != [] {
      var n := |ids| - 1;
      ProcessAllProfiles(s, ids[..n], user, now, api);
      StepProfiles(ProcessAll(s, ids[..n], now, api), ids[n], now, api);
    }
  }

  /**
   * A profile changes during the loop only if some step for one of that user's
   * requests reported success.
   */
  lemma {:induction false} ProfileChangesOnlyOnSuccess(s: PassState, ids: seq<nat>, user: int, now: int, api: nat -> LikeApiResult)
    requires ValidIds(s.requests, ids)
    requires ProfileOf(ProcessAll(s, ids, now, api).profiles, user) != ProfileOf(s.profiles, user)
    ensures exists k | 0 <= k < |ids| ::
      s.requests[ids[k]].userId == user && ProcessAll(s, ids, now, api).outbox[|s.outbox| + k].message.LikeSent?
    decreases |ids|
  {
    var n := |ids| - 1;
    var mid := ProcessAll(s, ids[..n], now, api);
    var r := ProcessAll(s, ids, now, api);
    assert r == ProcessOne(mid, ids[n], now, api);
    if ProfileOf(mid.profiles, user) != ProfileOf(s.profiles, user) {
      ProfileChangesOnlyOnSuccess(s, ids[..n], user, now, api);
      var k :| 0 <= k < n && s.requests[ids[..n][k]].userId == user && mid.outbox[|s.outbox| + k].message.LikeSent?;
      OutboxPrefix(s, ids, n, now, api);
      assert r.outbox[|s.outbox| + k] == mid.outbox[|s.outbox| + k];
    } else {
      StepChangeMeansSuccess(mid, ids[n], user, now, api);
      RequestAfterLoop(s, ids[..n], ids[n], now, api);
      assert r.outbox[|s.outbox| + n] == r.outbox[|r.outbox| - 1];
    }
  }

  /** A step changes a user's profile only by reporting a success to that user. */
  lemma StepChangeMeansSuccess(t: PassState, id: nat, user: int, now: int, api: nat -> LikeApiResult)
    requires id < |t.requests|
    requires ProfileOf(ProcessOne(t, id, now, api).profiles, user) != ProfileOf(t.profiles, user)
    ensures t.requests[id].userId == user && LastMessage(ProcessOne(t, id, now, api)).LikeSent?
  {
    StepProfiles(t, id, now, api);
  }

  /**
   * Profiles are read afresh for every request: once a non-VIP user has been
   * served in a pass, every later request of that user in the same pass is
   * refused with the daily-limit message and the service is not called for it.
   * As the pass reads the clock once, no time has elapsed and the message
   * shows 0h 0m.
   */
  lemma ServedUserDeniedLaterInPass(s: PassState, ids: seq<nat>, a: nat, b: nat, now: int, api: nat -> LikeApiResult)
    requires ValidIds(s.requests, ids) && a < b < |ids|
    requires s.requests[ids[a]].userId == s.requests[ids[b]].userId
    requires !ProfileOf(s.profiles, s.requests[ids[a]].userId).isVip
    requires LastMessage(ProcessOne(Before(s, ids, a, now, api), ids[a], now, api)).LikeSent?
    ensures Evaluate(ProfileOf(Before(s, ids, b, now, api).profiles, s.requests[ids[b]].userId), now).Deny?
    ensures LastMessage(ProcessOne(Before(s, ids, b, now, api), ids[b], now, api)) == DailyLimit(0, 0)
  {
    var user := s.requests[ids[a]].userId;
    var before := Before(s, ids, a, now, api);
    OwnerStable(s, ids, a, ids[a], now, api);
    ProcessAllProfiles(s, ids[..a], user, now, api);
    StepServes(before, ids[a], now, api);
    BeforeNext(s, ids, a, now, api);
    StaysServed(s, ids, a + 1, b, user, now, api);
    OwnerStable(s, ids, b, ids[b], now, api);
    NoTimeElapsedShowsZero(now);
    DeniedStepSkipsService(Before(s, ids, b, now, api), ids[b], now, api, api);
  }

  /** The loop never changes who a request belongs to. */
  lemma OwnerStable(s: PassState, ids: seq<nat>, k: nat, i: nat, now: int, api: nat -> LikeApiResult)
    requires ValidIds(s.requests, ids) && k <= |ids| && i < |s.requests|
    ensures Before(s, ids, k, now, api).requests[i].userId == s.requests[i].userId
  {
    ProcessAllRequests(s, ids[..k], now, api);
  }

  /** A success leaves a non-VIP requester's profile reading (not VIP, served at `now`). */
  lemma StepServes(t: PassState, id: nat, now: int, api: nat -> LikeApiResult)
    requires id < |t.requests| && !ProfileOf(t.profiles, t.requests[id].userId).isVip
    requires LastMessage(ProcessOne(t, id, now, api)).LikeSent?
    ensures ProfileOf(ProcessOne(t, id, now, api).profiles, t.requests[id].userId) == Profile(false, Some(now))
  {
    StepProfiles(t, id, now, api);
  }

  /** A profile reading (not VIP, served at `now`) still reads so after any step at `now`. */
  lemma StepKeepsServed(t: PassState, id: nat, user: int, now: int, api: nat -> LikeApiResult)
    requires id < |t.requests| && ProfileOf(t.profiles, user) == Profile(false, Some(now))
    ensures ProfileOf(ProcessOne(t, id, now, api).profiles, user) == Profile(false, Some(now))
  {
    StepProfiles(t, id, now, api);
    assert user in t.profiles;
  }

  /** Once a user's profile reads (not VIP, served at `now`) in the loop, it reads so at every later step. */
  lemma {:induction false} StaysServed(s: PassState, ids: seq<nat>, k: nat, c: nat, user: int, now: int, api: nat -> LikeApiResult)
    requires ValidIds(s.requests, ids) && k <= c <= |ids|
    requires ProfileOf(Before(s, ids, k, now, api).profiles, user) == Profile(false, Some(now))
    ensures ProfileOf(Before(s, ids, c, now, api).profiles, user) == Profile(false, Some(now))
    decreases c - k
  {
    if k < c {
      BeforeNext(s, ids, k, now, api);
      StepKeepsServed(Before(s, ids, k, now, api), ids[k], user, now, api);
      StaysServed(s, ids, k + 1, c, user, now, api);
    }
  }

  // ---------------------------------------------------------------- the pass

  /**
   * After a pass every request that was pending is marked processed; every
   * other request is exactly as it was.
   */
  lemma PassMarksPending(requests: seq<Request>, profiles: map<int, Profile>, now: int, api: nat -> LikeApiResult)
    ensures var r := Pass(requests, profiles, now, api);
      && |r.requests| == |requests|
      && forall i | 0 <= i < |requests| ::
           r.requests[i] == if Pending(requests[i]) then requests[i].(processed := true) else requests[i]
  {
    var s := PassState(requests, profiles, []);
    var ids := PendingIds(requests);
    assert Pass(requests, profiles, now, api) == ProcessAll(s, ids, now, api);
    ProcessAllRequests(s, ids, now, api);
  }

  /**
   * A pass sends exactly one message per pending request, in the order the
   * query returns them, each to that request's chat as a reply to its command.
   */
  lemma PassNotices(requests: seq<Request>, profiles: map<int, Profile>, now: int, api: nat -> LikeApiResult)
    ensures var r := Pass(requests, profiles, now, api);
      var ids := PendingIds(requests);
      && |r.outbox| == |ids|
      && forall k | 0 <= k < |ids| ::
           r.outbox[k].chatId == requests[ids[k]].chatId && r.outbox[k].replyTo == requests[ids[k]].messageId
  {
    var s := PassState(requests, profiles, []);
    var ids := PendingIds(requests);
    var r := Pass(requests, profiles, now, api);
    assert r == ProcessAll(s, ids, now, api);
    ProcessAllAddressing(s, ids, now, api);
    assert |s.outbox| == 0;
  }

  /** Nothing is pending after a pass, so a second pass right after it sends nothing and changes nothing. */
  lemma SecondPassIsQuiet(requests: seq<Request>, profiles: map<int, Profile>, now: int, later: int, api: nat -> LikeApiResult)
    ensures var r := Pass(requests, profiles, now, api);
      && PendingIds(r.requests) == []
      && Pass(r.requests, r.profiles, later, api) == PassState(r.requests, r.profiles, [])
  {
    var r := Pass(requests, profiles, now, api);
    PassMarksPending(requests, profiles, now, api);
    NoPendingIds(r.requests);
  }

  /** A pass never changes a VIP flag, and changes `lastUsed` only by setting it to `now`. */
  lemma PassProfiles(requests: seq<Request>, profiles: map<int, Profile>, user: int, now: int, api: nat -> LikeApiResult)
    ensures var p := ProfileOf(Pass(requests, profiles, now, api).profiles, user);
      && p.isVip == ProfileOf(profiles, user).isVip
      && (p.lastUsed == ProfileOf(profiles, user).lastUsed || p.lastUsed == Some(now))
  {
    var s := PassState(requests, profiles, []);
    var ids := PendingIds(requests);
    assert Pass(requests, profiles, now, api) == ProcessAll(s, ids, now, api);
    ProcessAllProfiles(s, ids, user, now, api);
  }

  /** A pass changes a user's profile only if it reported a success to that user. */
  lemma PassProfileChangeMeansSuccess(requests: seq<Request>, profiles: map<int, Profile>, user: int, now: int, api: nat -> LikeApiResult)
    ensures var r := Pass(requests, profiles, now, api);
      var ids := PendingIds(requests);
      ProfileOf(r.profiles, user) != ProfileOf(profiles, user) ==>
        exists k | 0 <= k < |ids| :: requests[ids[k]].userId == user && r.outbox[k].message.LikeSent?
  {
    var ids := PendingIds(requests);
    assert Pass(requests, profiles, now, api) == ProcessAll(PassState(requests, profiles, []), ids, now, api);
    FreshLoopProfileChange(requests, profiles, ids, user, now, api);
  }

  /** The same for a loop over any list of positions, started with no message sent. */
  lemma FreshLoopProfileChange(requests: seq<Request>, profiles: map<int, Profile>, ids: seq<nat>, user: int, now: int, api: nat -> LikeApiResult)
    requires ValidIds(requests, ids)
    ensures var r := ProcessAll(PassState(requests, profiles, []), ids, now, api);
      ProfileOf(r.profiles, user) != ProfileOf(profiles, user) ==>
        exists k | 0 <= k < |ids| :: requests[ids[k]].userId == user && r.outbox[k].message.LikeSent?
  {
    var s := PassState(requests, profiles, []);
    var r := ProcessAll(s, ids, now, api);
    if ProfileOf(r.profiles, user) != ProfileOf(profiles, user) {
      ProfileChangesOnlyOnSuccess(s, ids, user, now, api);
      var k :| 0 <= k < |ids| && s.requests[ids[k]].userId == user && r.outbox[|s.outbox| + k].message.LikeSent?;
      assert r.outbox[k].message.LikeSent?;
    }
  }

  // ---------------------------------------------------------------- scenarios

  /**
   * A verified request of a user with no profile: the service adds one like
   * (5 before, 6 after, nickname "Hero"); the success is reported with those
   * counts and the user's `lastUsed` becomes `now`.
   */
  lemma FreshUserIsServed(r: Request, now: int)
    requires Pending(r)
    ensures var api := (i: nat) => ApiJson(Some(5), Some(6), Some(1), Some("Hero"));
      var p := Pass([r], map[], now, api);
      && p.outbox == [Notice(r.chatId, r.messageId, LikeSent("Hero", r.uid, 5, 1, 6))]
      && p.profiles == map[r.userId := Profile(false, Some(now))]
      && p.requests == [r.(processed := true)]
  {
    assert PendingIds([r]) == [0];
    assert [0][..0] == [];
  }

  /**
   * The same request of a non-VIP user served an hour ago: the daily limit is
   * reported with 23h 0m left, and nothing else changes but the processed flag.
   */
  lemma RecentUserIsDeferred(r: Request, now: int, api: nat -> LikeApiResult)
    requires Pending(r)
    ensures var profiles := map[r.userId := Profile(false, Some(now - HOUR))];
      var p := Pass([r], profiles, now, api);
      && p.outbox == [Notice(r.chatId, r.messageId, DailyLimit(23, 0))]
      && p.profiles == profiles
      && p.requests == [r.(processed := true)]
  {
    assert PendingIds([r]) == [0];
    assert [0][..0] == [];
    OneHourAgo(now - HOUR);
  }

  /** The service call fails: the reason is reported verbatim, the profile is untouched and the request is processed. */
  lemma ServiceFailureIsReported(r: Request, profiles: map<int, Profile>, now: int)
    requires Pending(r) && Evaluate(ProfileOf(profiles, r.userId), now) == Allow
    ensures var p := Pass([r], profiles, now, (i: nat) => ApiRaised("timeout"));
      && p.outbox == [Notice(r.chatId, r.messageId, ProcessingError(r.uid, "timeout"))]
      && p.profiles == profiles
      && p.requests == [r.(processed := true)]
  {
    var api := (i: nat) => ApiRaised("timeout");
    var start := PassState([r], profiles, []);
    assert PendingIds([r]) == [0];
    assert [0][..0] == [];
    assert Pass([r], profiles, now, api) == ProcessOne(start, 0, now, api);
    assert Handle(profiles, r, 0, now, api) == (ProcessingError(r.uid, "timeout"), profiles);
  }
}
