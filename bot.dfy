/**
 * The bot's mutable state, the two collections, and the handlers that update
 * them in place: the verification endpoint, the two commands and one pass of
 * the background loop. Each handler is proved to compute its specification in
 * Verification, Commands or Dispatch.
 */
module Bot {
  import opened Wrappers
  import opened Clock
  import opened Store
  import opened RateLimit
  import Verification
  import Commands
  import opened Dispatch

  class LikeBot {
    /** The `verifications` collection, in natural order; a record's position is its identity. */
    var requests: seq<Request>
    /** The `users` collection, keyed by `user_id`. */
    var profiles: map<int, Profile>
    /** `ADMIN_IDS`, read once from the environment. */
    const admins: set<int>

    /**
     * The bot at start-up: the collections are opened with whatever they hold
     * from earlier runs (`stored` and `storedProfiles`; both are empty on the
     * very first start).
     */
    constructor (admins: set<int>, stored: seq<Request>, storedProfiles: map<int, Profile>)
      ensures requests == stored && profiles == storedProfiles && this.admins == admins
    {
      this.admins := admins;
      requests := stored;
      profiles := storedProfiles;
    }

    /** `GET /verify/<code>` at time `now`; `ok` is whether the success page is shown. */
    method Verify(code: string, now: int) returns (ok: bool)
      modifies this
      ensures (ok, requests) == Verification.VerifyCode(old(requests), code, now)
      ensures profiles == old(profiles)
    {
      ok := false;
      var found := FindCode(requests, code);
      if found.Some? && !requests[found.value].verified {
        var i := found.value;
        requests := requests[i := requests[i].(verified := true, verifiedAt := Some(now))];
        ok := true;
      }
    }

    /** `/like ind <uid>`; see `Commands.Like` for the inputs. */
    method Like(userId: int, chatId: int, messageId: int, text: string, isMember: bool, code: string,
                names: Commands.NameLookup, link: Commands.LinkLookup, baseUrl: string, now: int)
      returns (reply: Commands.LikeReply)
      requires Commands.ValidCode(code)
      modifies this
      ensures (reply, requests) ==
        Commands.Like(old(requests), userId, chatId, messageId, text, isMember, code, names, link, baseUrl, now)
      ensures profiles == old(profiles)
    {
      if !isMember {
        return Commands.JoinChannelFirst;
      }
      var uid := Commands.ParseUid(text);
      if uid.None? {
        return Commands.UsageHint;
      }
      var name := Commands.PlayerName(names, uid.value);
      if link.LinkRaised? {
        return Commands.Aborted;
      }
      var url := link.shortenedUrl.GetOr(baseUrl + "/verify/" + code);
      requests := requests + [Request(userId, uid.value, code, false, now + REQUEST_TTL, chatId, messageId, None, false)];
      reply := Commands.Initiated(name, uid.value, url);
    }

    /** `/givevip <user_id>` sent by `caller`; `target` is the parsed argument. */
    method GiveVip(caller: int, target: Option<int>) returns (reply: Commands.VipReply)
      modifies this
      ensures (reply, profiles) == Commands.GiveVip(old(profiles), admins, caller, target)
      ensures requests == old(requests)
    {
      if caller !in admins {
        return Commands.NotAuthorized;
      }
      if target.None? {
        return Commands.VipUsage;
      }
      var t := target.value;
      profiles := profiles[t := ProfileOf(profiles, t).(isVip := true)];
      reply := Commands.VipGranted(t);
    }

    /**
     * The body of the background loop for request `id`: read the requester's
     * profile, apply the cooldown, call the like service only when allowed and
     * record the fulfilment on success. Returns the message to send.
     */
    method Serve(id: nat, now: int, api: nat -> LikeApiResult) returns (message: Message)
      requires id < |requests|
      modifies this
      ensures requests == old(requests)
      ensures (message, profiles) == Handle(old(profiles), requests[id], id, now, api)
    {
      var req := requests[id];
      match Evaluate(ProfileOf(profiles, req.userId), now)
      case Deny(hours, mins) =>
        message := DailyLimit(hours, mins);
      case Allow =>
        match api(id)
        case ApiRaised(reason) =>
          message := ProcessingError(req.uid, reason);
        case ApiJson(before, after, added, nickname) =>
          if added.GetOr(0) == 0 {
            message := LikeFailed;
          } else {
            profiles := profiles[req.userId := ProfileOf(profiles, req.userId).(lastUsed := Some(now))];
            var name := nickname.GetOr(Commands.FallbackName(req.uid));
            message := LikeSent(name, req.uid, before.GetOr(0), added.GetOr(0), after.GetOr(0));
          }
    }

    /**
     * One iteration of the background loop at time `now`, `api(i)` being what
     * the like service answers for request `i`; `sent` is the messages, in order.
     */
    method ProcessVerifiedLikes(now: int, api: nat -> LikeApiResult) returns (sent: seq<Notice>)
      modifies this
      ensures PassState(requests, profiles, sent) == Pass(old(requests), old(profiles), now, api)
    {
      var pending := PendingIds(requests);
      ghost var start := PassState(requests, profiles, []);
      sent := [];
      assert pending[..0] == [];
      for k := 0 to |pending|
        invariant PassState(requests, profiles, sent) == ProcessAll(start, pending[..k], now, api)
      {
        BeforeNext(start, pending, k, now, api);
        ghost var prev := PassState(requests, profiles, sent);
        var id := pending[k];
        var req := requests[id];
        var message := Serve(id, now, api);
        sent := sent + [Notice(req.chatId, req.messageId, message)];
        requests := requests[id := req.(processed := true)];
        assert PassState(requests, profiles, sent) == ProcessOne(prev, id, now, api);
      }
      assert pending[..|pending|] == pending;
      assert Pass(old(requests), old(profiles), now, api) == ProcessAll(start, pending, now, api);
    }
  }

  /**
   * An administrator's grant lifts the cooldown at once: the target is allowed
   * even if served a minute ago.
   */
  lemma GrantLiftsCooldown(profiles: map<int, Profile>, admins: set<int>, caller: int, target: int, now: int)
    requires caller in admins
    requires target in profiles && profiles[target].lastUsed == Some(now - MINUTE)
    ensures var r := Commands.GiveVip(profiles, admins, caller, Some(target));
      && r.0 == Commands.VipGranted(target)
      && Evaluate(ProfileOf(r.1, target), now) == Allow
      && ProfileOf(r.1, target).lastUsed == Some(now - MINUTE)
  {
  }
}
