/**
 * The cooldown rule of the background pass: a non-VIP user who was served less
 * than 24 hours ago is refused, and told how long is left.
 */
module RateLimit {
  import opened Wrappers
  import opened Clock
  import opened Store

  /** Either the like may be sent now, or the daily limit is reported with `hours`h `mins`m left. */
  datatype Decision = Allow | Deny(hours: nat, mins: nat)

  /**
   * The time left, as shown in the daily-limit message: `remaining =
   * 24h - (now - last)`, then `divmod(remaining.seconds, 3600)` and the remainder
   * `// 60`. The shown value never exceeds 23h 59m.
   */
  function TimeLeft(now: int, last: int): (hm: (nat, nat))
    ensures hm.0 <= 23 && hm.1 <= 59
  {
    var s := DeltaSeconds(COOLDOWN - (now - last));
    (s / 3600, (s % 3600) / 60)
  }

  /**
   * While the elapsed time lies strictly between 0 and 24h, the shown value is
   * the remaining cooldown rounded down to whole minutes.
   */
  lemma TimeLeftRoundsDown(now: int, last: int)
    requires 0 < now - last < COOLDOWN
    ensures var hm := TimeLeft(now, last);
      hm.0 * HOUR + hm.1 * MINUTE <= COOLDOWN - (now - last) < hm.0 * HOUR + hm.1 * MINUTE + MINUTE
  {
    DeltaSecondsWithinDay(COOLDOWN - (now - last));
  }

  /**
   * The decision for a record whose requester has profile `p`, at time `now`
   * (the test `not is_vip and last_used` followed by the 24-hour comparison).
   */
  function Evaluate(p: Profile, now: int): (d: Decision)
    ensures d.Deny? ==> !p.isVip && p.lastUsed.Some? && now - p.lastUsed.value < COOLDOWN
    ensures d.Deny? ==> d.hours <= 23 && d.mins <= 59
  {
    if !p.isVip && p.lastUsed.Some? && now - p.lastUsed.value < COOLDOWN then
      var hm := TimeLeft(now, p.lastUsed.value);
      Deny(hm.0, hm.1)
    else
      Allow
  }

  /**
   * A refusal after some time has elapsed shows the rest of the cooldown
   * rounded down to whole minutes.
   */
  lemma DeniedShowsTimeLeft(p: Profile, now: int)
    requires Evaluate(p, now).Deny? && 0 < now - p.lastUsed.value
    ensures var d := Evaluate(p, now);
      d.hours * HOUR + d.mins * MINUTE <= COOLDOWN - (now - p.lastUsed.value) < d.hours * HOUR + d.mins * MINUTE + MINUTE
  {
    TimeLeftRoundsDown(now, p.lastUsed.value);
  }

  /** A non-VIP user served less than 24 hours ago is refused. */
  lemma DeniedWithinCooldown(p: Profile, now: int)
    requires !p.isVip && p.lastUsed.Some? && now - p.lastUsed.value < COOLDOWN
    ensures Evaluate(p, now).Deny?
  {
  }

  /** A VIP is never refused, however recently served. */
  lemma VipAlwaysAllowed(p: Profile, now: int)
    requires p.isVip
    ensures Evaluate(p, now) == Allow
  {
  }

  /** A user never served before is allowed; so is a user with no profile document. */
  lemma FirstUseAllowed(profiles: map<int, Profile>, user: int, now: int)
    requires user !in profiles || profiles[user].lastUsed.None?
    ensures Evaluate(ProfileOf(profiles, user), now) == Allow
  {
  }

  /** The comparison is strict: exactly 24 hours after the last fulfilment is allowed, one microsecond less is not. */
  lemma CooldownBoundary(vip: bool, last: int)
    ensures Evaluate(Profile(vip, Some(last)), last + COOLDOWN) == Allow
    ensures !vip ==> Evaluate(Profile(vip, Some(last)), last + COOLDOWN - 1).Deny?
  {
  }

  /** Served one hour ago: the message says 23h 0m. */
  lemma OneHourAgo(last: int)
    ensures Evaluate(Profile(false, Some(last)), last + HOUR) == Deny(23, 0)
  {
  }

  /**
   * With no time elapsed the remaining duration is a whole day, whose
   * `.seconds` component is 0: the message then says 0h 0m although the full
   * cooldown is ahead. The same wrap-around hides whole days when the last
   * fulfilment lies in the future.
   */
  lemma NoTimeElapsedShowsZero(last: int)
    ensures Evaluate(Profile(false, Some(last)), last) == Deny(0, 0)
    ensures Evaluate(Profile(false, Some(last)), last - HOUR) == Deny(1, 0)
  {
  }
}
