/**
 * The two chat commands: `/like ind <uid>`, which opens a verification request,
 * and `/givevip <user_id>`, with which an administrator exempts a user from the
 * cooldown.
 */
module Commands {
  import opened Wrappers
  import opened Clock
  import opened Store

  // ---------------------------------------------------------------- words

  /** The characters Python's `str.split()` treats as separators (those for which `str.isspace` holds). */
  predicate IsSpace(c: char) {
    || '\t' <= c <= '\r'
    || '\U{1C}' <= c <= ' '
    || c == '\U{85}' || c == '\U{A0}' || c == '\U{1680}'
    || '\U{2000}' <= c <= '\U{200A}'
    || c == '\U{2028}' || c == '\U{2029}' || c == '\U{202F}' || c == '\U{205F}' || c == '\U{3000}'
  }

  /** Python's `string.whitespace` together with the four ASCII separators `\x1c`-`\x1f`. */
  const AsciiSeparators: string := " \t\n\r\U{0B}\U{0C}\U{1C}\U{1D}\U{1E}\U{1F}"

  /** Among ASCII characters, the separators are exactly the listed ten. */
  lemma AsciiSeparatorsExact(c: char)
    requires c < '\U{80}'
    ensures IsSpace(c) <==> c in AsciiSeparators
  {
  }

  predicate NoSpace(w: string) {
    forall i | 0 <= i < |w| :: !IsSpace(w[i])
  }

  /** The characters of `s` that are not separators, in order. */
  function NonSpace(s: string): (r: string)
    decreases |s|
  {
    if s == [] then [] else (if IsSpace(s[0]) then [] else [s[0]]) + NonSpace(s[1..])
  }

  /** The words joined with nothing between them. */
  function Concat(words: seq<string>): (r: string)
    decreases |words|
  {
    if words == [] then [] else words[0] + Concat(words[1..])
  }

  /**
   * `str.split()` with no argument: the maximal runs of non-separator
   * characters, in order. A string that starts with a non-separator starts its
   * first word.
   */
  function Split(s: string): (words: seq<string>)
    ensures s != [] && !IsSpace(s[0]) ==> words != [] && words[0] != [] && words[0][0] == s[0]
    decreases |s|
  {
    if s == [] then []
    else
      var rest := Split(s[1..]);
      if IsSpace(s[0]) then rest
      else if |s| > 1 && !IsSpace(s[1]) then [[s[0]] + rest[0]] + rest[1..]
      else [[s[0]]] + rest
  }

  /** The words are non-empty and contain no separator. */
  lemma {:induction false} SplitWords(s: string)
    ensures forall k | 0 <= k < |Split(s)| :: Split(s)[k] != [] && NoSpace(Split(s)[k])
    decreases |s|
  {
    if s != [] {
      var rest := Split(s[1..]);
      SplitWords(s[1..]);
      if !IsSpace(s[0]) && |s| > 1 && !IsSpace(s[1]) {
        var w := [s[0]] + rest[0];
        assert Split(s) == [w] + rest[1..];
        assert forall i | 0 < i < |w| :: w[i] == rest[0][i - 1];
      }
    }
  }

  /** Splitting loses only separators: the words together hold every other character of `s`, in order. */
  lemma {:induction false} SplitKeepsText(s: string)
    ensures Concat(Split(s)) == NonSpace(s)
    decreases |s|
  {
    if s != [] {
      var rest := Split(s[1..]);
      SplitKeepsText(s[1..]);
      if !IsSpace(s[0]) {
        if |s| > 1 && !IsSpace(s[1]) {
          assert Split(s) == [[s[0]] + rest[0]] + rest[1..];
          assert Concat(rest) == rest[0] + Concat(rest[1..]);
          assert Concat(Split(s)) == [s[0]] + rest[0] + Concat(rest[1..]);
        } else {
          assert Split(s) == [[s[0]]] + rest;
        }
      }
    }
  }

  /** Separators at either end, and runs of them, produce no empty words. */
  lemma SplitExample()
    ensures Split(" ind  7\n") == ["ind", "7"]
  {
    assert Split("\n") == [];
    assert Split("7\n") == ["7"];
    assert Split(" 7\n") == ["7"];
    assert Split("  7\n") == ["7"];
    assert Split("d  7\n") == ["d", "7"];
    assert "nd  7\n"[1..] == "d  7\n" && ['n'] + "d" == "nd";
    assert Split("nd  7\n") == ["nd", "7"];
    assert "ind  7\n"[1..] == "nd  7\n" && ['i'] + "nd" == "ind";
    assert Split("ind  7\n") == ["ind", "7"];
  }

  /** `args = text.split(); uid = args[2]`, where a short command raises and is answered with the usage text. */
  function ParseUid(text: string): (uid: Option<string>)
    ensures uid.Some? <==> |Split(text)| >= 3
    ensures uid.Some? ==> uid.value == Split(text)[2]
    ensures uid.Some? ==> uid.value != [] && NoSpace(uid.value)
  {
    SplitWords(text);
    var args := Split(text);
    if |args| >= 3 then Some(args[2]) else None
  }

  // ---------------------------------------------------------------- names and codes

  /** `uid[-4:]`: the last four characters, or all of them when there are fewer. */
  function LastFour(uid: string): (t: string)
    ensures |t| == if |uid| < 4 then |uid| else 4
    ensures uid == uid[..|uid| - |t|] + t
  {
    if |uid| < 4 then uid else uid[|uid| - 4..]
  }

  /** The display name used when no player name is known: `Player-` and the last four characters of the uid. */
  function FallbackName(uid: string): (name: string)
    ensures |name| == 7 + (if |uid| < 4 then |uid| else 4)
    ensures name[..7] == "Player-"
    ensures uid == uid[..|uid| - (|name| - 7)] + name[7..]
  {
    "Player-" + LastFour(uid)
  }

  /** A character of `string.ascii_letters + string.digits`, the alphabet of verification codes. */
  predicate IsCodeChar(c: char) {
    'a' <= c <= 'z' || 'A' <= c <= 'Z' || '0' <= c <= '9'
  }

  /** The shape of what `generate_code()` returns: 12 characters drawn from that alphabet. */
  predicate ValidCode(code: string) {
    |code| == 12 && forall i | 0 <= i < |code| :: IsCodeChar(code[i])
  }

  /** A code holds no separator, `/` or `?`, so the link's path is exactly `/verify/<code>`. */
  lemma ValidCodeIsPlain(code: string)
    requires ValidCode(code)
    ensures NoSpace(code) && '/' !in code && '?' !in code
  {
  }

  // ---------------------------------------------------------------- /like

  /** The reply of the player-info service: it failed, or it answered with a JSON object that may hold `name`. */
  datatype NameLookup = LookupRaised | LookupJson(name: Option<string>)

  /** The reply of the link shortener: it failed, or it answered with a JSON object that may hold `shortenedUrl`. */
  datatype LinkLookup = LinkRaised | LinkJson(shortenedUrl: Option<string>)

  /** What the command answers. `Aborted` is the shortener failing, which is not caught: the handler ends with no reply. */
  datatype LikeReply =
    | JoinChannelFirst
    | UsageHint
    | Aborted
    | Initiated(name: string, uid: string, link: string)

  /** The name shown in the reply: the service's `name`, or the fallback when it is missing or the call failed. */
  function PlayerName(lookup: NameLookup, uid: string): (name: string)
    ensures lookup.LookupJson? && lookup.name.Some? ==> name == lookup.name.value
    ensures lookup.LookupRaised? || lookup.name.None? ==> name == FallbackName(uid)
  {
    match lookup
    case LookupRaised => FallbackName(uid)
    case LookupJson(n) => n.GetOr(FallbackName(uid))
  }

  /**
   * `/like` sent by `userId` in `chatId` as message `messageId` with text `text`,
   * at time `now`. `isMember` is the channel-membership check, `code` the freshly
   * generated code, `names` and `link` the two web services' replies and
   * `baseUrl` the verification server's address. Returns the reply and the
   * request collection afterwards.
   */
  function Like(requests: seq<Request>, userId: int, chatId: int, messageId: int, text: string,
                isMember: bool, code: string, names: NameLookup, link: LinkLookup, baseUrl: string,
                now: int): (r: (LikeReply, seq<Request>))
    requires ValidCode(code)
    ensures !isMember ==> r.0 == JoinChannelFirst
    ensures isMember && |Split(text)| < 3 ==> r.0 == UsageHint
    ensures isMember && |Split(text)| >= 3 && link.LinkRaised? ==> r.0 == Aborted
    ensures r.0.Initiated? <==> isMember && |Split(text)| >= 3 && link.LinkJson?
    ensures !r.0.Initiated? ==> r.1 == requests
    ensures r.0.Initiated? ==>
      |r.1| == |requests| + 1 && r.1[..|requests|] == requests &&
      var x := r.1[|requests|];
      x.userId == userId && x.uid == Split(text)[2] && x.uid == r.0.uid &&
      x.code == code && ValidCode(x.code) &&
      !x.verified && x.verifiedAt.None? && !x.processed &&
      x.expiresAt == now + REQUEST_TTL && x.chatId == chatId && x.messageId == messageId
    ensures r.0.Initiated? ==>
      r.0.link == link.shortenedUrl.GetOr(baseUrl + "/verify/" + code) &&
      r.0.name == PlayerName(names, r.0.uid)
  {
    if !isMember then (JoinChannelFirst, requests)
    else match ParseUid(text)
      case None => (UsageHint, requests)
      case Some(uid) =>
        var name := PlayerName(names, uid);
        match link
        case LinkRaised => (Aborted, requests)
        case LinkJson(short) =>
          var record := Request(userId, uid, code, false, now + REQUEST_TTL, chatId, messageId, None, false);
          (Initiated(name, uid, short.GetOr(baseUrl + "/verify/" + code)), requests + [record])
  }

  /** A new request is not pending: the background pass leaves it alone until its link is visited. */
  lemma CreatedRequestWaitsForVerification(requests: seq<Request>, userId: int, chatId: int, messageId: int,
                                           text: string, isMember: bool, code: string, names: NameLookup,
                                           link: LinkLookup, baseUrl: string, now: int)
    requires ValidCode(code)
    ensures PendingIds(Like(requests, userId, chatId, messageId, text, isMember, code, names, link, baseUrl, now).1)
         == PendingIds(requests)
  {
    var after := Like(requests, userId, chatId, messageId, text, isMember, code, names, link, baseUrl, now).1;
    if after != requests {
      assert after[..|after| - 1] == requests;
    }
  }

  // ---------------------------------------------------------------- /givevip

  datatype VipReply = NotAuthorized | VipUsage | VipGranted(target: int)

  /**
   * `/givevip` sent by `caller`; `target` is `int(context.args[0])`, or `None`
   * when the argument is missing or not a number. Only an administrator
   * changes anything: the target's profile is upserted with `isVip` set, its
   * `lastUsed` kept, and every other profile is left as it was.
   */
  function GiveVip(profiles: map<int, Profile>, admins: set<int>, caller: int, target: Option<int>)
    : (r: (VipReply, map<int, Profile>))
    ensures caller !in admins ==> r.0 == NotAuthorized
    ensures caller in admins && target.None? ==> r.0 == VipUsage
    ensures r.0.VipGranted? <==> caller in admins && target.Some?
    ensures !r.0.VipGranted? ==> r.1 == profiles
    ensures r.0.VipGranted? ==>
      var t := r.0.target;
      t == target.value && r.1.Keys == profiles.Keys + {t} &&
      r.1[t].isVip && r.1[t].lastUsed == ProfileOf(profiles, t).lastUsed &&
      forall u | u in profiles && u != t :: r.1[u] == profiles[u]
  {
    if caller !in admins then (NotAuthorized, profiles)
    else match target
      case None => (VipUsage, profiles)
      case Some(t) => (VipGranted(t), profiles[t := ProfileOf(profiles, t).(isVip := true)])
  }
}
