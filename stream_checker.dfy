/** The live-stream reconciliation pass of the bot (`checkStreams`) and the
    timer handle that drives it.

    Every pass reads the Discord-to-Twitch links, resolves the Twitch users,
    asks which of them are live, strips the managed "live now" role from
    holders that should not have it (the cleanup sweep), computes the members
    that are live now, diffs them against the live set kept from the previous
    pass, replaces that set, and grants the role and sends notifications to
    members that went live and revokes it from members that went offline.

    The guild is a value: whether it and the role were found, which of the two
    notification channels exist, whether the member list could be fetched, and
    the members in fetch order with whether each holds the role. The answers of
    the database and of the Twitch client are parameters (`Fetched`). A pass
    yields the role and notification actions it issues, in order; every issued
    role action is taken to succeed on the member list. */
module StreamChecker {
  import opened Wrappers
  import opened Sequences
  import Text
  import opened TwitchApi
  import opened Schemas

  type MemberId = DiscordId

  /** A guild member as the member fetch returns it. */
  datatype Member = Member(id: MemberId, displayName: string, username: string, avatarUrl: string, hasRole: bool)

  /** What the pass can see of the guild. */
  datatype Guild = Guild(
    found: bool,             // the guild is in the client's cache
    liveRoleFound: bool,     // a role with the configured name exists
    envChannel: bool,        // the channel configured in the environment exists
    additionalChannel: bool, // the hard-coded additional channel exists
    rosterFetchOk: bool,     // fetching all members succeeded
    members: seq<Member>)

  datatype FetchError = DatabaseError | TwitchError(error: ApiError)

  /** The answers of the link store and of the two Twitch requests. */
  datatype Fetched = Fetched(
    links: Result<seq<Link>, FetchError>,
    users: Result<seq<TwitchUser>, FetchError>,
    streams: Result<seq<StreamRecord>, FetchError>)

  datatype Channel = EnvChannel | AdditionalChannel

  datatype EmbedField = EmbedField(name: string, value: string, inline: bool)

  /** The notification embed; the author link and the title link are the same URL. */
  datatype Embed = Embed(color: string, authorName: string, authorIcon: string, url: string,
                         fields: seq<EmbedField>, image: Option<string>)

  datatype Action = RemoveRole(member: MemberId) | AddRole(member: MemberId) | Notify(channel: Channel, embed: Embed)

  // ---------------------------------------------------------------------
  // Lookups: `Array.prototype.find`, `Collection.get`, `Set.has`

  function Logins(users: seq<TwitchUser>): (r: seq<string>)
    ensures |r| == |users| && forall k :: 0 <= k < |users| ==> r[k] == users[k].login
  {
    seq(|users|, k requires 0 <= k < |users| => users[k].login)
  }

  function LoweredLogins(users: seq<TwitchUser>): (r: seq<string>)
    ensures |r| == |users| && forall k :: 0 <= k < |users| ==> r[k] == Text.LowerStr(users[k].login)
  {
    seq(|users|, k requires 0 <= k < |users| => Text.LowerStr(users[k].login))
  }

  function StreamUserIds(streams: seq<StreamRecord>): (r: seq<UserId>)
    ensures |r| == |streams| && forall k :: 0 <= k < |streams| ==> r[k] == streams[k].userId
  {
    seq(|streams|, k requires 0 <= k < |streams| => streams[k].userId)
  }

  function MemberIds(ms: seq<Member>): (r: seq<MemberId>)
    ensures |r| == |ms| && forall k :: 0 <= k < |ms| ==> r[k] == ms[k].id
  {
    seq(|ms|, k requires 0 <= k < |ms| => ms[k].id)
  }

  /** `twitchUsers.find(user => user.login === login)`: exact, case-sensitive match. */
  function FindUserExact(users: seq<TwitchUser>, login: string): Option<TwitchUser>
  {
    match IndexOf(Logins(users), login)
    case None => None
    case Some(k) => Some(users[k])
  }

  /** `twitchUsers.find(u => u.login.toLowerCase() === login.toLowerCase())`. */
  function FindUserCI(users: seq<TwitchUser>, login: string): Option<TwitchUser>
  {
    match IndexOf(LoweredLogins(users), Text.LowerStr(login))
    case None => None
    case Some(k) => Some(users[k])
  }

  /** `liveStreams.find(s => s.user_id === userId)`. */
  function FindStream(streams: seq<StreamRecord>, userId: UserId): Option<StreamRecord>
  {
    match IndexOf(StreamUserIds(streams), userId)
    case None => None
    case Some(k) => Some(streams[k])
  }

  /** `guild.members.fetch(id)`: the position of the member, or none when it cannot be fetched. */
  function FindMember(ms: seq<Member>, id: MemberId): Option<nat>
  {
    IndexOf(MemberIds(ms), id)
  }

  /** The Twitch user ids that are live: `new Set(liveStreams.map(s => s.user_id))`. */
  function LiveUserIds(streams: seq<StreamRecord>): set<UserId>
  {
    set k | 0 <= k < |streams| :: streams[k].userId
  }

  // ---------------------------------------------------------------------
  // JavaScript Sets of member ids: sequences in insertion order without repeats

  /** The elements of `a` that are not in `b`, in the order of `a`. */
  function Minus(a: seq<MemberId>, b: seq<MemberId>): (r: seq<MemberId>)
    ensures forall x :: x in r <==> x in a && x !in b
    ensures NoDup(a) ==> NoDup(r)
  {
    if a == [] then []
    else
      var rest := Minus(a[..|a| - 1], b);
      var x := a[|a| - 1];
      assert forall y :: y in a <==> y in a[..|a| - 1] || y == x by {
        assert a == a[..|a| - 1] + [x];
      }
      if x !in b then rest + [x] else rest
  }

  /** `set.delete(x)`. */
  function Remove(s: seq<MemberId>, x: MemberId): (r: seq<MemberId>)
    ensures forall y :: y in r <==> y in s && y != x
    ensures NoDup(s) ==> NoDup(r)
    ensures x !in s ==> r == s
  {
    if s == [] then []
    else
      var rest := Remove(s[..|s| - 1], x);
      var y := s[|s| - 1];
      assert forall z :: z in s <==> z in s[..|s| - 1] || z == y by {
        assert s == s[..|s| - 1] + [y];
      }
      assert x !in s ==> s == s[..|s| - 1] + [y];
      assert NoDup(s) ==> y !in s[..|s| - 1];
      if y != x then rest + [y] else rest
  }

  // ---------------------------------------------------------------------
  // The cleanup sweep (streamChecker.mjs:52-74, 87-108, 123-165)

  /** Which holders lose the role: all of them when there are no links or no
      resolved users, otherwise those whose link, exact-case Twitch user or
      live stream is missing. */
  datatype SweepRule = StripAll | StripUnlessLive(links: seq<Link>, users: seq<TwitchUser>, liveIds: set<UserId>)

  predicate Strips(rule: SweepRule, id: MemberId)
  {
    match rule
    case StripAll => true
    case StripUnlessLive(links, users, liveIds) =>
      match FindLink(links, id)
      case None => true
      case Some(l) =>
        match FindUserExact(users, l.twitchUsername)
        case None => true
        case Some(u) => u.id !in liveIds
  }

  predicate SweptAway(m: Member, rule: SweepRule)
  {
    m.hasRole && Strips(rule, m.id)
  }

  function Swept(m: Member, rule: SweepRule): Member
  {
    if SweptAway(m, rule) then m.(hasRole := false) else m
  }

  /** The removals the sweep issues, in member order. */
  function SweepActions(ms: seq<Member>, rule: SweepRule): seq<Action>
  {
    if ms == [] then []
    else
      var m := ms[|ms| - 1];
      SweepActions(ms[..|ms| - 1], rule) + if SweptAway(m, rule) then [RemoveRole(m.id)] else []
  }

  /** The members after the sweep. */
  function SweepMembers(ms: seq<Member>, rule: SweepRule): (r: seq<Member>)
    ensures |r| == |ms| && forall j :: 0 <= j < |ms| ==> r[j] == Swept(ms[j], rule)
  {
    seq(|ms|, j requires 0 <= j < |ms| => Swept(ms[j], rule))
  }

  /** The sweep loop: each fetched holder the rule strips has its role removed. */
  method Sweep(ms: seq<Member>, rule: SweepRule) returns (actions: seq<Action>, members: seq<Member>)
    ensures actions == SweepActions(ms, rule)
    ensures members == SweepMembers(ms, rule)
  {
    actions, members := [], ms;
    for i := 0 to |ms|
      invariant |members| == |ms|
      invariant actions == SweepActions(ms[..i], rule)
      invariant forall j :: 0 <= j < i ==> members[j] == Swept(ms[j], rule)
      invariant forall j :: i <= j < |ms| ==> members[j] == ms[j]
    {
      assert ms[..i + 1][..i] == ms[..i];
      if SweptAway(ms[i], rule) {
        actions := actions + [RemoveRole(ms[i].id)];
        members := members[i := ms[i].(hasRole := false)];
      }
    }
    assert ms[..|ms|] == ms;
  }

  // ---------------------------------------------------------------------
  // Who is live now (streamChecker.mjs:175-201)

  /** A link is live when a user matches its login ignoring case and that user streams. */
  predicate LinkIsLive(l: Link, users: seq<TwitchUser>, liveIds: set<UserId>)
  {
    match FindUserCI(users, l.twitchUsername)
    case None => false
    case Some(u) => u.id in liveIds
  }

  /** `nextLiveDiscordIds`: ids of live links, in link order, each once. */
  function NextLive(links: seq<Link>, users: seq<TwitchUser>, liveIds: set<UserId>): seq<MemberId>
  {
    if links == [] then []
    else
      var acc := NextLive(links[..|links| - 1], users, liveIds);
      var l := links[|links| - 1];
      if LinkIsLive(l, users, liveIds) && l.discordId !in acc then acc + [l.discordId] else acc
  }

  /** The loop over the links that fills `nextLiveDiscordIds`. */
  method ComputeNextLive(links: seq<Link>, users: seq<TwitchUser>, liveIds: set<UserId>) returns (next: seq<MemberId>)
    ensures next == NextLive(links, users, liveIds)
  {
    next := [];
    for i := 0 to |links|
      invariant next == NextLive(links[..i], users, liveIds)
    {
      assert links[..i + 1][..i] == links[..i];
      if LinkIsLive(links[i], users, liveIds) && links[i].discordId !in next {
        next := next + [links[i].discordId];
      }
    }
    assert links[..|links|] == links;
  }

  // ---------------------------------------------------------------------
  // Who went live and who went offline (streamChecker.mjs:217-241)

  /** One element of `wentLiveDiscordIdsCorrected`. */
  datatype GoLiveEntry = GoLiveEntry(discordId: MemberId, twitchUsername: string, streamInfo: Option<StreamRecord>)

  /** The entry for a newly live id: none when its first link's login matches
      no user ignoring case; the stream is the first one of that user. */
  function EntryFor(id: MemberId, links: seq<Link>, users: seq<TwitchUser>, streams: seq<StreamRecord>): Option<GoLiveEntry>
  {
    match FindLink(links, id)
    case None => None
    case Some(l) =>
      match FindUserCI(users, l.twitchUsername)
      case None => None
      case Some(u) => Some(GoLiveEntry(id, l.twitchUsername, FindStream(streams, u.id)))
  }

  function GoLiveEntries(ids: seq<MemberId>, links: seq<Link>, users: seq<TwitchUser>, streams: seq<StreamRecord>): seq<GoLiveEntry>
  {
    if ids == [] then []
    else
      GoLiveEntries(ids[..|ids| - 1], links, users, streams)
      + match EntryFor(ids[|ids| - 1], links, users, streams) case None => [] case Some(e) => [e]
  }

  /** The loop over `nextLiveDiscordIds` that builds the entries of the ids not live before. */
  method ComputeWentLive(next: seq<MemberId>, prev: seq<MemberId>, links: seq<Link>, users: seq<TwitchUser>,
                         streams: seq<StreamRecord>) returns (entries: seq<GoLiveEntry>)
    ensures entries == GoLiveEntries(Minus(next, prev), links, users, streams)
  {
    entries := [];
    for i := 0 to |next|
      invariant entries == GoLiveEntries(Minus(next[..i], prev), links, users, streams)
    {
      assert next[..i + 1][..i] == next[..i];
      if next[i] !in prev {
        var ids := Minus(next[..i], prev);
        assert (ids + [next[i]])[..|ids|] == ids;
        var e := EntryFor(next[i], links, users, streams);
        if e.Some? {
          entries := entries + [e.value];
        }
      }
    }
    assert next[..|next|] == next;
  }

  /** Every id that went offline still has a link (otherwise :239 throws). */
  predicate AllLinked(ids: seq<MemberId>, links: seq<Link>)
  {
    forall k :: 0 <= k < |ids| ==> FindLink(links, ids[k]).Some?
  }

  /** The loop over the previous live set that collects the ids that went
      offline; it stops at the first one without a link. */
  method ComputeWentOffline(prev: seq<MemberId>, next: seq<MemberId>, links: seq<Link>) returns (offline: seq<MemberId>, linked: bool)
    ensures linked <==> AllLinked(Minus(prev, next), links)
    ensures linked ==> offline == Minus(prev, next)
  {
    offline := [];
    for i := 0 to |prev|
      invariant offline == Minus(prev[..i], next)
      invariant AllLinked(offline, links)
    {
      assert prev[..i + 1][..i] == prev[..i];
      if prev[i] !in next {
        if FindLink(links, prev[i]).None? {
          var o := Minus(prev[..i + 1], next);
          assert o[|o| - 1] == prev[i];
          assert !AllLinked(Minus(prev, next), links) by {
            assert prev[i] in Minus(prev, next);
            var k :| 0 <= k < |Minus(prev, next)| && Minus(prev, next)[k] == prev[i];
          }
          return offline, false;
        }
        offline := offline + [prev[i]];
      }
    }
    assert prev[..|prev|] == prev;
    linked := true;
  }

  // ---------------------------------------------------------------------
  // The notification (streamChecker.mjs:270-304)

  const LiveColor: string := "#6441A4"
  const TwitchBase: string := "https://twitch.tv/"

  function ChannelUrl(login: string): string { TwitchBase + login }

  /** `member.displayName || member.user.username`. */
  function DisplayName(m: Member): string
  {
    if m.displayName != "" then m.displayName else m.username
  }

  /** The thumbnail template with `{width}` and then `{height}` replaced once each. */
  function ThumbnailUrl(template: string): string
  {
    Text.ReplaceFirst(Text.ReplaceFirst(template, "{width}", "400"), "{height}", "225")
  }

  /** The embed links to the member's channel and shows the member's avatar;
      it has the one link field exactly when there are no stream details, and
      an image only from a thumbnail Twitch gave. */
  function LiveEmbed(m: Member, login: string, info: Option<StreamRecord>): (r: Embed)
    ensures r.url == ChannelUrl(login) && r.authorIcon == m.avatarUrl && r.color == LiveColor
    ensures info.None? <==> |r.fields| == 1
    ensures r.image.Some? ==> info.Some? && info.value.thumbnailUrl != ""
  {
    var url := ChannelUrl(login);
    var base := Embed(LiveColor, DisplayName(m) + " is now live on Twitch! \U{2728}", m.avatarUrl, url, [], None);
    match info
    case None => base.(fields := [EmbedField("Go Watch!", url, false)])
    case Some(s) =>
      base.(fields := [EmbedField("Stream Title", s.title, false),
                       EmbedField("Game/Category", if s.gameName != "" then s.gameName else "Not specified", true)]
                      + (if s.viewerCount.Some? then [EmbedField("Viewers", Text.NatToDecimal(s.viewerCount.value), true)] else []),
            image := if s.thumbnailUrl != "" then Some(ThumbnailUrl(s.thumbnailUrl)) else None)
  }

  /** The same payload goes to each notification channel that exists, env channel first. */
  function Notifications(g: Guild, embed: Embed): seq<Action>
  {
    (if g.envChannel then [Notify(EnvChannel, embed)] else [])
    + (if g.additionalChannel then [Notify(AdditionalChannel, embed)] else [])
  }

  // ---------------------------------------------------------------------
  // Go-live and go-offline (streamChecker.mjs:249-354)

  /** The state the two per-member loops thread through. */
  datatype Progress = Progress(actions: seq<Action>, members: seq<Member>, live: seq<MemberId>)

  /** One newly live member: a member that cannot be fetched is dropped from the
      live set; otherwise the role is added unless held and the notification
      goes to every existing channel (an add failure is swallowed). */
  function GoLiveStep(p: Progress, e: GoLiveEntry, g: Guild): Progress
  {
    match FindMember(p.members, e.discordId)
    case None => p.(live := Remove(p.live, e.discordId))
    case Some(i) =>
      var m := p.members[i];
      var grant := if m.hasRole then [] else [AddRole(e.discordId)];
      p.(actions := p.actions + grant + Notifications(g, LiveEmbed(m, e.twitchUsername, e.streamInfo)),
         members := p.members[i := m.(hasRole := true)])
  }

  function GoLiveAll(p: Progress, es: seq<GoLiveEntry>, g: Guild): Progress
  {
    if es == [] then p else GoLiveStep(GoLiveAll(p, es[..|es| - 1], g), es[|es| - 1], g)
  }

  /** One member that went offline: the role is removed only if held; a member
      that cannot be fetched is deleted from the live set. */
  function GoOfflineStep(p: Progress, id: MemberId): Progress
  {
    match FindMember(p.members, id)
    case None => p.(live := Remove(p.live, id))
    case Some(i) =>
      if p.members[i].hasRole
      then p.(actions := p.actions + [RemoveRole(id)], members := p.members[i := p.members[i].(hasRole := false)])
      else p
  }

  function GoOfflineAll(p: Progress, ids: seq<MemberId>): Progress
  {
    if ids == [] then p else GoOfflineStep(GoOfflineAll(p, ids[..|ids| - 1]), ids[|ids| - 1])
  }

  method GoLiveLoop(p0: Progress, es: seq<GoLiveEntry>, g: Guild) returns (p: Progress)
    ensures p == GoLiveAll(p0, es, g)
  {
    p := p0;
    for i := 0 to |es|
      invariant p == GoLiveAll(p0, es[..i], g)
    {
      assert es[..i + 1][..i] == es[..i];
      var e := es[i];
      var found := FindMember(p.members, e.discordId);
      if found.None? {
        p := p.(live := Remove(p.live, e.discordId));
      } else {
        var m := p.members[found.value];
        var grant: seq<Action> := if m.hasRole then [] else [AddRole(e.discordId)];
        var embed := LiveEmbed(m, e.twitchUsername, e.streamInfo);
        var notes: seq<Action> := [];
        if g.envChannel {
          notes := notes + [Notify(EnvChannel, embed)];
        }
        if g.additionalChannel {
          notes := notes + [Notify(AdditionalChannel, embed)];
        }
        assert notes == Notifications(g, embed);
        p := Progress(p.actions + grant + notes, p.members[found.value := m.(hasRole := true)], p.live);
      }
    }
    assert es[..|es|] == es;
  }

  method GoOfflineLoop(p0: Progress, ids: seq<MemberId>) returns (p: Progress)
    ensures p == GoOfflineAll(p0, ids)
  {
    p := p0;
    for i := 0 to |ids|
      invariant p == GoOfflineAll(p0, ids[..i])
    {
      assert ids[..i + 1][..i] == ids[..i];
      var found := FindMember(p.members, ids[i]);
      if found.None? {
        p := p.(live := Remove(p.live, ids[i]));
      } else if p.members[found.value].hasRole {
        p := Progress(p.actions + [RemoveRole(ids[i])],
                      p.members[found.value := p.members[found.value].(hasRole := false)], p.live);
      }
    }
    assert ids[..|ids|] == ids;
  }

  // ---------------------------------------------------------------------
  // A whole pass

  datatype Outcome =
    | GuildMissing          // :21-24
    | RoleMissing           // :27-31
    | FetchFailed           // a database or Twitch call threw, caught at :357
    | NoLinks               // :52-74
    | NoTwitchUsers         // :87-108
    | StreamInfoUndeclared  // :213 throws (only in the as-written pass)
    | OfflineLinkMissing    // :239 throws
    | Completed

  /** What a pass did: the sweep's removals, then the go-live and go-offline
      actions, the live set it leaves and the members afterwards. */
  datatype PassResult = PassResult(outcome: Outcome, sweep: seq<Action>, transitions: seq<Action>,
                                   live: seq<MemberId>, members: seq<Member>)

  /** The sweep runs only if fetching all members succeeded. */
  function SweepIfFetched(g: Guild, rule: SweepRule): (seq<Action>, seq<Member>)
  {
    if g.rosterFetchOk then (SweepActions(g.members, rule), SweepMembers(g.members, rule)) else ([], g.members)
  }

  /** The "nobody can be live" branches: strip every holder, empty the live set. */
  function ResetAll(outcome: Outcome, g: Guild): PassResult
  {
    var (acts, ms) := SweepIfFetched(g, StripAll);
    PassResult(outcome, acts, [], [], ms)
  }

  /** A pass either ends before the diff, or reaches it with these values. */
  datatype Stage =
    | Finished(result: PassResult)
    | Diffed(links: seq<Link>, users: seq<TwitchUser>, streams: seq<StreamRecord>,
             sweep: seq<Action>, members: seq<Member>, next: seq<MemberId>)

  /** Everything up to and including the computation of `nextLiveDiscordIds`. */
  function Prepare(prev: seq<MemberId>, g: Guild, f: Fetched): Stage
  {
    if !g.found then Finished(PassResult(GuildMissing, [], [], prev, g.members))
    else if !g.liveRoleFound then Finished(PassResult(RoleMissing, [], [], prev, g.members))
    else if f.links.Err? then Finished(PassResult(FetchFailed, [], [], prev, g.members))
    else if f.links.value == [] then Finished(ResetAll(NoLinks, g))
    else if f.users.Err? then Finished(PassResult(FetchFailed, [], [], prev, g.members))
    else if f.users.value == [] then Finished(ResetAll(NoTwitchUsers, g))
    else if f.streams.Err? then Finished(PassResult(FetchFailed, [], [], prev, g.members))
    else
      var links, users, streams := f.links.value, f.users.value, f.streams.value;
      var liveIds := LiveUserIds(streams);
      var (acts, ms) := SweepIfFetched(g, StripUnlessLive(links, users, liveIds));
      Diffed(links, users, streams, acts, ms, NextLive(links, users, liveIds))
  }

  /** From the diff on: the offline list (which throws on a missing link), the
      replacement of the live set, then the go-live and go-offline loops. */
  function Converge(prev: seq<MemberId>, g: Guild, d: Stage): PassResult
    requires d.Diffed?
  {
    var offline := Minus(prev, d.next);
    if !AllLinked(offline, d.links) then PassResult(OfflineLinkMissing, d.sweep, [], prev, d.members)
    else
      var entries := GoLiveEntries(Minus(d.next, prev), d.links, d.users, d.streams);
      var p1 := GoLiveAll(Progress([], d.members, d.next), entries, g);
      var p2 := GoOfflineAll(p1, offline);
      PassResult(Completed, d.sweep, p2.actions, p2.live, p2.members)
  }

  /** One pass with the go-live list built as at streamChecker.mjs:217-234.
      A pass that throws or returns early keeps the live set and issues no
      go-live or go-offline action; one that finds nobody can be live
      empties the live set. */
  function Pass(prev: seq<MemberId>, g: Guild, f: Fetched): (r: PassResult)
    ensures r.outcome != StreamInfoUndeclared
    ensures r.outcome != Completed ==> r.transitions == []
    ensures r.outcome == GuildMissing || r.outcome == RoleMissing || r.outcome == FetchFailed ==>
              r.sweep == [] && r.live == prev && r.members == g.members
    ensures r.outcome == OfflineLinkMissing ==> r.live == prev
    ensures r.outcome == NoLinks || r.outcome == NoTwitchUsers ==> r.live == []
  {
    var stage := Prepare(prev, g, f);
    if stage.Finished? then stage.result else Converge(prev, g, stage)
  }

  /** One pass as written: the first loop over the newly live ids (:209-215)
      reads `streamInfo`, which is not in scope there, so the pass throws as
      soon as one id is newly live, after the sweep and before the live set is
      replaced. */
  function PassAsWritten(prev: seq<MemberId>, g: Guild, f: Fetched): (r: PassResult)
    ensures r.outcome != StreamInfoUndeclared ==> r == Pass(prev, g, f)
    ensures r.outcome == StreamInfoUndeclared ==>
              r.live == prev && r.transitions == [] && r.sweep == Pass(prev, g, f).sweep
  {
    var stage := Prepare(prev, g, f);
    if stage.Finished? then stage.result
    else if Minus(stage.next, prev) != [] then PassResult(StreamInfoUndeclared, stage.sweep, [], prev, stage.members)
    else Converge(prev, g, stage)
  }

  /** The scheduler's configuration; an empty string is an unset variable. */
  datatype Config = Config(twitchClientId: string, twitchClientSecret: string, guildId: string, intervalMinutes: nat)

  /** The module state of streamChecker.mjs: the live set and the interval handle. */
  class StreamEngine {
    var liveSet: seq<MemberId>
    var streamCheckInterval: Option<nat>

    ghost predicate Valid()
      reads this
    {
      NoDup(liveSet)
    }

    constructor ()
      ensures Valid() && liveSet == [] && streamCheckInterval == None
    {
      liveSet := [];
      streamCheckInterval := None;
    }

    /** `checkStreams`: one pass, after which the live set is the pass's. */
    method CheckStreams(g: Guild, f: Fetched) returns (r: PassResult)
      requires Valid()
      modifies this
      ensures r == Pass(old(liveSet), g, f)
      ensures liveSet == r.live && Valid()
      ensures streamCheckInterval == old(streamCheckInterval)
    {
      var prev := liveSet;
      if !g.found {
        return PassResult(GuildMissing, [], [], prev, g.members);
      }
      if !g.liveRoleFound {
        return PassResult(RoleMissing, [], [], prev, g.members);
      }
      if f.links.Err? {
        return PassResult(FetchFailed, [], [], prev, g.members);
      }
      var links := f.links.value;
      if links == [] {
        r := ResetRoles(g, NoLinks);
        liveSet := [];
        return;
      }
      if f.users.Err? {
        return PassResult(FetchFailed, [], [], prev, g.members);
      }
      var users := f.users.value;
      if users == [] {
        r := ResetRoles(g, NoTwitchUsers);
        liveSet := [];
        return;
      }
      if f.streams.Err? {
        return PassResult(FetchFailed, [], [], prev, g.members);
      }
      var streams := f.streams.value;
      var liveIds := LiveUserIds(streams);
      var sweep, members := [], g.members;
      if g.rosterFetchOk {
        sweep, members := Sweep(g.members, StripUnlessLive(links, users, liveIds));
      }
      var next := ComputeNextLive(links, users, liveIds);
      var entries := ComputeWentLive(next, prev, links, users, streams);
      var offline, linked := ComputeWentOffline(prev, next, links);
      if !linked {
        return PassResult(OfflineLinkMissing, sweep, [], prev, members);
      }
      liveSet := next;
      var p1 := GoLiveLoop(Progress([], members, next), entries, g);
      var p2 := GoOfflineLoop(p1, offline);
      liveSet := p2.live;
      r := PassResult(Completed, sweep, p2.actions, p2.live, p2.members);
      PassKeepsNoDup(prev, g, f);
    }

    /** `startStreamLoop`: refuses to start without Twitch credentials or a guild id. */
    method StartStreamLoop(config: Config, timer: nat) returns (started: bool, periodMillis: nat)
      modifies this
      ensures started <==> config.twitchClientId != "" && config.twitchClientSecret != "" && config.guildId != ""
      ensures started ==> streamCheckInterval == Some(timer)
      ensures !started ==> streamCheckInterval == old(streamCheckInterval)
      ensures periodMillis == config.intervalMinutes * 60 * 1000
      ensures liveSet == old(liveSet)
    {
      periodMillis := config.intervalMinutes * 60 * 1000;
      if config.twitchClientId == "" || config.twitchClientSecret == "" {
        return false, periodMillis;
      }
      if config.guildId == "" {
        return false, periodMillis;
      }
      streamCheckInterval := Some(timer);
      started := true;
    }

    /** `stopStreamLoop`: clears the interval if there is one; idempotent. */
    method StopStreamLoop() returns (cleared: Option<nat>)
      modifies this
      ensures cleared == old(streamCheckInterval)
      ensures streamCheckInterval == None
      ensures liveSet == old(liveSet)
    {
      cleared := streamCheckInterval;
      streamCheckInterval := None;
    }
  }

  /** The empty-reset branches: sweep every holder (when the members could be fetched). */
  method ResetRoles(g: Guild, outcome: Outcome) returns (r: PassResult)
    ensures r == ResetAll(outcome, g)
  {
    var sweep, members := [], g.members;
    if g.rosterFetchOk {
      sweep, members := Sweep(g.members, StripAll);
    }
    r := PassResult(outcome, sweep, [], [], members);
  }

  // ---------------------------------------------------------------------
  // Facts the engine needs

  lemma {:induction false} NextLiveNoDup(links: seq<Link>, users: seq<TwitchUser>, liveIds: set<UserId>)
    ensures NoDup(NextLive(links, users, liveIds))
  {
    if links != [] {
      NextLiveNoDup(links[..|links| - 1], users, liveIds);
    }
  }

  lemma {:induction false} GoLiveKeepsNoDup(p: Progress, es: seq<GoLiveEntry>, g: Guild)
    requires NoDup(p.live)
    ensures NoDup(GoLiveAll(p, es, g).live)
  {
    if es != [] {
      GoLiveKeepsNoDup(p, es[..|es| - 1], g);
    }
  }

  lemma {:induction false} GoOfflineKeepsNoDup(p: Progress, ids: seq<MemberId>)
    requires NoDup(p.live)
    ensures NoDup(GoOfflineAll(p, ids).live)
  {
    if ids != [] {
      GoOfflineKeepsNoDup(p, ids[..|ids| - 1]);
    }
  }

  /** A pass leaves a live set without repeats, as a JavaScript Set is. */
  lemma PassKeepsNoDup(prev: seq<MemberId>, g: Guild, f: Fetched)
    requires NoDup(prev)
    ensures NoDup(Pass(prev, g, f).live)
  {
    var stage := Prepare(prev, g, f);
    if stage.Diffed? && AllLinked(Minus(prev, stage.next), stage.links) {
      var links, users, streams := f.links.value, f.users.value, f.streams.value;
      NextLiveNoDup(links, users, LiveUserIds(streams));
      var entries := GoLiveEntries(Minus(stage.next, prev), links, users, streams);
      var p0 := Progress([], stage.members, stage.next);
      GoLiveKeepsNoDup(p0, entries, g);
      GoOfflineKeepsNoDup(GoLiveAll(p0, entries, g), Minus(prev, stage.next));
    }
  }
}
