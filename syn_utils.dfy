/** The command handlers' validation, their writes to the database, the
    linked-streamers table, the time-zone parser and the splitting of long
    answers. Replies are modelled by kind; the replies that carry a date, a
    time zone or a login carry it as text. */
module SynUtils {
  import opened Wrappers
  import opened Sequences
  import Text
  import opened Schemas

  // ---------------------------------------------------------------------
  // Month names (synUtils.mjs:32-45)

  const MonthNames: seq<string> := ["Jan", "Feb", "Mar", "Apr", "May", "Jun", "Jul", "Aug", "Sep", "Oct", "Nov", "Dec"]

  /** `monthMap[month]`: undefined outside 1..12. */
  function MonthName(month: int): (r: Option<string>)
    ensures r.Some? <==> 1 <= month <= 12
    ensures r.Some? ==> |r.value| == 3
  {
    if 1 <= month <= 12 then Some(MonthNames[month - 1]) else None
  }

  /** Different months have different names. */
  lemma MonthNamesDistinct(m1: int, m2: int)
    requires 1 <= m1 <= 12 && 1 <= m2 <= 12 && m1 != m2
    ensures MonthName(m1) != MonthName(m2)
  {
    assert NoDup(MonthNames);
  }

  // ---------------------------------------------------------------------
  // UTC offsets: /^UTC([+-])(\d{1,2})(?::(00|15|30|45))?$/ (synUtils.mjs:47-53, 347-358)

  /** The three capture groups of the offset pattern. */
  datatype OffsetMatch = OffsetMatch(sign: char, hours: string, minutes: Option<string>)

  predicate IsMinuteText(m: string)
  {
    m == "00" || m == "15" || m == "30" || m == "45"
  }

  /** The captures of some string the pattern matches. */
  predicate WellFormedMatch(m: OffsetMatch)
  {
    && (m.sign == '+' || m.sign == '-')
    && 1 <= |m.hours| <= 2 && Text.AllDigits(m.hours)
    && (m.minutes.Some? ==> IsMinuteText(m.minutes.value))
  }

  /** What follows "UTC" and the sign: the hours, then ":" and the minutes if present. */
  function RenderTail(m: OffsetMatch): string
  {
    m.hours + if m.minutes.Some? then [':'] + m.minutes.value else []
  }

  /** The only string with these captures. */
  function RenderOffset(m: OffsetMatch): string
  {
    "UTC" + [m.sign] + RenderTail(m)
  }

  /** The pattern after the sign. */
  function MatchTail(sign: char, rest: string): (r: Option<OffsetMatch>)
    ensures r.Some? ==> r.value.sign == sign && RenderTail(r.value) == rest
    ensures r.Some? ==> 1 <= |r.value.hours| <= 2 && Text.AllDigits(r.value.hours)
    ensures r.Some? && r.value.minutes.Some? ==> IsMinuteText(r.value.minutes.value)
  {
    match IndexOf(rest, ':')
    case Some(i) =>
      var hours, mins := rest[..i], rest[i + 1..];
      assert rest == hours + [':'] + mins;
      if 1 <= |hours| <= 2 && Text.AllDigits(hours) && IsMinuteText(mins)
      then Some(OffsetMatch(sign, hours, Some(mins)))
      else None
    case None =>
      if 1 <= |rest| <= 2 && Text.AllDigits(rest) then Some(OffsetMatch(sign, rest, None)) else None
  }

  predicate HasUtcPrefix(s: string)
  {
    |s| >= 4 && s[0] == 'U' && s[1] == 'T' && s[2] == 'C'
  }

  /** `input.match(pattern)`. */
  function MatchOffset(s: string): (r: Option<OffsetMatch>)
    ensures r.Some? ==> WellFormedMatch(r.value) && RenderOffset(r.value) == s
  {
    if !HasUtcPrefix(s) || !(s[3] == '+' || s[3] == '-') then None
    else
      assert s == "UTC" + [s[3]] + s[4..];
      MatchTail(s[3], s[4..])
  }

  /** The pattern after the sign matches exactly the rendered hours and minutes. */
  lemma MatchTailRendered(m: OffsetMatch)
    requires WellFormedMatch(m)
    ensures MatchTail(m.sign, RenderTail(m)) == Some(m)
  {
    assert ':' !in m.hours by {
      assert forall i :: 0 <= i < |m.hours| ==> Text.IsDigit(m.hours[i]);
    }
    if m.minutes.Some? {
      var rest := RenderTail(m);
      var n := |m.hours|;
      assert rest[..n] == m.hours && rest[n] == ':';
      IndexOfAt(rest, ':', n);
      assert rest[n + 1..] == m.minutes.value;
    } else {
      assert RenderTail(m) == m.hours;
    }
  }

  /** The pattern matches exactly the rendered captures. */
  lemma MatchRendered(m: OffsetMatch)
    requires WellFormedMatch(m)
    ensures MatchOffset(RenderOffset(m)) == Some(m)
  {
    var s := RenderOffset(m);
    assert s[4..] == RenderTail(m);
    MatchTailRendered(m);
  }

  function HourValue(m: OffsetMatch): nat
    requires WellFormedMatch(m)
  {
    Text.DigitsValue(m.hours)
  }

  /** `isValidUTCOffset`: the pattern matches and the hour is at most 14. */
  predicate IsValidUtcOffset(s: string)
  {
    MatchOffset(s).Some? && HourValue(MatchOffset(s).value) <= 14
  }

  /** `parseInt` of a minutes capture, in quarter hours. */
  function Quarters(t: string): (q: nat)
    requires IsMinuteText(t)
    ensures q <= 3
  {
    if t == "00" then 0 else if t == "15" then 1 else if t == "30" then 2 else 3
  }

  /** `sign * (hours * 60 + minutes)`, minutes defaulting to 0. */
  function OffsetMinutes(m: OffsetMatch): int
    requires WellFormedMatch(m)
  {
    var minutes := if m.minutes.Some? then 15 * Quarters(m.minutes.value) else 0;
    (if m.sign == '+' then 1 else -1) * (HourValue(m) * 60 + minutes)
  }

  /** An accepted offset is a whole number of quarter hours, at most 14:45 either way. */
  lemma OffsetBounded(s: string)
    requires IsValidUtcOffset(s)
    ensures -885 <= OffsetMinutes(MatchOffset(s).value) <= 885
    ensures OffsetMinutes(MatchOffset(s).value) % 15 == 0
  {
    var m := MatchOffset(s).value;
    var h := HourValue(m);
    var k := if m.minutes.Some? then Quarters(m.minutes.value) else 0;
    var c := if m.sign == '+' then 4 * h + k else -(4 * h + k);
    assert OffsetMinutes(m) == 15 * c;
    assert -59 <= c <= 59;
    QuarterHours(c);
  }

  lemma QuarterHours(c: int)
    ensures (15 * c) % 15 == 0
  {
  }

  /** Where `getTime` reads the clock: a named zone or a fixed offset in minutes. */
  datatype Zone = NamedZone(name: string) | FixedOffset(minutes: int)

  /** `parseTimezone` (synUtils.mjs:340-363); `ianaZones` stands for `Intl.supportedValuesOf('timeZone')`. */
  function ParseTimezone(tz: string, ianaZones: set<string>): Result<Zone, string>
  {
    if tz in ianaZones then Ok(NamedZone(tz))
    else if |tz| >= 3 && tz[..3] == "UTC" then
      if IsValidUtcOffset(tz) then Ok(FixedOffset(OffsetMinutes(MatchOffset(tz).value)))
      else Err("Invalid UTC offset format: " + tz)
    else Err("Unrecognized timezone format: " + tz)
  }

  /** `getTime` can read every time zone `setTimezone` accepts, and only those. */
  lemma TimezoneAcceptedIffParsed(tz: string, ianaZones: set<string>)
    ensures ParseTimezone(tz, ianaZones).Ok? <==> tz in ianaZones || IsValidUtcOffset(tz)
  {
    if IsValidUtcOffset(tz) {
      assert tz[..3] == RenderOffset(MatchOffset(tz).value)[..3];
    }
  }

  // ---------------------------------------------------------------------
  // Who may write, and what a command was given

  const ModRoleName: string := "\U{1F4A5} Mod"

  /** The author is a cached guild member holding a role named "💥 Mod"
      (`None` when the author's member cannot be found). */
  predicate IsMod(authorRoles: Option<seq<string>>)
  {
    authorRoles.Some? && ModRoleName in authorRoles.value
  }

  datatype User = User(id: DiscordId, username: string)

  /** A prefix message gives the tokens after the command name and the
      mentioned users; a slash command gives its typed options. */
  datatype Invocation<O> = Prefix(args: seq<string>, mentions: seq<User>) | Slash(user: Option<User>, options: O)

  /** The JavaScript values a date option can hold. */
  datatype JsValue = JsNumber(n: int) | JsString(s: string) | JsNull

  datatype DateOptions = DateOptions(day: JsValue, month: JsValue)

  datatype Reply =
    | NotPermitted
    | Usage
    | UserNotFound
    | InvalidDate
    | InvalidTimezone(timezone: string)
    | MissingUsername
    | InvalidUsername
    | AlreadyLinked(username: string)
    | Updated(text: string)
    | Created(text: string)
    | Failed

  // ---------------------------------------------------------------------
  // setBirthday (synUtils.mjs:138-202)

  /** `typeof day === 'number'`, the same for month, and both in range. */
  predicate ValidDate(day: JsValue, month: JsValue)
  {
    day.JsNumber? && month.JsNumber? && 1 <= day.n <= 31 && 1 <= month.n <= 12
  }

  datatype DateRequest = DateRequest(user: User, day: nat, month: nat)

  /** The checks before the database, in the order the handler makes them. */
  function BirthdayRequest(authorRoles: Option<seq<string>>, input: Invocation<DateOptions>): (r: Result<DateRequest, Reply>)
    ensures !IsMod(authorRoles) ==> r == Err(NotPermitted)
    ensures r.Ok? ==> 1 <= r.value.day <= 31 && 1 <= r.value.month <= 12
  {
    if !IsMod(authorRoles) then Err(NotPermitted)
    else if input.Prefix? && (|input.args| < 3 || input.mentions == []) then Err(Usage)
    else
      var user := if input.Prefix? then Some(input.mentions[0]) else input.user;
      var day := if input.Prefix? then JsString(input.args[1]) else input.options.day;
      var month := if input.Prefix? then JsString(input.args[2]) else input.options.month;
      if user.None? then Err(UserNotFound)
      else if !ValidDate(day, month) then Err(InvalidDate)
      else Ok(DateRequest(user.value, day.n, month.n))
  }

  /** From a prefix message the day and month are strings, so no birthday is ever stored. */
  lemma PrefixBirthdayRejected(authorRoles: Option<seq<string>>, args: seq<string>, mentions: seq<User>)
    ensures BirthdayRequest(authorRoles, Prefix(args, mentions)).Err?
  {
  }

  /** A mod's slash command with a user and an in-range date is accepted as given. */
  lemma SlashBirthdayAccepted(authorRoles: Option<seq<string>>, user: User, day: int, month: int)
    requires IsMod(authorRoles) && 1 <= day <= 31 && 1 <= month <= 12
    ensures BirthdayRequest(authorRoles, Slash(Some(user), DateOptions(JsNumber(day), JsNumber(month))))
            == Ok(DateRequest(user, day, month))
  {
  }

  /** Sets day and month of the member's record, or appends a new record with no wish yet. */
  function UpsertBirthday(bs: seq<BirthdayRecord>, id: DiscordId, day: string, month: string): seq<BirthdayRecord>
  {
    match IndexOf(BirthdayIds(bs), id)
    case Some(k) => bs[k := bs[k].(day := day, month := month)]
    case None => bs + [BirthdayRecord(id, day, month, None)]
  }

  /** The upsert behaves as a map update of the member's day and month. */
  lemma UpsertBirthdayStores(bs: seq<BirthdayRecord>, id: DiscordId, day: string, month: string)
    requires NoDup(BirthdayIds(bs))
    ensures var r := UpsertBirthday(bs, id, day, month);
      && NoDup(BirthdayIds(r))
      && FindBirthday(r, id) == Some(BirthdayRecord(id, day, month,
           if FindBirthday(bs, id).Some? then FindBirthday(bs, id).value.lastWished else None))
      && forall other :: other != id ==> FindBirthday(r, other) == FindBirthday(bs, other)
  {
    var r := UpsertBirthday(bs, id, day, month);
    match IndexOf(BirthdayIds(bs), id)
    case Some(k) =>
      assert BirthdayIds(r) == BirthdayIds(bs);
    case None =>
      assert BirthdayIds(r) == BirthdayIds(bs) + [id];
      forall other ensures IndexOf(BirthdayIds(r), other) ==
        if other in BirthdayIds(bs) then IndexOf(BirthdayIds(bs), other) else if other == id then Some(|bs|) else None
      {
        IndexOfAppend(BirthdayIds(bs), id, other);
      }
  }

  /** The text after "to" in the reply: day and month name. */
  function DateLabel(day: nat, month: nat): string
    requires 1 <= month <= 12
  {
    Text.NatToDecimal(day) + " " + MonthName(month).value
  }

  /** `setBirthday`: checks, then the upsert, with day and month stored as decimal strings. */
  method SetBirthday(db: Database, authorRoles: Option<seq<string>>, input: Invocation<DateOptions>, dbUp: bool)
    returns (reply: Reply)
    requires db.Valid()
    modifies db
    ensures db.Valid()
    ensures db.twitchLinks == old(db.twitchLinks) && db.timezones == old(db.timezones)
    ensures var req := BirthdayRequest(authorRoles, input);
      && (req.Err? ==> reply == req.error && db.birthdays == old(db.birthdays))
      && (req.Ok? && !dbUp ==> reply == Failed && db.birthdays == old(db.birthdays))
      && (req.Ok? && dbUp ==>
            var id, day, month := req.value.user.id, req.value.day, req.value.month;
            && db.birthdays == UpsertBirthday(old(db.birthdays), id, Text.NatToDecimal(day), Text.NatToDecimal(month))
            && reply == if id in BirthdayIds(old(db.birthdays)) then Updated(DateLabel(day, month)) else Created(DateLabel(day, month)))
  {
    var req := BirthdayRequest(authorRoles, input);
    if req.Err? {
      return req.error;
    }
    if !dbUp {
      return Failed;
    }
    var id, day, month := req.value.user.id, req.value.day, req.value.month;
    UpsertBirthdayStores(db.birthdays, id, Text.NatToDecimal(day), Text.NatToDecimal(month));
    var existing := IndexOf(BirthdayIds(db.birthdays), id);
    if existing.Some? {
      var k := existing.value;
      db.birthdays := db.birthdays[k := db.birthdays[k].(day := Text.NatToDecimal(day), month := Text.NatToDecimal(month))];
      reply := Updated(DateLabel(day, month));
    } else {
      db.birthdays := db.birthdays + [BirthdayRecord(id, Text.NatToDecimal(day), Text.NatToDecimal(month), None)];
      reply := Created(DateLabel(day, month));
    }
  }

  // ---------------------------------------------------------------------
  // setTimezone (synUtils.mjs:242-305)

  datatype ZoneRequest = ZoneRequest(user: User, timezone: string)

  function TimezoneRequest(authorRoles: Option<seq<string>>, input: Invocation<string>, ianaZones: set<string>)
    : (r: Result<ZoneRequest, Reply>)
    ensures !IsMod(authorRoles) ==> r == Err(NotPermitted)
    ensures r.Ok? ==> ParseTimezone(r.value.timezone, ianaZones).Ok?
  {
    if !IsMod(authorRoles) then Err(NotPermitted)
    else if input.Prefix? && (|input.args| < 2 || input.mentions == []) then Err(Usage)
    else
      var user := if input.Prefix? then Some(input.mentions[0]) else input.user;
      var tz := if input.Prefix? then input.args[1] else input.options;
      if user.None? then Err(UserNotFound)
      else if tz !in ianaZones && !IsValidUtcOffset(tz) then Err(InvalidTimezone(tz))
      else
        TimezoneAcceptedIffParsed(tz, ianaZones);
        Ok(ZoneRequest(user.value, tz))
  }

  /** A mod's request naming a user is accepted exactly when the zone is a
      known IANA name or a valid UTC offset, from a slash command and from
      "!settimezone @user zone" alike. */
  lemma TimezoneAccepted(authorRoles: Option<seq<string>>, user: User, mention: string, tz: string, ianaZones: set<string>)
    requires IsMod(authorRoles)
    ensures TimezoneRequest(authorRoles, Slash(Some(user), tz), ianaZones).Ok?
            <==> ParseTimezone(tz, ianaZones).Ok?
    ensures TimezoneRequest(authorRoles, Prefix([mention, tz], [user]), ianaZones)
            == TimezoneRequest(authorRoles, Slash(Some(user), tz), ianaZones)
  {
    TimezoneAcceptedIffParsed(tz, ianaZones);
  }

  function UpsertTimezone(ts: seq<TimezoneRecord>, id: DiscordId, tz: string): seq<TimezoneRecord>
  {
    match IndexOf(TimezoneIds(ts), id)
    case Some(k) => ts[k := ts[k].(timezone := tz)]
    case None => ts + [TimezoneRecord(id, tz)]
  }

  /** The upsert behaves as a map update of the member's time zone. */
  lemma UpsertTimezoneStores(ts: seq<TimezoneRecord>, id: DiscordId, tz: string)
    requires NoDup(TimezoneIds(ts))
    ensures var r := UpsertTimezone(ts, id, tz);
      && NoDup(TimezoneIds(r))
      && FindTimezone(r, id) == Some(TimezoneRecord(id, tz))
      && forall other :: other != id ==> FindTimezone(r, other) == FindTimezone(ts, other)
  {
    var r := UpsertTimezone(ts, id, tz);
    match IndexOf(TimezoneIds(ts), id)
    case Some(k) =>
      assert TimezoneIds(r) == TimezoneIds(ts);
    case None =>
      assert TimezoneIds(r) == TimezoneIds(ts) + [id];
      forall other ensures IndexOf(TimezoneIds(r), other) ==
        if other in TimezoneIds(ts) then IndexOf(TimezoneIds(ts), other) else if other == id then Some(|ts|) else None
      {
        IndexOfAppend(TimezoneIds(ts), id, other);
      }
  }

  /** `setTimezone`: checks, then the upsert. */
  method SetTimezone(db: Database, authorRoles: Option<seq<string>>, input: Invocation<string>, ianaZones: set<string>, dbUp: bool)
    returns (reply: Reply)
    requires db.Valid()
    modifies db
    ensures db.Valid()
    ensures db.twitchLinks == old(db.twitchLinks) && db.birthdays == old(db.birthdays)
    ensures var req := TimezoneRequest(authorRoles, input, ianaZones);
      && (req.Err? ==> reply == req.error && db.timezones == old(db.timezones))
      && (req.Ok? && !dbUp ==> reply == Failed && db.timezones == old(db.timezones))
      && (req.Ok? && dbUp ==>
            var id, tz := req.value.user.id, req.value.timezone;
            && db.timezones == UpsertTimezone(old(db.timezones), id, tz)
            && reply == if id in TimezoneIds(old(db.timezones)) then Updated(tz) else Created(tz))
  {
    var req := TimezoneRequest(authorRoles, input, ianaZones);
    if req.Err? {
      return req.error;
    }
    if !dbUp {
      return Failed;
    }
    var id, tz := req.value.user.id, req.value.timezone;
    UpsertTimezoneStores(db.timezones, id, tz);
    var existing := IndexOf(TimezoneIds(db.timezones), id);
    if existing.Some? {
      db.timezones := db.timezones[existing.value := db.timezones[existing.value].(timezone := tz)];
      reply := Updated(tz);
    } else {
      db.timezones := db.timezones + [TimezoneRecord(id, tz)];
      reply := Created(tz);
    }
  }

  // ---------------------------------------------------------------------
  // setTwitch (synUtils.mjs:377-455)

  predicate IsUsernameChar(c: char)
  {
    'a' <= c <= 'z' || 'A' <= c <= 'Z' || '0' <= c <= '9' || c == '_'
  }

  /** `/^[a-zA-Z0-9_]+$/.test(name)`. */
  predicate ValidTwitchUsername(name: string)
  {
    name != [] && forall i :: 0 <= i < |name| ==> IsUsernameChar(name[i])
  }

  /** An accepted login is a single prefix-command token: trimming and
      splitting on spaces give it back unchanged. */
  lemma UsernameIsOneToken(name: string)
    requires ValidTwitchUsername(name)
    ensures Text.Trim(name) == name
    ensures Text.SplitSpaces(name) == [name]
  {
    assert !Text.IsJsSpace(name[0]) && !Text.IsJsSpace(name[|name| - 1]);
    assert ' ' !in name by {
      forall i | 0 <= i < |name| ensures name[i] != ' ' {
        assert IsUsernameChar(name[i]);
      }
    }
  }

  datatype LinkRequest = LinkRequest(user: User, username: string)

  function TwitchRequest(authorRoles: Option<seq<string>>, input: Invocation<Option<string>>): (r: Result<LinkRequest, Reply>)
    ensures !IsMod(authorRoles) ==> r == Err(NotPermitted)
    ensures r.Ok? ==> ValidTwitchUsername(r.value.username)
  {
    if !IsMod(authorRoles) then Err(NotPermitted)
    else if input.Prefix? && (|input.args| < 2 || input.mentions == []) then Err(Usage)
    else
      var user := if input.Prefix? then Some(input.mentions[0]) else input.user;
      // args[1 + mentions.size - 1], undefined past the end
      var name := if input.Prefix? then (if |input.mentions| < |input.args| then Some(input.args[|input.mentions|]) else None)
                  else input.options;
      if user.None? then Err(UserNotFound)
      else if name.None? || name.value == "" then Err(MissingUsername)
      else if !ValidTwitchUsername(name.value) then Err(InvalidUsername)
      else Ok(LinkRequest(user.value, name.value))
  }

  /** A mod's request naming a user is accepted exactly when the login is
      non-empty and made of letters, digits and underscores, from a slash
      command and from "!settwitch @user login" alike. */
  lemma TwitchUsernameAccepted(authorRoles: Option<seq<string>>, user: User, mention: string, name: string)
    requires IsMod(authorRoles)
    ensures TwitchRequest(authorRoles, Slash(Some(user), Some(name))).Ok? <==> ValidTwitchUsername(name)
    ensures TwitchRequest(authorRoles, Prefix([mention, name], [user]))
            == TwitchRequest(authorRoles, Slash(Some(user), Some(name)))
  {
  }

  /** What saving a link does: nothing when the stored login equals the new
      one ignoring case, a failed save when another link already has exactly
      this login (the unique index), otherwise a rename or a new link. */
  datatype LinkChange = KeepLink | UsernameTaken | RenameLink(k: nat) | AddLink

  function LinkDecision(links: seq<Link>, id: DiscordId, username: string): (c: LinkChange)
    ensures c.RenameLink? ==> c.k < |links|
  {
    match IndexOf(LinkIds(links), id)
    case Some(k) =>
      if Text.LowerStr(links[k].twitchUsername) == Text.LowerStr(username) then KeepLink
      else if username in LinkUsernames(links) then UsernameTaken
      else RenameLink(k)
    case None =>
      if username in LinkUsernames(links) then UsernameTaken else AddLink
  }

  function ApplyLink(links: seq<Link>, id: DiscordId, username: string): seq<Link>
  {
    match LinkDecision(links, id, username)
    case KeepLink => links
    case UsernameTaken => links
    case RenameLink(k) => links[k := Link(id, username)]
    case AddLink => links + [Link(id, username)]
  }

  /** Saving a link keeps both unique indexes; afterwards the member's link
      has the new login, or one equal to it ignoring case; a refused save
      changes nothing; other members' links are unchanged. */
  lemma ApplyLinkStores(links: seq<Link>, id: DiscordId, username: string)
    requires NoDup(LinkIds(links)) && NoDup(LinkUsernames(links))
    ensures var r := ApplyLink(links, id, username);
      var c := LinkDecision(links, id, username);
      && NoDup(LinkIds(r)) && NoDup(LinkUsernames(r))
      && (c.RenameLink? || c.AddLink? ==> FindLink(r, id) == Some(Link(id, username)))
      && (c.KeepLink? ==>
            FindLink(r, id).Some? && Text.LowerStr(FindLink(r, id).value.twitchUsername) == Text.LowerStr(username))
      && (c.UsernameTaken? ==> r == links)
      && forall other :: other != id ==> FindLink(r, other) == FindLink(links, other)
  {
    var r := ApplyLink(links, id, username);
    match LinkDecision(links, id, username)
    case KeepLink =>
    case UsernameTaken =>
    case RenameLink(k) =>
      assert LinkIds(r) == LinkIds(links);
      assert LinkUsernames(r) == LinkUsernames(links)[k := username];
      assert IndexOf(LinkIds(links), id) == Some(k);
    case AddLink =>
      assert LinkIds(r) == LinkIds(links) + [id];
      assert LinkUsernames(r) == LinkUsernames(links) + [username];
      forall other ensures IndexOf(LinkIds(r), other) ==
        if other in LinkIds(links) then IndexOf(LinkIds(links), other) else if other == id then Some(|links|) else None
      {
        IndexOfAppend(LinkIds(links), id, other);
      }
  }

  /** `setTwitch`: checks, then the upsert of the link. */
  method SetTwitch(db: Database, authorRoles: Option<seq<string>>, input: Invocation<Option<string>>, dbUp: bool)
    returns (reply: Reply)
    requires db.Valid()
    modifies db
    ensures db.Valid()
    ensures db.birthdays == old(db.birthdays) && db.timezones == old(db.timezones)
    ensures var req := TwitchRequest(authorRoles, input);
      && (req.Err? ==> reply == req.error && db.twitchLinks == old(db.twitchLinks))
      && (req.Ok? && !dbUp ==> reply == Failed && db.twitchLinks == old(db.twitchLinks))
      && (req.Ok? && dbUp ==>
            var id, name := req.value.user.id, req.value.username;
            && db.twitchLinks == ApplyLink(old(db.twitchLinks), id, name)
            && reply == match LinkDecision(old(db.twitchLinks), id, name)
                        case KeepLink => AlreadyLinked(name)
                        case UsernameTaken => Failed
                        case RenameLink(_) => Updated(name)
                        case AddLink => Created(name))
  {
    var req := TwitchRequest(authorRoles, input);
    if req.Err? {
      return req.error;
    }
    if !dbUp {
      return Failed;
    }
    var id, name := req.value.user.id, req.value.username;
    ApplyLinkStores(db.twitchLinks, id, name);
    var existing := IndexOf(LinkIds(db.twitchLinks), id);
    if existing.Some? {
      var k := existing.value;
      if Text.LowerStr(db.twitchLinks[k].twitchUsername) == Text.LowerStr(name) {
        return AlreadyLinked(name);
      }
      if name in LinkUsernames(db.twitchLinks) {
        return Failed;
      }
      db.twitchLinks := db.twitchLinks[k := Link(id, name)];
      reply := Updated(name);
    } else {
      if name in LinkUsernames(db.twitchLinks) {
        return Failed;
      }
      db.twitchLinks := db.twitchLinks + [Link(id, name)];
      reply := Created(name);
    }
  }

  // ---------------------------------------------------------------------
  // getLinkedStreamers (synUtils.mjs:457-523)

  /** What a successful member fetch gives the table. */
  datatype MemberNames = MemberNames(displayName: string, username: string)

  datatype StreamerRow = StreamerRow(entry: string, twitchUsername: string)

  const HeaderDiscord: string := "Discord User (ID)"
  const HeaderTwitch: string := "Twitch Username"

  /** `"<name> (<id>)"`, or `"Unknown User (<id>)"` when the member cannot be fetched. */
  function RowFor(l: Link, fetched: Option<MemberNames>): StreamerRow
  {
    var name := match fetched
      case Some(n) => if n.displayName != "" then n.displayName else n.username
      case None => "Unknown User";
    StreamerRow(name + " (" + l.discordId + ")", l.twitchUsername)
  }

  function Rows(links: seq<Link>, fetch: DiscordId -> Option<MemberNames>): (r: seq<StreamerRow>)
    ensures |r| == |links| && forall k :: 0 <= k < |links| ==> r[k] == RowFor(links[k], fetch(links[k].discordId))
  {
    seq(|links|, k requires 0 <= k < |links| => RowFor(links[k], fetch(links[k].discordId)))
  }

  /** The first column's width: the header's length or the longest entry. */
  function Width(rows: seq<StreamerRow>): (w: nat)
    ensures w >= |HeaderDiscord|
    ensures forall k :: 0 <= k < |rows| ==> |rows[k].entry| <= w
    ensures w == |HeaderDiscord| || exists k :: 0 <= k < |rows| && |rows[k].entry| == w
  {
    if rows == [] then |HeaderDiscord|
    else
      var init := rows[..|rows| - 1];
      var w0 := Width(init);
      var e := rows[|rows| - 1].entry;
      assert forall k :: 0 <= k < |init| ==> rows[k] == init[k];
      if |e| > w0 then |e| else w0
  }

  function RowLine(row: StreamerRow, w: nat): string
  {
    Text.PadEnd(row.entry, w) + " | " + row.twitchUsername + "\n"
  }

  function RowLines(rows: seq<StreamerRow>, w: nat): string
  {
    if rows == [] then [] else RowLines(rows[..|rows| - 1], w) + RowLine(rows[|rows| - 1], w)
  }

  function HeaderLine(w: nat): string
  {
    Text.PadEnd(HeaderDiscord, w) + " | " + HeaderTwitch + "\n"
  }

  function SeparatorLine(w: nat): string
  {
    Text.Repeat('-', w) + "---" + Text.Repeat('-', |HeaderTwitch|) + "\n"
  }

  const TableOpening: string := "**Linked Streamers:**\n```"
  const TableClosing: string := "```"

  function TableText(rows: seq<StreamerRow>): string
  {
    var w := Width(rows);
    TableOpening + HeaderLine(w) + SeparatorLine(w) + RowLines(rows, w) + TableClosing
  }

  /** Every entry is padded to the same width, so the " | " separators line
      up with the header's, and the dashed line is exactly as long as the header. */
  lemma TableAligned(rows: seq<StreamerRow>)
    ensures |HeaderLine(Width(rows))| == |SeparatorLine(Width(rows))| == Width(rows) + 19
    ensures HeaderLine(Width(rows))[Width(rows)..Width(rows) + 3] == " | "
    ensures forall k :: 0 <= k < |rows| ==>
              |Text.PadEnd(rows[k].entry, Width(rows))| == Width(rows)
              && RowLine(rows[k], Width(rows))[Width(rows)..Width(rows) + 3] == " | "
  {
    var w := Width(rows);
    HeaderAligned(w);
    forall k | 0 <= k < |rows|
      ensures |Text.PadEnd(rows[k].entry, w)| == w && RowLine(rows[k], w)[w..w + 3] == " | "
    {
      LineAligned(rows[k], w);
    }
  }

  lemma HeaderAligned(w: nat)
    requires w >= |HeaderDiscord|
    ensures |HeaderLine(w)| == |SeparatorLine(w)| == w + 19
    ensures HeaderLine(w)[w..w + 3] == " | "
  {
    assert |HeaderDiscord| == 17 && |HeaderTwitch| == 15;
    var pad := Text.PadEnd(HeaderDiscord, w);
    assert HeaderLine(w) == pad + (" | " + HeaderTwitch + "\n");
  }

  lemma LineAligned(row: StreamerRow, w: nat)
    requires |row.entry| <= w
    ensures |Text.PadEnd(row.entry, w)| == w && RowLine(row, w)[w..w + 3] == " | "
  {
    var pad := Text.PadEnd(row.entry, w);
    assert RowLine(row, w) == pad + (" | " + row.twitchUsername + "\n");
  }

  datatype Listing = GuildNotFound | ListingFailed | NoLinksStored | Table(text: string)

  /** The first loop of `getLinkedStreamers`: a row per link and the widest entry. */
  method BuildRows(links: seq<Link>, fetch: DiscordId -> Option<MemberNames>)
    returns (data: seq<StreamerRow>, width: nat)
    ensures data == Rows(links, fetch)
    ensures width == Width(data)
  {
    width := |HeaderDiscord|;
    data := [];
    for i := 0 to |links|
      invariant data == Rows(links[..i], fetch)
      invariant width == Width(data)
    {
      var row := RowFor(links[i], fetch(links[i].discordId));
      assert data + [row] == Rows(links[..i + 1], fetch);
      assert (data + [row])[..|data|] == data;
      data := data + [row];
      if |row.entry| > width {
        width := |row.entry|;
      }
    }
    assert links[..|links|] == links;
  }

  /** The second loop of `getLinkedStreamers`: the padded rows, one line each. */
  method JoinRows(data: seq<StreamerRow>, width: nat) returns (lines: string)
    ensures lines == RowLines(data, width)
  {
    lines := "";
    for i := 0 to |data|
      invariant lines == RowLines(data[..i], width)
    {
      assert data[..i + 1][..i] == data[..i];
      lines := lines + RowLine(data[i], width);
    }
    assert data[..|data|] == data;
  }

  /** `getLinkedStreamers`: one row per stored link, in store order. */
  method GetLinkedStreamers(db: Database, guildFound: bool, dbUp: bool, fetch: DiscordId -> Option<MemberNames>)
    returns (reply: Listing)
    ensures !guildFound ==> reply == GuildNotFound
    ensures guildFound && !dbUp ==> reply == ListingFailed
    ensures guildFound && dbUp && db.twitchLinks == [] ==> reply == NoLinksStored
    ensures guildFound && dbUp && db.twitchLinks != [] ==> reply == Table(TableText(Rows(db.twitchLinks, fetch)))
  {
    if !guildFound {
      return GuildNotFound;
    }
    if !dbUp {
      return ListingFailed;
    }
    var links := db.twitchLinks;
    if links == [] {
      return NoLinksStored;
    }
    var data, width := BuildRows(links, fetch);
    var lines := JoinRows(data, width);
    reply := Table(TableOpening + HeaderLine(width) + SeparatorLine(width) + lines + TableClosing);
  }

  // ---------------------------------------------------------------------
  // ask: the answer in messages of at most 1900 characters (synUtils.mjs:570-586)

  const ChunkSize: nat := 1900
  const NoAnswer: string := "I couldn't generate a response for that question."

  /** The messages sent for an answer: `answer.match(/[\s\S]{1,1900}/g)`. */
  function AskReplies(answer: string): seq<string>
  {
    if answer == "" then [NoAnswer] else Text.Chunks(answer, ChunkSize)
  }

  /** The messages, concatenated, are the answer; none is empty or longer
      than 1900 characters and all but the last are exactly 1900 long. */
  lemma AskRepliesCover(answer: string)
    requires answer != ""
    ensures Text.Flatten(AskReplies(answer)) == answer
    ensures forall k :: 0 <= k < |AskReplies(answer)| ==> 0 < |AskReplies(answer)[k]| <= ChunkSize
    ensures forall k :: 0 <= k < |AskReplies(answer)| - 1 ==> |AskReplies(answer)[k]| == ChunkSize
  {
    Text.ChunksFlatten(answer, ChunkSize);
    Text.ChunksSizes(answer, ChunkSize);
  }
}
