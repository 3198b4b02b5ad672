/** The three stored collections (twitch links, birthdays, time zones), each
    a sequence of records in the order the store returns them, with the
    unique indexes the schemas declare. */
module Schemas {
  import opened Wrappers
  import opened Sequences

  type DiscordId = string

  /** A stored link from a Discord member to a Twitch login. */
  datatype Link = Link(discordId: DiscordId, twitchUsername: string)

  /** A stored birthday; day and month are decimal strings, `lastWished` the
      calendar day of the last wish. */
  datatype BirthdayRecord = BirthdayRecord(discordId: DiscordId, day: string, month: string, lastWished: Option<int>)

  datatype TimezoneRecord = TimezoneRecord(discordId: DiscordId, timezone: string)

  function LinkIds(links: seq<Link>): (r: seq<DiscordId>)
    ensures |r| == |links| && forall k :: 0 <= k < |links| ==> r[k] == links[k].discordId
  {
    seq(|links|, k requires 0 <= k < |links| => links[k].discordId)
  }

  function LinkUsernames(links: seq<Link>): (r: seq<string>)
    ensures |r| == |links| && forall k :: 0 <= k < |links| ==> r[k] == links[k].twitchUsername
  {
    seq(|links|, k requires 0 <= k < |links| => links[k].twitchUsername)
  }

  function BirthdayIds(bs: seq<BirthdayRecord>): (r: seq<DiscordId>)
    ensures |r| == |bs| && forall k :: 0 <= k < |bs| ==> r[k] == bs[k].discordId
  {
    seq(|bs|, k requires 0 <= k < |bs| => bs[k].discordId)
  }

  function TimezoneIds(ts: seq<TimezoneRecord>): (r: seq<DiscordId>)
    ensures |r| == |ts| && forall k :: 0 <= k < |ts| ==> r[k] == ts[k].discordId
  {
    seq(|ts|, k requires 0 <= k < |ts| => ts[k].discordId)
  }

  /** `findOne({ discordId })` on the links; also `links.find(l => l.discordId === id)`. */
  function FindLink(links: seq<Link>, id: DiscordId): Option<Link>
  {
    match IndexOf(LinkIds(links), id)
    case None => None
    case Some(k) => Some(links[k])
  }

  /** `findOne({ discordId })` on the birthdays. */
  function FindBirthday(bs: seq<BirthdayRecord>, id: DiscordId): Option<BirthdayRecord>
  {
    match IndexOf(BirthdayIds(bs), id)
    case None => None
    case Some(k) => Some(bs[k])
  }

  /** `findOne({ discordId })` on the time zones. */
  function FindTimezone(ts: seq<TimezoneRecord>, id: DiscordId): Option<TimezoneRecord>
  {
    match IndexOf(TimezoneIds(ts), id)
    case None => None
    case Some(k) => Some(ts[k])
  }

  /** The bot's database. */
  class Database {
    var twitchLinks: seq<Link>
    var birthdays: seq<BirthdayRecord>
    var timezones: seq<TimezoneRecord>

    /** The unique indexes: `discordId` in every collection, and the Twitch
        username (compared exactly) among the links. */
    ghost predicate Valid()
      reads this
    {
      && NoDup(LinkIds(twitchLinks)) && NoDup(LinkUsernames(twitchLinks))
      && NoDup(BirthdayIds(birthdays)) && NoDup(TimezoneIds(timezones))
    }

    constructor ()
      ensures Valid() && twitchLinks == [] && birthdays == [] && timezones == []
    {
      twitchLinks, birthdays, timezones := [], [], [];
    }
  }
}
