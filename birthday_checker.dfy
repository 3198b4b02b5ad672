/** The hourly birthday check and the midnight reset of the in-memory
    "wished today" set (utils/discord/birthdayChecker.mjs). The clock, the
    channel fetch and the per-member Discord calls are parameters. */
module BirthdayChecker {
  import opened Wrappers
  import opened Sequences
  import Text
  import opened Schemas

  /** The calendar reading at the time of a check: day of month, month
      (1-12) and the day's midnight, which is what `lastWished` holds. */
  datatype Clock = Clock(day: nat, month: nat, today: int)

  /** How the attempt to wish one member went: the user fetch failed (or
      gave nothing), the message could not be sent, the message went out
      but saving `lastWished` failed, or everything succeeded. */
  datatype WishOutcome = UserFetchFailed | SendFailed | SaveFailed | Saved

  /** The query `{ day: day + "", month: month + "" }`. */
  predicate Due(b: BirthdayRecord, c: Clock)
  {
    b.day == Text.NatToDecimal(c.day) && b.month == Text.NatToDecimal(c.month)
  }

  /** `s != n` with JavaScript's loose comparison, for strings made of
      decimal digits (any other string is taken to differ). */
  predicate LooselyDiffers(s: string, n: nat)
  {
    !(Text.AllDigits(s) && Text.DigitsValue(s) == n)
  }

  /** The second date check inside the loop never skips a record the query returned. */
  lemma LooseCheckNeverSkips(b: BirthdayRecord, c: Clock)
    requires Due(b, c)
    ensures !LooselyDiffers(b.day, c.day) && !LooselyDiffers(b.month, c.month)
  {
    Text.DecimalRoundTrip(c.day);
    Text.DecimalRoundTrip(c.month);
  }

  /** The birthdays as the loop leaves them, the wished-today set and the
      members a message was sent to, in order. */
  datatype TickState = TickState(birthdays: seq<BirthdayRecord>, wished: set<DiscordId>, sent: seq<DiscordId>)

  /** The wish is attempted for record `b`: it is due, passes the loose
      date check, was not wished since the last reset and was not wished
      today according to the store. */
  predicate Attempted(b: BirthdayRecord, wished: set<DiscordId>, c: Clock)
  {
    && Due(b, c)
    && !LooselyDiffers(b.day, c.day) && !LooselyDiffers(b.month, c.month)
    && b.discordId !in wished
    && b.lastWished != Some(c.today)
  }

  /** One turn of the loop, on record `k`. */
  function WishStep(st: TickState, k: nat, c: Clock, attempt: DiscordId -> WishOutcome): (r: TickState)
    requires k < |st.birthdays|
    ensures |r.birthdays| == |st.birthdays|
  {
    var b := st.birthdays[k];
    if !Attempted(b, st.wished, c) then st
    else match attempt(b.discordId)
      case UserFetchFailed => st
      case SendFailed => st
      case SaveFailed => st.(sent := st.sent + [b.discordId])
      case Saved =>
        TickState(st.birthdays[k := b.(lastWished := Some(c.today))], st.wished + {b.discordId}, st.sent + [b.discordId])
  }

  /** The loop over the first `n` records. */
  function WishUpTo(init: TickState, n: nat, c: Clock, attempt: DiscordId -> WishOutcome): (r: TickState)
    requires n <= |init.birthdays|
    ensures |r.birthdays| == |init.birthdays|
  {
    if n == 0 then init else WishStep(WishUpTo(init, n - 1, c, attempt), n - 1, c, attempt)
  }

  /** Record `k` of the store, as it was before the check, gets a message. */
  predicate Wishes(init: TickState, k: nat, c: Clock, attempt: DiscordId -> WishOutcome)
    requires k < |init.birthdays|
  {
    Attempted(init.birthdays[k], init.wished, c) && attempt(init.birthdays[k].discordId) in {SaveFailed, Saved}
  }

  /** Record `k` gets a message and its `lastWished` is saved. */
  predicate Records(init: TickState, k: nat, c: Clock, attempt: DiscordId -> WishOutcome)
    requires k < |init.birthdays|
  {
    Wishes(init, k, c, attempt) && attempt(init.birthdays[k].discordId) == Saved
  }

  /** Member `x`'s record lies among the first `n` and its wish was saved. */
  predicate RecordedBefore(init: TickState, n: nat, x: DiscordId, c: Clock, attempt: DiscordId -> WishOutcome)
  {
    match IndexOf(BirthdayIds(init.birthdays), x)
    case Some(k) => k < n && Records(init, k, c, attempt)
    case None => false
  }

  /** Member `x`'s record lies among the first `n` and gets a message. */
  predicate WishedBefore(init: TickState, n: nat, x: DiscordId, c: Clock, attempt: DiscordId -> WishOutcome)
  {
    match IndexOf(BirthdayIds(init.birthdays), x)
    case Some(k) => k < n && Wishes(init, k, c, attempt)
    case None => false
  }

  /** Moving past record `k` changes what is said of its member only. */
  lemma BeforeStep(init: TickState, k: nat, x: DiscordId, c: Clock, attempt: DiscordId -> WishOutcome)
    requires NoDup(BirthdayIds(init.birthdays)) && k < |init.birthdays|
    ensures x == init.birthdays[k].discordId ==>
      && !RecordedBefore(init, k, x, c, attempt) && !WishedBefore(init, k, x, c, attempt)
      && (RecordedBefore(init, k + 1, x, c, attempt) <==> Records(init, k, c, attempt))
      && (WishedBefore(init, k + 1, x, c, attempt) <==> Wishes(init, k, c, attempt))
    ensures x != init.birthdays[k].discordId ==>
      && (RecordedBefore(init, k + 1, x, c, attempt) <==> RecordedBefore(init, k, x, c, attempt))
      && (WishedBefore(init, k + 1, x, c, attempt) <==> WishedBefore(init, k, x, c, attempt))
  {
    if x == init.birthdays[k].discordId {
      IndexOfUnique(BirthdayIds(init.birthdays), k);
    }
  }

  /** When the loop reaches record `k`, the record and the wished-today set
      decide the attempt as the store and the set did before the check. */
  lemma {:induction false} ReachedUnchanged(init: TickState, k: nat, c: Clock, attempt: DiscordId -> WishOutcome)
    requires NoDup(BirthdayIds(init.birthdays)) && k < |init.birthdays|
    ensures var st := WishUpTo(init, k, c, attempt);
      && st.birthdays[k] == init.birthdays[k]
      && Attempted(st.birthdays[k], st.wished, c) == Attempted(init.birthdays[k], init.wished, c)
    decreases k, 2
  {
    WishUpToRecords(init, k, c, attempt);
    WishUpToWished(init, k, c, attempt);
    BeforeStep(init, k, init.birthdays[k].discordId, c, attempt);
  }

  /** What the loop does to the store over the first `n` records: only the
      records whose wish was saved change, and only in `lastWished`. */
  lemma {:induction false} WishUpToRecords(init: TickState, n: nat, c: Clock, attempt: DiscordId -> WishOutcome)
    requires NoDup(BirthdayIds(init.birthdays)) && n <= |init.birthdays|
    ensures var r := WishUpTo(init, n, c, attempt);
      forall k :: 0 <= k < |init.birthdays| ==>
        r.birthdays[k] == if k < n && Records(init, k, c, attempt)
                          then init.birthdays[k].(lastWished := Some(c.today)) else init.birthdays[k]
    decreases n, 1
  {
    forall j | 0 <= j < |init.birthdays|
      ensures WishUpTo(init, n, c, attempt).birthdays[j]
              == if j < n && Records(init, j, c, attempt)
                 then init.birthdays[j].(lastWished := Some(c.today)) else init.birthdays[j]
    {
      RecordAfter(init, n, j, c, attempt);
    }
  }

  /** Record `j` after the loop's first `n` turns. */
  lemma {:induction false} RecordAfter(init: TickState, n: nat, j: nat, c: Clock, attempt: DiscordId -> WishOutcome)
    requires NoDup(BirthdayIds(init.birthdays)) && n <= |init.birthdays| && j < |init.birthdays|
    ensures WishUpTo(init, n, c, attempt).birthdays[j]
            == if j < n && Records(init, j, c, attempt)
               then init.birthdays[j].(lastWished := Some(c.today)) else init.birthdays[j]
    decreases n, 0
  {
    if n > 0 {
      var k := n - 1;
      RecordAfter(init, k, j, c, attempt);
      ReachedUnchanged(init, k, c, attempt);
      StepBirthdays(init, WishUpTo(init, k, c, attempt), k, c, attempt);
    }
  }

  /** Turn `k` stamps record `k` exactly when its wish is saved. */
  lemma StepBirthdays(init: TickState, st: TickState, k: nat, c: Clock, attempt: DiscordId -> WishOutcome)
    requires k < |init.birthdays| == |st.birthdays| && st.birthdays[k] == init.birthdays[k]
    requires Attempted(st.birthdays[k], st.wished, c) == Attempted(init.birthdays[k], init.wished, c)
    ensures WishStep(st, k, c, attempt).birthdays
            == if Records(init, k, c, attempt)
               then st.birthdays[k := init.birthdays[k].(lastWished := Some(c.today))] else st.birthdays
  {
  }

  /** What the loop does to the wished-today set over the first `n` records:
      it gains the members whose wish was saved. */
  lemma {:induction false} WishUpToWished(init: TickState, n: nat, c: Clock, attempt: DiscordId -> WishOutcome)
    requires NoDup(BirthdayIds(init.birthdays)) && n <= |init.birthdays|
    ensures forall x :: x in WishUpTo(init, n, c, attempt).wished <==> x in init.wished || RecordedBefore(init, n, x, c, attempt)
    decreases n, 1
  {
    if n > 0 {
      var k := n - 1;
      WishUpToWished(init, k, c, attempt);
      ReachedUnchanged(init, k, c, attempt);
      var st := WishUpTo(init, k, c, attempt);
      var r := WishUpTo(init, n, c, attempt);
      var b := init.birthdays[k];
      assert r.wished == if Records(init, k, c, attempt) then st.wished + {b.discordId} else st.wished;
      forall x
        ensures x in r.wished <==> x in init.wished || RecordedBefore(init, n, x, c, attempt)
      {
        BeforeStep(init, k, x, c, attempt);
      }
    }
  }

  /** The members the loop sends a message to over the first `n` records. */
  lemma {:induction false} WishUpToSent(init: TickState, n: nat, c: Clock, attempt: DiscordId -> WishOutcome)
    requires NoDup(BirthdayIds(init.birthdays)) && n <= |init.birthdays|
    ensures forall x :: x in WishUpTo(init, n, c, attempt).sent <==> x in init.sent || WishedBefore(init, n, x, c, attempt)
  {
    if n > 0 {
      var k := n - 1;
      WishUpToSent(init, k, c, attempt);
      ReachedUnchanged(init, k, c, attempt);
      var st := WishUpTo(init, k, c, attempt);
      var r := WishUpTo(init, n, c, attempt);
      var b := init.birthdays[k];
      assert r.sent == if Wishes(init, k, c, attempt) then st.sent + [b.discordId] else st.sent;
      forall x
        ensures x in r.sent <==> x in init.sent || WishedBefore(init, n, x, c, attempt)
      {
        BeforeStep(init, k, x, c, attempt);
      }
    }
  }

  /** The store's ids are untouched by the check. */
  lemma WishUpToKeepsIds(init: TickState, c: Clock, attempt: DiscordId -> WishOutcome)
    requires NoDup(BirthdayIds(init.birthdays))
    ensures BirthdayIds(WishUpTo(init, |init.birthdays|, c, attempt).birthdays) == BirthdayIds(init.birthdays)
  {
    WishUpToRecords(init, |init.birthdays|, c, attempt);
  }

  /** The result of a whole check over the store. */
  function RunCheck(birthdays: seq<BirthdayRecord>, wished: set<DiscordId>, c: Clock, attempt: DiscordId -> WishOutcome): TickState
  {
    WishUpTo(TickState(birthdays, wished, []), |birthdays|, c, attempt)
  }

  class Checker {
    /** `WISHED_TODAY`. */
    var wishedToday: set<DiscordId>

    constructor ()
      ensures wishedToday == {}
    {
      wishedToday := {};
    }

    /** `birthdayChecker`: nothing happens when the channel cannot be had
        or the query fails; otherwise each due birthday is handled in store
        order. */
    method Check(db: Database, c: Clock, channelOk: bool, queryOk: bool, attempt: DiscordId -> WishOutcome)
      returns (sent: seq<DiscordId>)
      requires db.Valid()
      modifies this, db
      ensures db.Valid()
      ensures db.twitchLinks == old(db.twitchLinks) && db.timezones == old(db.timezones)
      ensures !(channelOk && queryOk) ==>
        sent == [] && db.birthdays == old(db.birthdays) && wishedToday == old(wishedToday)
      ensures channelOk && queryOk ==>
        TickState(db.birthdays, wishedToday, sent) == RunCheck(old(db.birthdays), old(wishedToday), c, attempt)
    {
      sent := [];
      if !channelOk || !queryOk {
        return;
      }
      ghost var init := TickState(db.birthdays, wishedToday, []);
      // The loop visits every stored record and skips those the query would
      // not have returned; the records it returns come in store order.
      for i := 0 to |db.birthdays|
        invariant |db.birthdays| == |init.birthdays|
        invariant TickState(db.birthdays, wishedToday, sent) == WishUpTo(init, i, c, attempt)
        invariant db.twitchLinks == old(db.twitchLinks) && db.timezones == old(db.timezones)
      {
        var b := db.birthdays[i];
        if !Due(b, c) || LooselyDiffers(b.day, c.day) || LooselyDiffers(b.month, c.month) {
          continue;
        }
        if b.discordId in wishedToday || b.lastWished == Some(c.today) {
          continue;
        }
        var outcome := attempt(b.discordId);
        if outcome == UserFetchFailed || outcome == SendFailed {
          continue;
        }
        sent := sent + [b.discordId];
        if outcome == Saved {
          db.birthdays := db.birthdays[i := b.(lastWished := Some(c.today))];
          wishedToday := wishedToday + {b.discordId};
        }
      }
      WishUpToKeepsIds(init, c, attempt);
    }

    /** The minute timer of `startBirthdayLoop`: the set empties at 00:00. */
    method Reset(hour: nat, minute: nat)
      modifies this
      ensures wishedToday == if hour == 0 && minute == 0 then {} else old(wishedToday)
    {
      if hour == 0 && minute == 0 {
        wishedToday := {};
      }
    }
  }

  /** A check sends a message exactly to the members whose birthday is today,
      who were not wished since the last reset nor on this day by the store,
      and whose message could be sent. */
  lemma CheckSendsExactly(birthdays: seq<BirthdayRecord>, wished: set<DiscordId>, c: Clock, attempt: DiscordId -> WishOutcome)
    requires NoDup(BirthdayIds(birthdays))
    ensures forall x :: x in RunCheck(birthdays, wished, c, attempt).sent <==>
      exists k :: 0 <= k < |birthdays| && birthdays[k].discordId == x && Attempted(birthdays[k], wished, c)
                  && attempt(x) in {SaveFailed, Saved}
  {
    WishUpToSent(TickState(birthdays, wished, []), |birthdays|, c, attempt);
  }

  /** A saved wish is not repeated on the same day, by any later check,
      even after the in-memory set was cleared. */
  lemma SavedWishNotRepeated(birthdays: seq<BirthdayRecord>, wished: set<DiscordId>, later: set<DiscordId>,
                             c: Clock, first: DiscordId -> WishOutcome, second: DiscordId -> WishOutcome, x: DiscordId)
    requires NoDup(BirthdayIds(birthdays))
    requires x in RunCheck(birthdays, wished, c, first).sent && first(x) == Saved
    ensures x !in RunCheck(RunCheck(birthdays, wished, c, first).birthdays, later, c, second).sent
  {
    var init := TickState(birthdays, wished, []);
    var r1 := RunCheck(birthdays, wished, c, first);
    WishUpToSent(init, |birthdays|, c, first);
    WishUpToKeepsIds(init, c, first);
    var k :| 0 <= k < |birthdays| && Wishes(init, k, c, first) && birthdays[k].discordId == x;
    RecordAfter(init, |birthdays|, k, c, first);
    assert r1.birthdays[k].lastWished == Some(c.today);
    CheckSendsExactly(r1.birthdays, later, c, second);
    forall j | 0 <= j < |r1.birthdays| && r1.birthdays[j].discordId == x
      ensures !Attempted(r1.birthdays[j], later, c)
    {
      assert BirthdayIds(r1.birthdays)[j] == BirthdayIds(r1.birthdays)[k];
      assert j == k;
    }
  }

  /** When the message went out but saving failed, nothing remembers the
      wish, and the next check that can send it wishes the member again. */
  lemma FailedSaveWishesAgain(birthdays: seq<BirthdayRecord>, wished: set<DiscordId>,
                              c: Clock, first: DiscordId -> WishOutcome, second: DiscordId -> WishOutcome, x: DiscordId)
    requires NoDup(BirthdayIds(birthdays))
    requires x in RunCheck(birthdays, wished, c, first).sent && first(x) == SaveFailed
    requires second(x) in {SaveFailed, Saved}
    ensures var r1 := RunCheck(birthdays, wished, c, first);
      x in RunCheck(r1.birthdays, r1.wished, c, second).sent
  {
    var init := TickState(birthdays, wished, []);
    var r1 := RunCheck(birthdays, wished, c, first);
    WishUpToSent(init, |birthdays|, c, first);
    WishUpToWished(init, |birthdays|, c, first);
    var k :| 0 <= k < |birthdays| && Wishes(init, k, c, first) && birthdays[k].discordId == x;
    RecordAfter(init, |birthdays|, k, c, first);
    WishUpToKeepsIds(init, c, first);
    assert r1.birthdays[k] == birthdays[k];
    assert x !in r1.wished;
    CheckSendsExactly(r1.birthdays, r1.wished, c, second);
    assert Attempted(r1.birthdays[k], r1.wished, c);
  }

  /** A birthday newly set with the date of today is wished at the next
      check that can send the message. */
  lemma NewBirthdayIsWished(birthdays: seq<BirthdayRecord>, id: DiscordId, wished: set<DiscordId>,
                            c: Clock, attempt: DiscordId -> WishOutcome)
    requires NoDup(BirthdayIds(birthdays)) && id !in BirthdayIds(birthdays) && id !in wished
    requires attempt(id) in {SaveFailed, Saved}
    ensures var stored := birthdays + [BirthdayRecord(id, Text.NatToDecimal(c.day), Text.NatToDecimal(c.month), None)];
      id in RunCheck(stored, wished, c, attempt).sent
  {
    var b := BirthdayRecord(id, Text.NatToDecimal(c.day), Text.NatToDecimal(c.month), None);
    var stored := birthdays + [b];
    assert BirthdayIds(stored) == BirthdayIds(birthdays) + [id];
    assert NoDup(BirthdayIds(stored));
    LooseCheckNeverSkips(b, c);
    CheckSendsExactly(stored, wished, c, attempt);
    assert stored[|birthdays|] == b;
  }
}
