/** What one pass of the stream checker guarantees, and what the as-written
    pass does instead. */
module StreamProperties {
  import opened Wrappers
  import Text
  import opened TwitchApi
  import opened Sequences
  import opened Schemas
  import opened StreamChecker

  // ---------------------------------------------------------------------
  // The folds, phase by phase

  /** The sweep removes the role from exactly the holders its rule strips. */
  lemma {:induction false} SweepActionsExactly(ms: seq<Member>, rule: SweepRule)
    ensures forall a :: a in SweepActions(ms, rule) <==>
      exists j :: 0 <= j < |ms| && SweptAway(ms[j], rule) && a == RemoveRole(ms[j].id)
  {
    if ms != [] {
      var init := ms[..|ms| - 1];
      SweepActionsExactly(init, rule);
      forall a
        ensures a in SweepActions(ms, rule) ==> exists j :: 0 <= j < |ms| && SweptAway(ms[j], rule) && a == RemoveRole(ms[j].id)
      {
        if a in SweepActions(ms, rule) && a !in SweepActions(init, rule) {
          assert SweptAway(ms[|ms| - 1], rule) && a == RemoveRole(ms[|ms| - 1].id);
        }
      }
      forall a, j | 0 <= j < |ms| && SweptAway(ms[j], rule) && a == RemoveRole(ms[j].id)
        ensures a in SweepActions(ms, rule)
      {
        if j < |ms| - 1 {
          assert init[j] == ms[j];
        }
      }
    }
  }

  function EntryIds(es: seq<GoLiveEntry>): (r: seq<MemberId>)
    ensures |r| == |es| && forall k :: 0 <= k < |es| ==> r[k] == es[k].discordId
  {
    seq(|es|, k requires 0 <= k < |es| => es[k].discordId)
  }

  lemma EntryIdsSnoc(es: seq<GoLiveEntry>)
    requires es != []
    ensures EntryIds(es) == EntryIds(es[..|es| - 1]) + [es[|es| - 1].discordId]
  {
  }

  /** The go-live entries are those newly live ids whose link resolves to a user. */
  lemma {:induction false} EntriesCover(ids: seq<MemberId>, links: seq<Link>, users: seq<TwitchUser>, streams: seq<StreamRecord>)
    ensures forall x :: x in EntryIds(GoLiveEntries(ids, links, users, streams)) <==>
      x in ids && EntryFor(x, links, users, streams).Some?
  {
    if ids != [] {
      var init := ids[..|ids| - 1];
      var x := ids[|ids| - 1];
      EntriesCover(init, links, users, streams);
      assert ids == init + [x];
      var es0 := GoLiveEntries(init, links, users, streams);
      var es := GoLiveEntries(ids, links, users, streams);
      if EntryFor(x, links, users, streams).Some? {
        assert EntryIds(es) == EntryIds(es0) + [x];
      } else {
        assert EntryIds(es) == EntryIds(es0);
      }
    }
  }

  /** One go-live turn keeps the member ids, drops its id from the live set
      when its member is absent, and issues only a grant for its id and
      notifications. */
  lemma GoLiveStepTrace(p: Progress, e: GoLiveEntry, g: Guild)
    ensures var q := GoLiveStep(p, e, g);
      && MemberIds(q.members) == MemberIds(p.members)
      && (forall x :: x in q.live <==> x in p.live && !(x == e.discordId && x !in MemberIds(p.members)))
      && (forall a :: a in q.actions ==> a in p.actions || a.Notify? || a == AddRole(e.discordId))
  {
    var found := FindMember(p.members, e.discordId);
    if found.Some? {
      var i := found.value;
      var ms := p.members[i := p.members[i].(hasRole := true)];
      assert MemberIds(ms) == MemberIds(p.members);
    }
  }

  /** The go-live loop keeps the member ids; it drops from the live set exactly
      the entries whose member is absent, and issues only role additions for
      its entries and notifications. */
  lemma {:induction false} GoLiveTrace(p: Progress, es: seq<GoLiveEntry>, g: Guild)
    ensures var q := GoLiveAll(p, es, g);
      && MemberIds(q.members) == MemberIds(p.members)
      && (forall x :: x in q.live <==> x in p.live && !(x in EntryIds(es) && x !in MemberIds(p.members)))
      && (forall a :: a in q.actions ==> a in p.actions || a.Notify? || (a.AddRole? && a.member in EntryIds(es)))
  {
    if es != [] {
      var init := es[..|es| - 1];
      var e := es[|es| - 1];
      GoLiveTrace(p, init, g);
      var q0 := GoLiveAll(p, init, g);
      GoLiveStepTrace(q0, e, g);
      EntryIdsSnoc(es);
      LiveCompose(p, q0, GoLiveStep(q0, e, g), EntryIds(init), e.discordId);
    }
  }

  /** The facts of the go-live loop over the entries with ids `init`, then of
      one more turn, give those over `init + [x]`. */
  lemma LiveCompose(p: Progress, q0: Progress, q: Progress, init: seq<MemberId>, x: MemberId)
    requires MemberIds(q0.members) == MemberIds(p.members)
    requires forall y :: y in q0.live <==> y in p.live && !(y in init && y !in MemberIds(p.members))
    requires forall a :: a in q0.actions ==> a in p.actions || a.Notify? || (a.AddRole? && a.member in init)
    requires MemberIds(q.members) == MemberIds(q0.members)
    requires forall y :: y in q.live <==> y in q0.live && !(y == x && y !in MemberIds(q0.members))
    requires forall a :: a in q.actions ==> a in q0.actions || a.Notify? || a == AddRole(x)
    ensures MemberIds(q.members) == MemberIds(p.members)
    ensures forall y :: y in q.live <==> y in p.live && !(y in init + [x] && y !in MemberIds(p.members))
    ensures forall a :: a in q.actions ==> a in p.actions || a.Notify? || (a.AddRole? && a.member in init + [x])
  {
  }

  /** With distinct member ids, a member ends up holding the role after the
      go-live loop exactly when it held it or one of the entries is its own. */
  lemma {:induction false} GoLiveRoles(p: Progress, es: seq<GoLiveEntry>, g: Guild)
    requires NoDup(MemberIds(p.members))
    ensures var q := GoLiveAll(p, es, g);
      && |q.members| == |p.members|
      && forall j :: 0 <= j < |p.members| ==>
           q.members[j] == p.members[j].(hasRole := p.members[j].hasRole || p.members[j].id in EntryIds(es))
  {
    if es != [] {
      var init := es[..|es| - 1];
      var e := es[|es| - 1];
      GoLiveRoles(p, init, g);
      GoLiveTrace(p, init, g);
      var q0 := GoLiveAll(p, init, g);
      EntryIdsSnoc(es);
      var found := FindMember(q0.members, e.discordId);
      if found.Some? {
        var i := found.value;
        forall j | 0 <= j < |p.members| && p.members[j].id == e.discordId
          ensures j == i
        {
          assert MemberIds(p.members)[j] == MemberIds(p.members)[i];
        }
      }
    }
  }

  /** One go-offline turn keeps the member ids, drops its id from the live
      set when its member is absent, and issues at most the removal for its id. */
  lemma GoOfflineStepTrace(p: Progress, id: MemberId)
    ensures var q := GoOfflineStep(p, id);
      && MemberIds(q.members) == MemberIds(p.members)
      && (forall x :: x in q.live <==> x in p.live && !(x == id && x !in MemberIds(p.members)))
      && (forall a :: a in q.actions ==> a in p.actions || a == RemoveRole(id))
  {
    var found := FindMember(p.members, id);
    if found.Some? {
      var i := found.value;
      var ms := p.members[i := p.members[i].(hasRole := false)];
      assert MemberIds(ms) == MemberIds(p.members);
    }
  }

  /** The go-offline loop keeps the member ids; it drops from the live set the
      ids whose member is absent, and issues only role removals for its ids. */
  lemma {:induction false} GoOfflineTrace(p: Progress, ids: seq<MemberId>)
    ensures var q := GoOfflineAll(p, ids);
      && MemberIds(q.members) == MemberIds(p.members)
      && (forall x :: x in q.live <==> x in p.live && !(x in ids && x !in MemberIds(p.members)))
      && (forall a :: a in q.actions ==> a in p.actions || (a.RemoveRole? && a.member in ids))
  {
    if ids != [] {
      var init := ids[..|ids| - 1];
      var x := ids[|ids| - 1];
      GoOfflineTrace(p, init);
      var q0 := GoOfflineAll(p, init);
      GoOfflineStepTrace(q0, x);
      assert ids == init + [x];
      OfflineCompose(p, q0, GoOfflineStep(q0, x), init, x);
    }
  }

  /** The facts of the go-offline loop over `init`, then of one more turn, give those over `init + [x]`. */
  lemma OfflineCompose(p: Progress, q0: Progress, q: Progress, init: seq<MemberId>, x: MemberId)
    requires MemberIds(q0.members) == MemberIds(p.members)
    requires forall y :: y in q0.live <==> y in p.live && !(y in init && y !in MemberIds(p.members))
    requires forall a :: a in q0.actions ==> a in p.actions || (a.RemoveRole? && a.member in init)
    requires MemberIds(q.members) == MemberIds(q0.members)
    requires forall y :: y in q.live <==> y in q0.live && !(y == x && y !in MemberIds(q0.members))
    requires forall a :: a in q.actions ==> a in q0.actions || a == RemoveRole(x)
    ensures MemberIds(q.members) == MemberIds(p.members)
    ensures forall y :: y in q.live <==> y in p.live && !(y in init + [x] && y !in MemberIds(p.members))
    ensures forall a :: a in q.actions ==> a in p.actions || (a.RemoveRole? && a.member in init + [x])
  {
  }

  /** With distinct member ids, a member keeps the role through the go-offline
      loop exactly when it held it and its id is not among the offline ids. */
  lemma {:induction false} GoOfflineRoles(p: Progress, ids: seq<MemberId>)
    requires NoDup(MemberIds(p.members))
    ensures var q := GoOfflineAll(p, ids);
      && |q.members| == |p.members|
      && forall j :: 0 <= j < |p.members| ==>
           q.members[j] == p.members[j].(hasRole := p.members[j].hasRole && p.members[j].id !in ids)
  {
    if ids != [] {
      var init := ids[..|ids| - 1];
      var x := ids[|ids| - 1];
      GoOfflineRoles(p, init);
      GoOfflineTrace(p, init);
      var q0 := GoOfflineAll(p, init);
      assert ids == init + [x];
      var found := FindMember(q0.members, x);
      if found.Some? {
        var i := found.value;
        forall j | 0 <= j < |p.members| && p.members[j].id == x
          ensures j == i
        {
          assert MemberIds(p.members)[j] == MemberIds(p.members)[i];
        }
      }
    }
  }

  /** Go-live entries whose members are all absent change nothing but the live set. */
  lemma {:induction false} GoLiveAbsentMembers(p: Progress, es: seq<GoLiveEntry>, g: Guild)
    requires forall k :: 0 <= k < |es| ==> es[k].discordId !in MemberIds(p.members)
    ensures GoLiveAll(p, es, g).actions == p.actions
    ensures GoLiveAll(p, es, g).members == p.members
  {
    if es != [] {
      GoLiveAbsentMembers(p, es[..|es| - 1], g);
    }
  }

  // ---------------------------------------------------------------------
  // Which actions the two loops issue

  /** `guild.members.fetch(id)` finds a member that holds the role. */
  predicate Holds(ms: seq<Member>, x: MemberId)
  {
    match FindMember(ms, x)
    case None => false
    case Some(i) => ms[i].hasRole
  }

  /** The same members in the same order, up to who holds the role. */
  predicate SameButRoles(ms: seq<Member>, ms2: seq<Member>)
  {
    |ms2| == |ms| && forall j :: 0 <= j < |ms| ==> ms2[j] == ms[j].(hasRole := ms2[j].hasRole)
  }

  /** `a` is one of the notifications the go-live handling of `e` sends. */
  predicate Announces(ms: seq<Member>, e: GoLiveEntry, g: Guild, a: Action)
  {
    match FindMember(ms, e.discordId)
    case None => false
    case Some(i) => a in Notifications(g, LiveEmbed(ms[i], e.twitchUsername, e.streamInfo))
  }

  lemma SameButRolesIds(ms: seq<Member>, ms2: seq<Member>)
    requires SameButRoles(ms, ms2)
    ensures MemberIds(ms2) == MemberIds(ms)
  {
  }

  /** The embed does not depend on who holds the role. */
  lemma AnnouncesIgnoresRoles(ms: seq<Member>, ms2: seq<Member>, e: GoLiveEntry, g: Guild, a: Action)
    requires SameButRoles(ms, ms2)
    ensures Announces(ms2, e, g, a) <==> Announces(ms, e, g, a)
  {
    SameButRolesIds(ms, ms2);
    var found := FindMember(ms, e.discordId);
    if found.Some? {
      var m, m2 := ms[found.value], ms2[found.value];
      assert DisplayName(m2) == DisplayName(m) && m2.avatarUrl == m.avatarUrl;
      assert LiveEmbed(m2, e.twitchUsername, e.streamInfo) == LiveEmbed(m, e.twitchUsername, e.streamInfo);
    }
  }

  /** Setting the role of the member found for `x` changes whether `x` holds
      it and no other id's. */
  lemma SetRoleAt(ms: seq<Member>, x: MemberId, b: bool)
    requires FindMember(ms, x).Some?
    ensures var ms2 := ms[FindMember(ms, x).value := ms[FindMember(ms, x).value].(hasRole := b)];
      && SameButRoles(ms, ms2)
      && forall y :: Holds(ms2, y) <==> (if y == x then b else Holds(ms, y))
  {
    var i := FindMember(ms, x).value;
    var ms2 := ms[i := ms[i].(hasRole := b)];
    SameButRolesIds(ms, ms2);
    forall y | y != x && FindMember(ms, y).Some?
      ensures FindMember(ms, y).value != i
    {
      assert MemberIds(ms)[FindMember(ms, y).value] == y;
    }
  }

  /** One go-live turn sets the role of its member when found, and of no one else. */
  lemma GoLiveStepHolds(p: Progress, e: GoLiveEntry, g: Guild)
    ensures var q := GoLiveStep(p, e, g);
      && SameButRoles(p.members, q.members)
      && (forall x :: Holds(q.members, x) <==> Holds(p.members, x) || (x == e.discordId && x in MemberIds(p.members)))
  {
    if FindMember(p.members, e.discordId).Some? {
      SetRoleAt(p.members, e.discordId, true);
    }
  }

  /** One go-live turn: the role is added for its id exactly when its member
      is found without the role, and the notifications are those of its
      member; no removal is issued. */
  lemma GoLiveStepActions(p: Progress, e: GoLiveEntry, g: Guild)
    ensures var q := GoLiveStep(p, e, g);
      && (forall x :: AddRole(x) in q.actions <==>
            AddRole(x) in p.actions || (x == e.discordId && x in MemberIds(p.members) && !Holds(p.members, x)))
      && (forall x :: RemoveRole(x) in q.actions <==> RemoveRole(x) in p.actions)
      && (forall a: Action :: a.Notify? ==> (a in q.actions <==> a in p.actions || Announces(p.members, e, g, a)))
  {
  }

  /** Through the go-live loop the members stay the same up to roles, and an
      id ends up holding the role exactly when it held it or one of the
      entries is its own and its member is found. */
  lemma {:induction false} GoLiveHolds(p: Progress, es: seq<GoLiveEntry>, g: Guild)
    ensures var q := GoLiveAll(p, es, g);
      && SameButRoles(p.members, q.members)
      && (forall x :: Holds(q.members, x) <==> Holds(p.members, x) || (x in EntryIds(es) && x in MemberIds(p.members)))
  {
    if es != [] {
      var init := es[..|es| - 1];
      var e := es[|es| - 1];
      GoLiveHolds(p, init, g);
      var q0 := GoLiveAll(p, init, g);
      GoLiveStepHolds(q0, e, g);
      SameButRolesIds(p.members, q0.members);
      EntryIdsSnoc(es);
    }
  }

  /** The go-live loop adds the role exactly to the ids of its entries whose
      member is found without it, and removes it from nobody. */
  lemma {:induction false} GoLiveGrants(p: Progress, es: seq<GoLiveEntry>, g: Guild)
    ensures var q := GoLiveAll(p, es, g);
      && (forall x :: AddRole(x) in q.actions <==>
            AddRole(x) in p.actions || (x in EntryIds(es) && x in MemberIds(p.members) && !Holds(p.members, x)))
      && (forall x :: RemoveRole(x) in q.actions <==> RemoveRole(x) in p.actions)
  {
    if es != [] {
      var init := es[..|es| - 1];
      var e := es[|es| - 1];
      GoLiveGrants(p, init, g);
      GoLiveHolds(p, init, g);
      var q0 := GoLiveAll(p, init, g);
      GoLiveStepActions(q0, e, g);
      SameButRolesIds(p.members, q0.members);
      EntryIdsSnoc(es);
    }
  }

  /** `a` is one of the notifications the go-live handling of some entry in `es` sends. */
  predicate AnnouncedBy(ms: seq<Member>, es: seq<GoLiveEntry>, g: Guild, a: Action)
  {
    es != [] && (AnnouncedBy(ms, es[..|es| - 1], g, a) || Announces(ms, es[|es| - 1], g, a))
  }

  /** The go-live loop sends exactly the notifications of its entries whose
      member is found. */
  lemma {:induction false} GoLiveNotifies(p: Progress, es: seq<GoLiveEntry>, g: Guild)
    ensures var q := GoLiveAll(p, es, g);
      forall a: Action :: a.Notify? ==> (a in q.actions <==> a in p.actions || AnnouncedBy(p.members, es, g, a))
  {
    if es != [] {
      var init := es[..|es| - 1];
      var e := es[|es| - 1];
      GoLiveNotifies(p, init, g);
      GoLiveHolds(p, init, g);
      var q0 := GoLiveAll(p, init, g);
      GoLiveStepActions(q0, e, g);
      forall a: Action | a.Notify?
        ensures a in GoLiveStep(q0, e, g).actions <==> a in p.actions || AnnouncedBy(p.members, es, g, a)
      {
        AnnouncesIgnoresRoles(p.members, q0.members, e, g, a);
      }
    }
  }

  /** One go-offline turn: the removal for its id is issued exactly when its
      member is found holding the role; nothing else is issued. */
  lemma GoOfflineStepActions(p: Progress, id: MemberId)
    ensures var q := GoOfflineStep(p, id);
      && SameButRoles(p.members, q.members)
      && (forall x :: Holds(q.members, x) <==> Holds(p.members, x) && x != id)
      && (forall x :: RemoveRole(x) in q.actions <==> RemoveRole(x) in p.actions || (x == id && Holds(p.members, x)))
      && (forall a: Action :: !a.RemoveRole? ==> (a in q.actions <==> a in p.actions))
  {
    var found := FindMember(p.members, id);
    if found.Some? {
      SetRoleAt(p.members, id, false);
    }
  }

  /** The go-offline loop removes the role exactly from its ids whose member
      is found holding it, and issues nothing else. */
  lemma {:induction false} GoOfflineActions(p: Progress, ids: seq<MemberId>)
    ensures var q := GoOfflineAll(p, ids);
      && SameButRoles(p.members, q.members)
      && (forall x :: Holds(q.members, x) <==> Holds(p.members, x) && x !in ids)
      && (forall x :: RemoveRole(x) in q.actions <==> RemoveRole(x) in p.actions || (x in ids && Holds(p.members, x)))
      && (forall a: Action :: !a.RemoveRole? ==> (a in q.actions <==> a in p.actions))
  {
    if ids != [] {
      var init := ids[..|ids| - 1];
      var x := ids[|ids| - 1];
      GoOfflineActions(p, init);
      GoOfflineStepActions(GoOfflineAll(p, init), x);
      InSnoc(ids);
    }
  }

  // ---------------------------------------------------------------------
  // Who is live

  /** `nextLiveDiscordIds` holds exactly the ids of the links that are live. */
  lemma {:induction false} NextLiveExactly(links: seq<Link>, users: seq<TwitchUser>, liveIds: set<UserId>)
    ensures forall x :: x in NextLive(links, users, liveIds) <==>
      exists k :: 0 <= k < |links| && links[k].discordId == x && LinkIsLive(links[k], users, liveIds)
  {
    if links != [] {
      var init := links[..|links| - 1];
      NextLiveExactly(init, users, liveIds);
      forall x | x in NextLive(links, users, liveIds)
        ensures exists k :: 0 <= k < |links| && links[k].discordId == x && LinkIsLive(links[k], users, liveIds)
      {
        if x in NextLive(init, users, liveIds) {
          var k :| 0 <= k < |init| && init[k].discordId == x && LinkIsLive(init[k], users, liveIds);
          assert links[k] == init[k];
        } else {
          assert links[|links| - 1].discordId == x;
        }
      }
      forall x, k | 0 <= k < |links| && links[k].discordId == x && LinkIsLive(links[k], users, liveIds)
        ensures x in NextLive(links, users, liveIds)
      {
        if k < |links| - 1 {
          assert init[k] == links[k];
        }
      }
    }
  }

  /** Two links never name the same Discord member. */
  predicate UniqueLinkIds(links: seq<Link>) { NoDup(LinkIds(links)) }

  /** No two Twitch logins differ only in case. */
  predicate UniqueLoginsCI(users: seq<TwitchUser>) { NoDup(LoweredLogins(users)) }

  /** Every stored login is spelt exactly as Twitch spells it. */
  predicate ExactCase(links: seq<Link>, users: seq<TwitchUser>)
  {
    forall k, i ::
      (0 <= k < |links| && 0 <= i < |users| && Text.LowerStr(users[i].login) == Text.LowerStr(links[k].twitchUsername))
      ==> users[i].login == links[k].twitchUsername
  }

  /** A live id is spared by the sweep and has a go-live entry, when the
      sweep's exact match and the case-insensitive match agree. */
  lemma LiveNotStripped(links: seq<Link>, users: seq<TwitchUser>, streams: seq<StreamRecord>, x: MemberId)
    requires UniqueLinkIds(links) && UniqueLoginsCI(users) && ExactCase(links, users)
    requires x in NextLive(links, users, LiveUserIds(streams))
    ensures !Strips(StripUnlessLive(links, users, LiveUserIds(streams)), x)
    ensures EntryFor(x, links, users, streams).Some?
  {
    var liveIds := LiveUserIds(streams);
    NextLiveExactly(links, users, liveIds);
    var k :| 0 <= k < |links| && links[k].discordId == x && LinkIsLive(links[k], users, liveIds);
    var kf := IndexOf(LinkIds(links), x).value;
    assert LinkIds(links)[kf] == LinkIds(links)[k];
    assert kf == k;
    var l := links[k];
    var i := IndexOf(LoweredLogins(users), Text.LowerStr(l.twitchUsername)).value;
    assert users[i].login == l.twitchUsername;
    assert Logins(users)[i] == l.twitchUsername;
    var ie := IndexOf(Logins(users), l.twitchUsername).value;
    assert LoweredLogins(users)[ie] == LoweredLogins(users)[i];
    assert ie == i;
  }

  /** An id that is not live is stripped by the sweep when logins are unique ignoring case. */
  lemma OfflineStripped(links: seq<Link>, users: seq<TwitchUser>, streams: seq<StreamRecord>, x: MemberId)
    requires UniqueLoginsCI(users)
    requires x !in NextLive(links, users, LiveUserIds(streams))
    ensures Strips(StripUnlessLive(links, users, LiveUserIds(streams)), x)
  {
    var liveIds := LiveUserIds(streams);
    NextLiveExactly(links, users, liveIds);
    var found := IndexOf(LinkIds(links), x);
    if found.Some? {
      var l := links[found.value];
      assert !LinkIsLive(l, users, liveIds);
      var exact := IndexOf(Logins(users), l.twitchUsername);
      if exact.Some? {
        var ie := exact.value;
        assert LoweredLogins(users)[ie] == Text.LowerStr(l.twitchUsername);
        var i := IndexOf(LoweredLogins(users), Text.LowerStr(l.twitchUsername)).value;
        assert LoweredLogins(users)[ie] == LoweredLogins(users)[i];
        assert ie == i;
      }
    }
  }

  // ---------------------------------------------------------------------
  // Passes that end early

  /** Without the guild or the live role the pass does nothing at all: no
      action, members and live set as they were; the as-written pass agrees. */
  lemma GuildOrRoleMissing(prev: seq<MemberId>, g: Guild, f: Fetched)
    requires !g.found || !g.liveRoleFound
    ensures var r := Pass(prev, g, f);
      && (r.outcome == GuildMissing || r.outcome == RoleMissing)
      && r.sweep == [] && r.transitions == [] && r.live == prev && r.members == g.members
    ensures PassAsWritten(prev, g, f) == Pass(prev, g, f)
  {
  }

  /** With no links stored, or no Twitch user resolved, nobody can be live:
      the live set is emptied, no one is granted anything, and (when the
      members could be fetched) exactly the holders lose the role and nobody
      keeps it. */
  lemma NobodyCanBeLive(prev: seq<MemberId>, g: Guild, f: Fetched)
    requires g.found && g.liveRoleFound && f.links.Ok?
    requires f.links.value == [] || (f.users.Ok? && f.users.value == [])
    ensures var r := Pass(prev, g, f);
      && (r.outcome == NoLinks || r.outcome == NoTwitchUsers)
      && r.live == [] && r.transitions == []
      && MemberIds(r.members) == MemberIds(g.members)
      && (g.rosterFetchOk ==>
            && (forall j :: 0 <= j < |r.members| ==> !r.members[j].hasRole)
            && (forall a :: a in r.sweep <==>
                  exists j :: 0 <= j < |g.members| && g.members[j].hasRole && a == RemoveRole(g.members[j].id)))
  {
    var r := Pass(prev, g, f);
    assert r == ResetAll(r.outcome, g);
    if g.rosterFetchOk {
      SweepActionsExactly(g.members, StripAll);
      var ms := SweepMembers(g.members, StripAll);
      assert MemberIds(ms) == MemberIds(g.members);
    }
  }

  // ---------------------------------------------------------------------
  // A completed pass

  predicate Answered(f: Fetched)
  {
    f.links.Ok? && f.users.Ok? && f.streams.Ok?
  }

  /** The sweep rule of a pass that got all three answers. */
  function RuleOf(f: Fetched): SweepRule
    requires Answered(f)
  {
    StripUnlessLive(f.links.value, f.users.value, LiveUserIds(f.streams.value))
  }

  /** The ids that are live according to the answers. */
  function NextOf(f: Fetched): seq<MemberId>
    requires Answered(f)
  {
    NextLive(f.links.value, f.users.value, LiveUserIds(f.streams.value))
  }

  function EntriesOf(prev: seq<MemberId>, f: Fetched): seq<GoLiveEntry>
    requires Answered(f)
  {
    GoLiveEntries(Minus(NextOf(f), prev), f.links.value, f.users.value, f.streams.value)
  }

  /** What a completed pass did, phase by phase. */
  lemma CompletedPass(prev: seq<MemberId>, g: Guild, f: Fetched)
    requires Pass(prev, g, f).outcome == Completed
    ensures g.found && g.liveRoleFound && Answered(f) && f.links.value != [] && f.users.value != []
    ensures var r := Pass(prev, g, f);
      var next := NextOf(f);
      var es := EntriesOf(prev, f);
      var ms1 := SweepIfFetched(g, RuleOf(f)).1;
      && r.sweep == SweepIfFetched(g, RuleOf(f)).0
      && MemberIds(ms1) == MemberIds(g.members)
      && MemberIds(r.members) == MemberIds(g.members)
      && (forall x :: x in r.live <==> x in next && !(x in EntryIds(es) && x !in MemberIds(g.members)))
      && (forall a :: a in r.transitions ==>
            a.Notify? || (a.AddRole? && a.member in EntryIds(es)) || (a.RemoveRole? && a.member in Minus(prev, next)))
      && (NoDup(MemberIds(g.members)) ==> forall j :: 0 <= j < |g.members| ==>
            r.members[j] == ms1[j].(hasRole := (ms1[j].hasRole || ms1[j].id in EntryIds(es)) && ms1[j].id !in Minus(prev, next)))
  {
    CompletedPassLoops(prev, g, f);
    var next := NextOf(f);
    var es := EntriesOf(prev, f);
    var ms1 := SweepIfFetched(g, RuleOf(f)).1;
    assert MemberIds(ms1) == MemberIds(g.members);
    var p0 := Progress([], ms1, next);
    GoLiveTrace(p0, es, g);
    var p1 := GoLiveAll(p0, es, g);
    GoOfflineTrace(p1, Minus(prev, next));
    if NoDup(MemberIds(g.members)) {
      GoLiveRoles(p0, es, g);
      GoOfflineRoles(p1, Minus(prev, next));
    }
  }

  /** Which actions a completed pass issues after the sweep: the role is added
      exactly for the newly live ids that have a go-live entry and whose member
      is found without the role, removed exactly for the ids gone offline whose
      member is found holding it, and the notifications are exactly those of
      the entries whose member is found, one per existing channel. */
  lemma CompletedPassActions(prev: seq<MemberId>, g: Guild, f: Fetched)
    requires Pass(prev, g, f).outcome == Completed
    ensures Answered(f)
    ensures var r := Pass(prev, g, f);
      var next := NextOf(f);
      var ms1 := SweepIfFetched(g, RuleOf(f)).1;
      && (forall x :: AddRole(x) in r.transitions <==>
            x in next && x !in prev && EntryFor(x, f.links.value, f.users.value, f.streams.value).Some?
            && x in MemberIds(g.members) && !Holds(ms1, x))
      && (forall x :: RemoveRole(x) in r.transitions <==> x in prev && x !in next && Holds(ms1, x))
      && (forall a: Action :: a.Notify? ==> (a in r.transitions <==> AnnouncedBy(ms1, EntriesOf(prev, f), g, a)))
  {
    CompletedPassLoops(prev, g, f);
    CompletedPass(prev, g, f);
    var next := NextOf(f);
    var es := EntriesOf(prev, f);
    var ms1 := SweepIfFetched(g, RuleOf(f)).1;
    EntriesCover(Minus(next, prev), f.links.value, f.users.value, f.streams.value);
    var p0 := Progress([], ms1, next);
    GoLiveGrants(p0, es, g);
    GoLiveNotifies(p0, es, g);
    GoLiveHolds(p0, es, g);
    var p1 := GoLiveAll(p0, es, g);
    var off := Minus(prev, next);
    GoOfflineActions(p1, off);
    ActionsCompose(ms1, es, g, off, p1, GoOfflineAll(p1, off).actions);
  }

  /** A completed pass is the sweep followed by the go-live loop and then the
      go-offline loop, both run on the members after the sweep. */
  lemma CompletedPassLoops(prev: seq<MemberId>, g: Guild, f: Fetched)
    requires Pass(prev, g, f).outcome == Completed
    ensures g.found && g.liveRoleFound && Answered(f) && f.links.value != [] && f.users.value != []
    ensures var p2 := GoOfflineAll(GoLiveAll(Progress([], SweepIfFetched(g, RuleOf(f)).1, NextOf(f)), EntriesOf(prev, f), g),
                                   Minus(prev, NextOf(f)));
      Pass(prev, g, f) == PassResult(Completed, SweepIfFetched(g, RuleOf(f)).0, p2.actions, p2.live, p2.members)
  {
    var d := Prepare(prev, g, f);
    assert d.Diffed? && d.sweep == SweepIfFetched(g, RuleOf(f)).0
      && d.members == SweepIfFetched(g, RuleOf(f)).1 && d.next == NextOf(f);
  }

  /** The go-live facts, then the go-offline facts, give the actions of both loops. */
  lemma ActionsCompose(ms1: seq<Member>, es: seq<GoLiveEntry>, g: Guild, off: seq<MemberId>, p1: Progress, acts: seq<Action>)
    requires forall x :: AddRole(x) in p1.actions <==> x in EntryIds(es) && x in MemberIds(ms1) && !Holds(ms1, x)
    requires forall x :: RemoveRole(x) !in p1.actions
    requires forall a: Action :: a.Notify? ==> (a in p1.actions <==> AnnouncedBy(ms1, es, g, a))
    requires forall x :: Holds(p1.members, x) <==> Holds(ms1, x) || (x in EntryIds(es) && x in MemberIds(ms1))
    requires forall x :: x in off ==> x !in EntryIds(es)
    requires forall x :: RemoveRole(x) in acts <==> RemoveRole(x) in p1.actions || (x in off && Holds(p1.members, x))
    requires forall a: Action :: !a.RemoveRole? ==> (a in acts <==> a in p1.actions)
    ensures forall x :: AddRole(x) in acts <==> x in EntryIds(es) && x in MemberIds(ms1) && !Holds(ms1, x)
    ensures forall x :: RemoveRole(x) in acts <==> x in off && Holds(ms1, x)
    ensures forall a: Action :: a.Notify? ==> (a in acts <==> AnnouncedBy(ms1, es, g, a))
  {
  }

  /** A completed pass grants the role only to ids that went live, revokes it
      only from ids that went offline, replaces the live set by the live ids
      (less newly live ids whose member is gone) and keeps every id that
      stayed live. */
  lemma TransitionsFollowTheDiff(prev: seq<MemberId>, g: Guild, f: Fetched)
    requires Pass(prev, g, f).outcome == Completed
    ensures Answered(f)
    ensures var r := Pass(prev, g, f);
      var next := NextOf(f);
      && (forall x :: AddRole(x) in r.transitions ==> x in next && x !in prev)
      && (forall x :: RemoveRole(x) in r.transitions ==> x in prev && x !in next)
      && (forall x :: x in r.live ==> x in next)
      && (forall x :: x in next && x in prev ==> x in r.live)
  {
    CompletedPass(prev, g, f);
    EntriesCover(Minus(NextOf(f), prev), f.links.value, f.users.value, f.streams.value);
  }

  // ---------------------------------------------------------------------
  // Convergence and idempotence

  /** Every fetched member holds the role exactly when its id is in the live set. */
  predicate RoleMatchesLive(live: seq<MemberId>, ms: seq<Member>)
  {
    forall j :: 0 <= j < |ms| ==> (ms[j].hasRole <==> ms[j].id in live)
  }

  /** Every fetched member in the live set holds the role. */
  predicate LiveHeld(live: seq<MemberId>, ms: seq<Member>)
  {
    forall j :: 0 <= j < |ms| && ms[j].id in live ==> ms[j].hasRole
  }

  /** The data agree with the assumptions the pass silently makes: distinct
      member ids, one link per member, logins unique ignoring case and stored
      with Twitch's own spelling. */
  predicate Consistent(g: Guild, f: Fetched)
  {
    && NoDup(MemberIds(g.members))
    && (f.links.Ok? ==> UniqueLinkIds(f.links.value))
    && (f.users.Ok? ==> UniqueLoginsCI(f.users.value))
    && (f.links.Ok? && f.users.Ok? ==> ExactCase(f.links.value, f.users.value))
  }

  predicate Reconciled(o: Outcome)
  {
    o == NoLinks || o == NoTwitchUsers || o == Completed
  }

  /** After a pass that runs to its end with the member list fetched, every
      fetched member holds the role exactly when its id is in the new live set. */
  lemma Convergence(prev: seq<MemberId>, g: Guild, f: Fetched)
    requires g.rosterFetchOk && Consistent(g, f) && LiveHeld(prev, g.members)
    requires Reconciled(Pass(prev, g, f).outcome)
    ensures RoleMatchesLive(Pass(prev, g, f).live, Pass(prev, g, f).members)
  {
    var r := Pass(prev, g, f);
    if r.outcome == Completed {
      forall j | 0 <= j < |r.members|
        ensures r.members[j].hasRole <==> r.members[j].id in r.live
      {
        ConvergedMember(prev, g, f, j);
      }
    }
  }

  /** Member j after a completed pass, under the conditions of `Convergence`. */
  lemma ConvergedMember(prev: seq<MemberId>, g: Guild, f: Fetched, j: nat)
    requires g.rosterFetchOk && Consistent(g, f) && LiveHeld(prev, g.members)
    requires Pass(prev, g, f).outcome == Completed && j < |Pass(prev, g, f).members|
    ensures Pass(prev, g, f).members[j].hasRole <==> Pass(prev, g, f).members[j].id in Pass(prev, g, f).live
  {
    var r := Pass(prev, g, f);
    CompletedPass(prev, g, f);
    var links, users, streams := f.links.value, f.users.value, f.streams.value;
    var next := NextOf(f);
    EntriesCover(Minus(next, prev), links, users, streams);
    var x := g.members[j].id;
    assert r.members[j].id == x by {
      assert MemberIds(r.members)[j] == MemberIds(g.members)[j];
    }
    assert x in MemberIds(g.members);
    if x in next {
      LiveNotStripped(links, users, streams, x);
    } else {
      OfflineStripped(links, users, streams, x);
    }
  }

  /** A sweep finds nothing to strip when no holder is stripped by its rule. */
  lemma SweepNothing(ms: seq<Member>, rule: SweepRule)
    requires forall j :: 0 <= j < |ms| ==> !SweptAway(ms[j], rule)
    ensures SweepActions(ms, rule) == [] && SweepMembers(ms, rule) == ms
  {
    SweepActionsExactly(ms, rule);
  }

  /** Nothing is left of a set whose every element is removed. */
  lemma {:induction false} MinusCovered(a: seq<MemberId>, b: seq<MemberId>)
    requires forall x :: x in a ==> x in b
    ensures Minus(a, b) == []
  {
    if a != [] {
      MinusCovered(a[..|a| - 1], b);
    }
  }

  /** A pass that finds nobody to strip, nobody gone offline and no fetched
      member newly live issues nothing; its live set is the live ids less
      the newly live ones that have a go-live entry. */
  lemma QuietPass(prev: seq<MemberId>, g: Guild, f: Fetched)
    requires g.found && g.liveRoleFound && Answered(f) && f.links.value != [] && f.users.value != []
    requires forall j :: 0 <= j < |g.members| ==> !SweptAway(g.members[j], RuleOf(f))
    requires forall x :: x in prev ==> x in NextOf(f)
    requires forall x :: x in NextOf(f) && x !in prev ==> x !in MemberIds(g.members)
    ensures var r := Pass(prev, g, f);
      && r.outcome == Completed && r.sweep == [] && r.transitions == [] && r.members == g.members
      && (forall x :: x in r.live <==>
            x in NextOf(f) && (x in prev || EntryFor(x, f.links.value, f.users.value, f.streams.value).None?))
  {
    var links, users, streams := f.links.value, f.users.value, f.streams.value;
    var next := NextOf(f);
    SweepNothing(g.members, RuleOf(f));
    MinusCovered(prev, next);
    var ids := Minus(next, prev);
    var es := GoLiveEntries(ids, links, users, streams);
    EntriesCover(ids, links, users, streams);
    forall k | 0 <= k < |es| ensures es[k].discordId !in MemberIds(g.members) {
      assert es[k].discordId in EntryIds(es);
    }
    var p0 := Progress([], g.members, next);
    GoLiveAbsentMembers(p0, es, g);
    GoLiveTrace(p0, es, g);
  }

  /** A second pass over the same answers, starting from what the first left,
      issues no action and keeps the members and the live set. */
  lemma Idempotence(prev: seq<MemberId>, g: Guild, f: Fetched)
    requires g.rosterFetchOk && Consistent(g, f) && LiveHeld(prev, g.members)
    requires Reconciled(Pass(prev, g, f).outcome)
    ensures var r := Pass(prev, g, f);
      var r2 := Pass(r.live, g.(members := r.members), f);
      && r2.outcome == r.outcome
      && r2.sweep == [] && r2.transitions == []
      && r2.members == r.members
      && (forall x :: x in r2.live <==> x in r.live)
  {
    if Pass(prev, g, f).outcome == Completed {
      CompletedIdempotent(prev, g, f);
    } else {
      var r := Pass(prev, g, f);
      Convergence(prev, g, f);
      SweepNothing(r.members, StripAll);
    }
  }

  /** `Idempotence` for a first pass that completed. */
  lemma CompletedIdempotent(prev: seq<MemberId>, g: Guild, f: Fetched)
    requires g.rosterFetchOk && Consistent(g, f) && LiveHeld(prev, g.members)
    requires Pass(prev, g, f).outcome == Completed
    ensures var r := Pass(prev, g, f);
      var r2 := Pass(r.live, g.(members := r.members), f);
      && r2.outcome == Completed
      && r2.sweep == [] && r2.transitions == []
      && r2.members == r.members
      && (forall x :: x in r2.live <==> x in r.live)
  {
    var r := Pass(prev, g, f);
    var g2 := g.(members := r.members);
    Convergence(prev, g, f);
    CompletedPass(prev, g, f);
    var links, users, streams := f.links.value, f.users.value, f.streams.value;
    var next := NextOf(f);
    forall j | 0 <= j < |r.members| ensures !SweptAway(r.members[j], RuleOf(f)) {
      if r.members[j].hasRole {
        LiveNotStripped(links, users, streams, r.members[j].id);
      }
    }
    forall x | x in next && x !in r.live
      ensures x !in MemberIds(r.members) && EntryFor(x, links, users, streams).Some?
    {
      LiveNotStripped(links, users, streams, x);
    }
    QuietPass(r.live, g2, f);
  }

  // ---------------------------------------------------------------------
  // The pass as written

  /** As written, a pass never grants the role, never notifies and never
      grows the live set: every action it issues is a removal. */
  lemma AsWrittenNeverGrants(prev: seq<MemberId>, g: Guild, f: Fetched)
    ensures var r := PassAsWritten(prev, g, f);
      && (forall x :: x in r.live ==> x in prev)
      && (forall a :: a in r.sweep ==> a.RemoveRole?)
      && (forall a :: a in r.transitions ==> a.RemoveRole?)
  {
    var stage := Prepare(prev, g, f);
    var r := PassAsWritten(prev, g, f);
    SweepRemovesOnly(g.members, StripAll);
    if stage.Diffed? {
      SweepRemovesOnly(g.members, RuleOf(f));
      assert r.sweep == stage.sweep;
    }
    if stage.Diffed? && Minus(stage.next, prev) == [] && AllLinked(Minus(prev, stage.next), stage.links) {
      forall x | x in stage.next ensures x in prev {
        assert x !in Minus(stage.next, prev);
      }
      var es := GoLiveEntries(Minus(stage.next, prev), stage.links, stage.users, stage.streams);
      assert es == [];
      GoOfflineTrace(Progress([], stage.members, stage.next), Minus(prev, stage.next));
    }
  }

  lemma {:induction false} SweepRemovesOnly(ms: seq<Member>, rule: SweepRule)
    ensures forall a :: a in SweepActions(ms, rule) ==> a.RemoveRole?
  {
    if ms != [] {
      SweepRemovesOnly(ms[..|ms| - 1], rule);
    }
  }

  /** As written, a pass in which some member is newly live stops before the
      live set is replaced: nothing is granted, nothing is revoked. */
  lemma AsWrittenAbortsOnNewlyLive(prev: seq<MemberId>, g: Guild, f: Fetched, x: MemberId)
    requires g.found && g.liveRoleFound && Answered(f) && f.links.value != [] && f.users.value != []
    requires x in NextOf(f) && x !in prev
    ensures PassAsWritten(prev, g, f).outcome == StreamInfoUndeclared
    ensures PassAsWritten(prev, g, f).live == prev && PassAsWritten(prev, g, f).transitions == []
  {
    assert x in Minus(NextOf(f), prev);
  }

  /** With the go-live list built as intended, a fetched member whose link
      is newly live ends the pass holding the role and in the live set. */
  lemma NewlyLiveMemberGetsRole(prev: seq<MemberId>, g: Guild, f: Fetched, j: nat)
    requires Consistent(g, f) && Pass(prev, g, f).outcome == Completed
    requires Answered(f) && j < |g.members| && g.members[j].id in NextOf(f) && g.members[j].id !in prev
    ensures |Pass(prev, g, f).members| == |g.members|
    ensures Pass(prev, g, f).members[j].hasRole
    ensures g.members[j].id in Pass(prev, g, f).live
  {
    var x := g.members[j].id;
    var next := NextOf(f);
    var es := EntriesOf(prev, f);
    CompletedPass(prev, g, f);
    LiveNotStripped(f.links.value, f.users.value, f.streams.value, x);
    EntriesCover(Minus(next, prev), f.links.value, f.users.value, f.streams.value);
    assert x in Minus(next, prev);
    assert x in EntryIds(es);
    assert x !in Minus(prev, next);
    assert x in MemberIds(g.members);
    var ms1 := SweepIfFetched(g, RuleOf(f)).1;
    assert ms1[j].id == x by {
      assert MemberIds(ms1)[j] == MemberIds(g.members)[j];
    }
  }

  /** A previously live id whose link was deleted makes every pass stop before
      the live set is replaced, so the pass that follows meets it again. */
  lemma OfflineLinkMissingIsSticky(prev: seq<MemberId>, g: Guild, f: Fetched, x: MemberId)
    requires g.found && g.liveRoleFound && Answered(f) && f.links.value != [] && f.users.value != []
    requires x in prev && FindLink(f.links.value, x).None?
    ensures Pass(prev, g, f).outcome == OfflineLinkMissing
    ensures Pass(prev, g, f).live == prev && Pass(prev, g, f).transitions == []
  {
    var links := f.links.value;
    var next := NextOf(f);
    NextLiveExactly(links, f.users.value, LiveUserIds(f.streams.value));
    assert x !in next;
    var offline := Minus(prev, next);
    assert x in offline;
    var k :| 0 <= k < |offline| && offline[k] == x;
    assert !AllLinked(offline, links);
  }

  // ---------------------------------------------------------------------
  // The notification

  /** The thumbnail template's placeholders become 400 by 225 pixels. */
  lemma ThumbnailSized(m: Member, login: string, s: StreamRecord, a: string, b: string, c: string)
    requires s.thumbnailUrl == a + "{width}" + b + "{height}" + c
    requires '{' !in a && '{' !in b
    ensures LiveEmbed(m, login, Some(s)).image == Some(a + "400" + b + "225" + c)
  {
    assert a + "{width}" + b + "{height}" + c == a + "{width}" + (b + "{height}" + c);
    Text.ReplaceFirstAt(a, "{width}", b + "{height}" + c, "400");
    assert a + "400" + (b + "{height}" + c) == (a + "400" + b) + "{height}" + c;
    assert '{' !in a + "400" + b;
    Text.ReplaceFirstAt(a + "400" + b, "{height}", c, "225");
  }

  /** The notification links to the channel; the viewer count, when Twitch
      gave one, is written in decimal and reads back as the same number;
      without stream details the only field is the link. */
  lemma EmbedReadsBack(m: Member, login: string, info: Option<StreamRecord>)
    ensures LiveEmbed(m, login, info).url == "https://twitch.tv/" + login
    ensures info.None? ==> LiveEmbed(m, login, info).fields == [EmbedField("Go Watch!", "https://twitch.tv/" + login, false)]
    ensures info.Some? ==>
      var e := LiveEmbed(m, login, info);
      && |e.fields| >= 2
      && e.fields[0] == EmbedField("Stream Title", info.value.title, false)
      && e.fields[1] == EmbedField("Game/Category", if info.value.gameName != "" then info.value.gameName else "Not specified", true)
      && (|e.fields| == 2 <==> info.value.viewerCount.None?)
    ensures info.Some? && info.value.viewerCount.Some? ==>
      var e := LiveEmbed(m, login, info);
      && |e.fields| == 3 && e.fields[2].name == "Viewers"
      && Text.AllDigits(e.fields[2].value)
      && Text.DigitsValue(e.fields[2].value) == info.value.viewerCount.value
  {
    if info.Some? && info.value.viewerCount.Some? {
      Text.DecimalRoundTrip(info.value.viewerCount.value);
    }
  }

  // ---------------------------------------------------------------------
  // Two concrete guilds

  /** One member, not holding the role, linked to login `stored`; Twitch knows
      the login "syn", which is live. */
  function OneStreamer(hasRole: bool): Guild
  {
    Guild(true, true, true, false, true, [Member("42", "Syn", "syn", "", hasRole)])
  }

  function OneAnswer(stored: string): Fetched
  {
    Fetched(Ok([Link("42", stored)]), Ok([TwitchUser("7", "syn")]),
            Ok([StreamRecord("7", "Just chatting", "", None, "")]))
  }

  const OneStream: StreamRecord := StreamRecord("7", "Just chatting", "", None, "")

  lemma OneAnswerLive(stored: string)
    requires stored == "syn" || stored == "Syn"
    ensures NextOf(OneAnswer(stored)) == ["42"]
    ensures EntryFor("42", [Link("42", stored)], [TwitchUser("7", "syn")], [OneStream])
            == Some(GoLiveEntry("42", stored, Some(OneStream)))
  {
    var f := OneAnswer(stored);
    var liveIds := LiveUserIds(f.streams.value);
    assert "7" in liveIds by {
      assert f.streams.value[0].userId == "7";
    }
    assert Text.LowerStr(stored) == "syn" by {
      assert |Text.LowerStr(stored)| == 3;
    }
    assert Text.LowerStr("syn") == "syn" by {
      assert |Text.LowerStr("syn")| == 3;
    }
    assert LoweredLogins(f.users.value) == ["syn"];
    assert LinkIds(f.links.value) == ["42"];
    assert StreamUserIds(f.streams.value) == ["7"];
    assert LinkIsLive(Link("42", stored), f.users.value, liveIds);
    assert f.links.value[..0] == [];
  }

  lemma OneAnswerSweep(stored: string, hasRole: bool)
    requires stored == "syn" || stored == "Syn"
    ensures SweepIfFetched(OneStreamer(hasRole), RuleOf(OneAnswer(stored)))
            == if hasRole && stored == "Syn" then ([RemoveRole("42")], OneStreamer(false).members)
               else ([], OneStreamer(hasRole).members)
  {
    var f := OneAnswer(stored);
    var ms := OneStreamer(hasRole).members;
    assert LinkIds(f.links.value) == ["42"];
    assert Logins(f.users.value) == ["syn"];
    assert "7" in LiveUserIds(f.streams.value) by {
      assert f.streams.value[0].userId == "7";
    }
    assert ms[..0] == [];
    assert SweepMembers(ms, RuleOf(f)) == [Swept(ms[0], RuleOf(f))];
    if stored == "Syn" {
      assert IndexOf(Logins(f.users.value), stored) == None;
      assert Strips(RuleOf(f), "42");
      if hasRole {
        assert SweepActions(ms, RuleOf(f)) == [RemoveRole("42")];
        assert Swept(ms[0], RuleOf(f)) == OneStreamer(false).members[0];
      } else {
        assert SweepActions(ms, RuleOf(f)) == [];
      }
    } else {
      assert IndexOf(Logins(f.users.value), stored) == Some(0);
      assert !Strips(RuleOf(f), "42");
      assert SweepActions(ms, RuleOf(f)) == [];
      assert Swept(ms[0], RuleOf(f)) == ms[0];
    }
  }

  /** As written, a member who starts streaming gets nothing. */
  lemma AsWrittenMissesNewStreamer()
    ensures PassAsWritten([], OneStreamer(false), OneAnswer("syn")).outcome == StreamInfoUndeclared
    ensures PassAsWritten([], OneStreamer(false), OneAnswer("syn")).live == []
    ensures PassAsWritten([], OneStreamer(false), OneAnswer("syn")).sweep == []
    ensures PassAsWritten([], OneStreamer(false), OneAnswer("syn")).transitions == []
  {
    OneAnswerLive("syn");
    OneAnswerSweep("syn", false);
    assert ["42"][..0] == [];
  }

  /** Go-live for the only member of a guild with just the environment
      channel: the role is granted and one notification sent. */
  lemma GrantSole(p: Progress, e: GoLiveEntry, g: Guild)
    requires |p.members| == 1 && p.members[0].id == e.discordId && !p.members[0].hasRole
    requires g.envChannel && !g.additionalChannel
    ensures GoLiveAll(p, [e], g)
            == p.(actions := p.actions + [AddRole(e.discordId), Notify(EnvChannel, LiveEmbed(p.members[0], e.twitchUsername, e.streamInfo))],
                  members := [p.members[0].(hasRole := true)])
  {
    assert MemberIds(p.members) == [e.discordId];
    assert FindMember(p.members, e.discordId) == Some(0);
    assert [e][..0] == [];
    assert GoLiveAll(p, [e], g) == GoLiveStep(p, e, g);
  }

  /** The diff of a first pass over `OneStreamer(false)`: nothing swept, "42" newly live. */
  lemma FirstPassStage(stored: string)
    requires stored == "syn" || stored == "Syn"
    ensures Prepare([], OneStreamer(false), OneAnswer(stored))
            == Diffed([Link("42", stored)], [TwitchUser("7", "syn")], [OneStream], [], OneStreamer(false).members, ["42"])
  {
    OneAnswerLive(stored);
    OneAnswerSweep(stored, false);
  }

  lemma FirstGoLiveEntries(stored: string)
    requires stored == "syn" || stored == "Syn"
    ensures GoLiveEntries(["42"], [Link("42", stored)], [TwitchUser("7", "syn")], [OneStream])
            == [GoLiveEntry("42", stored, Some(OneStream))]
  {
    OneAnswerLive(stored);
  }

  /** The go-live loop of that first pass: role granted, one notification. */
  lemma FirstGoLive(stored: string)
    ensures var g := OneStreamer(false);
      GoLiveAll(Progress([], g.members, ["42"]), [GoLiveEntry("42", stored, Some(OneStream))], g)
      == Progress([AddRole("42"), Notify(EnvChannel, LiveEmbed(g.members[0], stored, Some(OneStream)))],
                  OneStreamer(true).members, ["42"])
  {
    var g := OneStreamer(false);
    var p0 := Progress([], g.members, ["42"]);
    GrantSole(p0, GoLiveEntry("42", stored, Some(OneStream)), g);
    var embed := LiveEmbed(g.members[0], stored, Some(OneStream));
    var p1 := p0.(actions := p0.actions + [AddRole("42"), Notify(EnvChannel, embed)], members := [g.members[0].(hasRole := true)]);
    assert p1.actions == [AddRole("42"), Notify(EnvChannel, embed)];
    assert p1.members == OneStreamer(true).members;
  }

  /** The rest of that first pass: one go-live entry and nobody going offline. */
  lemma FirstPassConverge(stored: string)
    requires stored == "syn" || stored == "Syn"
    ensures var g := OneStreamer(false);
      Converge([], g, Diffed([Link("42", stored)], [TwitchUser("7", "syn")], [OneStream], [], g.members, ["42"]))
      == PassResult(Completed, [], [AddRole("42"), Notify(EnvChannel, LiveEmbed(g.members[0], stored, Some(OneStream)))],
                    ["42"], OneStreamer(true).members)
  {
    OneAnswerLive(stored);
    assert Minus([], ["42"]) == [];
    assert Minus(["42"], []) == ["42"] by {
      assert ["42"][..0] == [];
    }
    FirstGoLiveEntries(stored);
    FirstGoLive(stored);
    var g := OneStreamer(false);
    var p1 := GoLiveAll(Progress([], g.members, ["42"]), [GoLiveEntry("42", stored, Some(OneStream))], g);
    assert GoOfflineAll(p1, []) == p1;
  }

  /** The intended first pass for a login `stored` matching "syn" ignoring
      case: the member gets the role and one notification. */
  lemma FirstPassGrants(stored: string)
    requires stored == "syn" || stored == "Syn"
    ensures Pass([], OneStreamer(false), OneAnswer(stored)).outcome == Completed
    ensures Pass([], OneStreamer(false), OneAnswer(stored)).live == ["42"]
    ensures Pass([], OneStreamer(false), OneAnswer(stored)).members == OneStreamer(true).members
    ensures Pass([], OneStreamer(false), OneAnswer(stored)).transitions
            == [AddRole("42"), Notify(EnvChannel, LiveEmbed(OneStreamer(false).members[0], stored, Some(OneStream)))]
  {
    FirstPassStage(stored);
    FirstPassConverge(stored);
  }

  /** A login stored as "Syn" while Twitch reports "syn": the member granted
      the role by the case-insensitive go-live match loses it to the next
      pass's exact-case sweep, while the id stays in the live set. The pass
      after that starts from exactly the state it leaves (live set ["42"],
      member without the role), so no later pass gives the role back while
      the stream lasts. */
  lemma CaseMismatchStripsLiveMember()
    ensures !ExactCase(OneAnswer("Syn").links.value, OneAnswer("Syn").users.value)
    ensures Pass(["42"], OneStreamer(true), OneAnswer("Syn")).outcome == Completed
    ensures Pass(["42"], OneStreamer(true), OneAnswer("Syn")).sweep == [RemoveRole("42")]
    ensures Pass(["42"], OneStreamer(true), OneAnswer("Syn")).transitions == []
    ensures Pass(["42"], OneStreamer(true), OneAnswer("Syn")).live == ["42"]
    ensures Pass(["42"], OneStreamer(true), OneAnswer("Syn")).members == OneStreamer(false).members
    ensures Pass(["42"], OneStreamer(false), OneAnswer("Syn")).outcome == Completed
    ensures Pass(["42"], OneStreamer(false), OneAnswer("Syn")).transitions == []
    ensures Pass(["42"], OneStreamer(false), OneAnswer("Syn")).live == ["42"]
    ensures Pass(["42"], OneStreamer(false), OneAnswer("Syn")).members == OneStreamer(false).members
  {
    assert Text.LowerStr("Syn") == Text.LowerStr("syn");
    OneAnswerLive("Syn");
    OneAnswerSweep("Syn", true);
    OneAnswerSweep("Syn", false);
    assert ["42"][..0] == [];
    assert Minus(["42"], ["42"]) == [];
  }

  /** The one-streamer answers with the login stored as Twitch spells it
      are consistent, and a live set holding "42" while member 42 lacks the
      role breaks `LiveHeld`. */
  lemma OneAnswerConsistent()
    ensures Consistent(OneStreamer(false), OneAnswer("syn"))
    ensures !LiveHeld(["42"], OneStreamer(false).members)
  {
    var f := OneAnswer("syn");
    assert LinkIds(f.links.value) == ["42"];
    assert OneStreamer(false).members[0].id in ["42"];
  }

  /** The pass from live set ["42"] with member 42 live but without the
      role completes with nothing to do. */
  lemma LostRolePass()
    ensures var r := Pass(["42"], OneStreamer(false), OneAnswer("syn"));
      && r.outcome == Completed && r.transitions == []
      && r.live == ["42"] && r.members == OneStreamer(false).members
  {
    var g, f := OneStreamer(false), OneAnswer("syn");
    OneAnswerLive("syn");
    OneAnswerSweep("syn", false);
    var d := Prepare(["42"], g, f);
    assert d.Diffed? && d.next == ["42"] && d.sweep == [] && d.members == g.members;
    assert ["42"][..0] == [];
    assert Minus(["42"], ["42"]) == [];
    assert Converge(["42"], g, d) == PassResult(Completed, [], [], ["42"], g.members);
    assert Pass(["42"], g, f) == Converge(["42"], g, d);
  }

  /** A member who stays live but lost the role (a moderator removed it, or
      the add at streamChecker.mjs:255-257 failed and was swallowed) does not
      get it back: the data are consistent, yet the pass grants only to ids
      that are newly live, so it completes with no transition and the role
      still missing. This is why `Convergence` and `Idempotence` ask that
      every previously live member still holds the role. */
  lemma LostRoleNotRestored()
    ensures Consistent(OneStreamer(false), OneAnswer("syn"))
    ensures !LiveHeld(["42"], OneStreamer(false).members)
    ensures var r := Pass(["42"], OneStreamer(false), OneAnswer("syn"));
      && r.outcome == Completed && r.transitions == []
      && r.live == ["42"] && !RoleMatchesLive(r.live, r.members)
  {
    OneAnswerConsistent();
    LostRolePass();
    var r := Pass(["42"], OneStreamer(false), OneAnswer("syn"));
    assert r.members[0].id in r.live && !r.members[0].hasRole;
  }
}
