/** Properties of the wheel bot that relate several handlers or a whole
    sequence of updates. */
module WheelBotProps {
  import opened Optional
  import Text
  import opened Lottery
  import opened Membership
  import opened WheelBot

  // -------------------------------------------------------------- invariant

  /** What the handlers keep true of the state:
      - the current round is at least 1 (the seeded config starts at 1);
      - no user's round is ahead of the current round;
      - a user who has played (round above 0) has registered;
      - a user asked for a phone has none stored yet;
      - a user asked for a name has a phone stored. */
  ghost predicate Inv(s: State) {
    && s.config.currentRound >= 1
    && (forall u :: u in s.users ==> s.users[u].round <= s.config.currentRound)
    && (forall u :: u in s.users && s.users[u].round > 0 ==> Registered(s.users[u]))
    && (forall u :: StageOf(s, u) == AwaitingPhone ==> RecordOf(s, u).phone.None?)
    && (forall u :: StageOf(s, u) == AwaitingName ==> RecordOf(s, u).phone.Some?)
  }

  lemma InitialInv()
    ensures Inv(Initial)
  {
  }

  lemma SpinPreservesInv(s: State, uid: UserId, lookup: Lookup, ticket: nat)
    requires Inv(s) && TicketFits(s.config.prizes, ticket)
    ensures Inv(Spin(s, uid, lookup, ticket).0)
  {
  }

  lemma ContactPreservesInv(s: State, uid: UserId, sharedUser: Option<UserId>, phone: string, adminPhone: string)
    requires Inv(s)
    ensures Inv(Contact(s, uid, sharedUser, phone, adminPhone).0)
  {
  }

  /** A change to one user's record and stage keeps the invariant when the
      new record and stage are consistent with it. */
  lemma OneUserChangeKeepsInv(s: State, t: State, uid: UserId)
    requires Inv(s) && OthersUnchanged(s, t, uid) && t.config == s.config
    requires RecordOf(t, uid).round <= t.config.currentRound
    requires RecordOf(t, uid).round > 0 ==> Registered(RecordOf(t, uid))
    requires StageOf(t, uid) == AwaitingPhone ==> RecordOf(t, uid).phone.None?
    requires StageOf(t, uid) == AwaitingName ==> RecordOf(t, uid).phone.Some?
    ensures Inv(t)
  {
    forall u | u in t.users ensures t.users[u].round <= t.config.currentRound {
      if u != uid { assert u in s.users; } else { assert RecordOf(t, u) == t.users[u]; }
    }
    forall u | u in t.users && t.users[u].round > 0 ensures Registered(t.users[u]) {
      if u != uid { assert u in s.users; } else { assert RecordOf(t, u) == t.users[u]; }
    }
    forall u | StageOf(t, u) == AwaitingPhone ensures RecordOf(t, u).phone.None? {
      if u != uid { assert StageOf(s, u) == AwaitingPhone; }
    }
    forall u | StageOf(t, u) == AwaitingName ensures RecordOf(t, u).phone.Some? {
      if u != uid { assert StageOf(s, u) == AwaitingName; }
    }
  }

  lemma RegNamePreservesInv(s: State, uid: UserId, text: string)
    requires Inv(s)
    ensures Inv(RegName(s, uid, text).0)
  {
    var (t, o) := RegName(s, uid, text);
    if o == NameSaved {
      assert RecordOf(t, uid) == RecordOf(s, uid).(name := Some(Text.Strip(text)));
      OneUserChangeKeepsInv(s, t, uid);
    }
  }

  /** The admin commands touch neither records nor stages, and the round
      only moves up. */
  lemma SameUsersKeepInv(s: State, t: State)
    requires Inv(s)
    requires t.users == s.users && t.stages == s.stages
    requires s.config.currentRound <= t.config.currentRound
    ensures Inv(t)
  {
    forall u ensures StageOf(t, u) == StageOf(s, u) && RecordOf(t, u) == RecordOf(s, u) {
    }
  }

  /** Every handler keeps the invariant. */
  lemma StepPreservesInv(s: State, ev: Event, adminPhone: string)
    requires Inv(s) && EventFits(s.config.prizes, ev)
    ensures Inv(Step(s, ev, adminPhone).0)
  {
    match ev
    case SpinCmd(uid, lookup, ticket) => SpinPreservesInv(s, uid, lookup, ticket);
    case AdminCmd(uid) => SameUsersKeepInv(s, AdminPanel(s, uid, adminPhone).0);
    case NextRoundCmd(uid) => SameUsersKeepInv(s, NextRound(s, uid, adminPhone).0);
    case ContactMsg(uid, shared, phone) => ContactPreservesInv(s, uid, shared, phone, adminPhone);
    case TextMsg(uid, text) => RegNamePreservesInv(s, uid, text);
  }

  /** The invariant holds after any number of updates. */
  lemma {:induction false} InvAlongTrace(s: State, evs: seq<Event>, adminPhone: string, k: nat)
    requires Inv(s) && AllEventsFit(s.config.prizes, evs) && k <= |evs|
    ensures Inv(StateAt(s, evs, adminPhone, k))
  {
    if k > 0 {
      InvAlongTrace(s, evs, adminPhone, k - 1);
      StepPreservesInv(StateAt(s, evs, adminPhone, k - 1), evs[k - 1], adminPhone);
    }
  }

  // ------------------------------------------------------------- monotonicity

  /** `b` is a later state than `a`: same catalog and channel, no smaller
      round, no fewer admins, and every user of `a` still there with no
      smaller round and no lost phone or name. */
  ghost predicate Grown(a: State, b: State) {
    && a.config.prizes == b.config.prizes
    && a.config.channel == b.config.channel
    && a.config.currentRound <= b.config.currentRound
    && a.admins <= b.admins
    && (forall u :: u in a.users ==> u in b.users && RecordGrown(a.users[u], b.users[u]))
  }

  /** A record's later version: no smaller round, no lost phone or name. */
  predicate RecordGrown(a: UserRecord, b: UserRecord) {
    && a.round <= b.round
    && (a.phone.Some? ==> b.phone.Some?)
    && (a.name.Some? ==> b.name.Some?)
  }

  lemma GrownTrans(a: State, b: State, c: State)
    requires Grown(a, b) && Grown(b, c)
    ensures Grown(a, c)
  {
  }

  lemma StepGrows(s: State, ev: Event, adminPhone: string)
    requires EventFits(s.config.prizes, ev)
    ensures Grown(s, Step(s, ev, adminPhone).0)
  {
  }

  /** Along any sequence of updates, later states have grown from earlier
      ones. */
  lemma {:induction false} TraceGrows(s: State, evs: seq<Event>, adminPhone: string, i: nat, j: nat)
    requires AllEventsFit(s.config.prizes, evs) && i <= j <= |evs|
    ensures Grown(StateAt(s, evs, adminPhone, i), StateAt(s, evs, adminPhone, j))
    decreases j - i
  {
    if i < j {
      var si := StateAt(s, evs, adminPhone, i);
      StepGrows(si, evs[i], adminPhone);
      TraceGrows(s, evs, adminPhone, i + 1, j);
      GrownTrans(si, StateAt(s, evs, adminPhone, i + 1), StateAt(s, evs, adminPhone, j));
    }
  }

  // ----------------------------------------------------------- one per round

  /** Right after a win, the same user's next spin is not a win and changes
      no record; a member is told they already played. */
  lemma SecondSpinRejected(s: State, uid: UserId, l1: Lookup, t1: nat, l2: Lookup, t2: nat)
    requires TicketFits(s.config.prizes, t1) && TicketFits(s.config.prizes, t2)
    requires Spin(s, uid, l1, t1).1.Won?
    ensures var s1 := Spin(s, uid, l1, t1).0;
            && !Spin(s1, uid, l2, t2).1.Won?
            && Spin(s1, uid, l2, t2).0.users == s1.users
            && (IsMember(s.config.channel, l2) ==> Spin(s1, uid, l2, t2).1 == AlreadyPlayed)
  {
  }

  /** Update `k` of `evs` is a spin by `uid` that won. */
  predicate WonAt(s: State, evs: seq<Event>, adminPhone: string, uid: UserId, k: nat)
    requires AllEventsFit(s.config.prizes, evs) && k < |evs|
  {
    evs[k].SpinCmd? && evs[k].uid == uid && ReplyAt(s, evs, adminPhone, k).SpinReply?
    && ReplyAt(s, evs, adminPhone, k).spin.Won?
  }

  /** A winning spin needed a recorded round below the current one and
      leaves the user's round at the current one. */
  lemma WinRecordsRound(s: State, ev: Event, adminPhone: string)
    requires EventFits(s.config.prizes, ev) && ev.SpinCmd?
    requires Step(s, ev, adminPhone).1.SpinReply? && Step(s, ev, adminPhone).1.spin.Won?
    ensures RecordOf(s, ev.uid).round < s.config.currentRound
    ensures ev.uid in Step(s, ev, adminPhone).0.users
    ensures Step(s, ev, adminPhone).0.users[ev.uid].round == s.config.currentRound
  {
    assert Step(s, ev, adminPhone).1 == SpinReply(Spin(s, ev.uid, ev.lookup, ev.ticket).1);
  }

  /** One draw per round: between two wins of the same user the round has
      moved on. */
  lemma WinsNeedNewRound(s: State, evs: seq<Event>, adminPhone: string, uid: UserId, i: nat, j: nat)
    requires AllEventsFit(s.config.prizes, evs) && i < j < |evs|
    requires WonAt(s, evs, adminPhone, uid, i) && WonAt(s, evs, adminPhone, uid, j)
    ensures StateAt(s, evs, adminPhone, i).config.currentRound < StateAt(s, evs, adminPhone, j).config.currentRound
  {
    var si := StateAt(s, evs, adminPhone, i);
    var si1 := StateAt(s, evs, adminPhone, i + 1);
    var sj := StateAt(s, evs, adminPhone, j);
    assert si1 == Step(si, evs[i], adminPhone).0;
    WinRecordsRound(si, evs[i], adminPhone);
    WinRecordsRound(sj, evs[j], adminPhone);
    TraceGrows(s, evs, adminPhone, i + 1, j);
    assert RecordGrown(si1.users[uid], sj.users[uid]);
  }

  // -------------------------------------------------------------- round gate

  /** The number of rounds started by the first `k` updates. */
  function RoundsStarted(s: State, evs: seq<Event>, adminPhone: string, k: nat): nat
    requires AllEventsFit(s.config.prizes, evs) && k <= |evs|
  {
    if k == 0 then 0
    else RoundsStarted(s, evs, adminPhone, k - 1) + (if StartsRound(ReplyAt(s, evs, adminPhone, k - 1)) then 1 else 0)
  }

  /** The round counter only moves by admins' `/next_round`: after `k`
      updates it has gone up by exactly the number of rounds started. */
  lemma {:induction false} RoundCountsAdvances(s: State, evs: seq<Event>, adminPhone: string, k: nat)
    requires AllEventsFit(s.config.prizes, evs) && k <= |evs|
    ensures StateAt(s, evs, adminPhone, k).config.currentRound == s.config.currentRound + RoundsStarted(s, evs, adminPhone, k)
  {
    if k > 0 {
      RoundCountsAdvances(s, evs, adminPhone, k - 1);
      var prev := StateAt(s, evs, adminPhone, k - 1);
      assert StateAt(s, evs, adminPhone, k) == Step(prev, evs[k - 1], adminPhone).0;
    }
  }

  /** Each round started along a trace was started by a `/next_round` from a
      user who was in the admin set right after it. */
  lemma RoundStartedByAdmin(s: State, evs: seq<Event>, adminPhone: string, j: nat)
    requires AllEventsFit(s.config.prizes, evs) && j < |evs|
    requires StartsRound(ReplyAt(s, evs, adminPhone, j))
    ensures evs[j].NextRoundCmd? && evs[j].uid in StateAt(s, evs, adminPhone, j + 1).admins
  {
  }

  /** Starting a round makes a user who played the previous round eligible
      again: a registered member's next spin wins. */
  lemma RoundAdvanceUnlocks(s: State, admin: UserId, adminPhone: string, uid: UserId, lookup: Lookup, ticket: nat)
    requires Inv(s)
    requires NextRound(s, admin, adminPhone).1 != NotAdmin
    requires Registered(RecordOf(s, uid))
    requires IsMember(s.config.channel, lookup)
    requires ticket < TotalWeight(s.config.prizes)
    ensures Spin(NextRound(s, admin, adminPhone).0, uid, lookup, ticket).1.Won?
  {
  }

  // ------------------------------------------------------------ registration

  /** With the invariant, a contact is only ever accepted from a user with no
      phone yet, and a name only from a user who has a phone: registration
      goes phone first, then name. */
  lemma RegistrationOrder(s: State, uid: UserId, sharedUser: Option<UserId>, phone: string, adminPhone: string, text: string)
    requires Inv(s)
    ensures Contact(s, uid, sharedUser, phone, adminPhone).1 == ContactSaved ==> RecordOf(s, uid).phone.None?
    ensures RegName(s, uid, text).1 == NameSaved ==>
              RecordOf(s, uid).phone.Some? && Registered(RegName(s, uid, text).0.users[uid])
  {
  }

  // -------------------------------------------------------------- admin set

  /** Every member of the admin set has a stored phone ending with the admin
      phone. The set starts empty in every process (it is not saved), only
      the two phone checks add to it, and a stored phone is never replaced. */
  ghost predicate AdminsMatch(s: State, adminPhone: string) {
    forall u :: u in s.admins ==>
      RecordOf(s, u).phone.Some? && Text.EndsWith(RecordOf(s, u).phone.value, adminPhone)
  }

  lemma InitialAdminsMatch(adminPhone: string)
    ensures AdminsMatch(Initial, adminPhone)
  {
  }

  /** A saved contact either makes its phone-matching sender an admin or
      leaves the set alone; under `Inv` it never replaces an admin's phone,
      because a user asked for a phone has none. */
  lemma ContactKeepsAdminsMatch(s: State, uid: UserId, sharedUser: Option<UserId>, phone: string, adminPhone: string)
    requires Inv(s) && AdminsMatch(s, adminPhone)
    ensures AdminsMatch(Contact(s, uid, sharedUser, phone, adminPhone).0, adminPhone)
  {
    var (t, o) := Contact(s, uid, sharedUser, phone, adminPhone);
    forall u | u in t.admins
      ensures RecordOf(t, u).phone.Some? && Text.EndsWith(RecordOf(t, u).phone.value, adminPhone)
    {
      if u != uid {
        assert RecordOf(t, u) == RecordOf(s, u);
      }
    }
  }

  /** Adding a user whose stored phone passes the promotion rule, without
      touching any record, keeps `AdminsMatch`. */
  lemma PromotionKeepsAdminsMatch(s: State, t: State, uid: UserId, adminPhone: string)
    requires AdminsMatch(s, adminPhone)
    requires t.users == s.users && t.admins <= s.admins + {uid}
    requires uid in t.admins && uid !in s.admins ==> PhoneMakesAdmin(s, uid, adminPhone)
    ensures AdminsMatch(t, adminPhone)
  {
    forall u | u in t.admins
      ensures RecordOf(t, u).phone.Some? && Text.EndsWith(RecordOf(t, u).phone.value, adminPhone)
    {
      assert RecordOf(t, u) == RecordOf(s, u);
    }
  }

  /** A spin or a name never touches a phone or the admin set. */
  lemma PhonesKeptKeepAdminsMatch(s: State, t: State, adminPhone: string)
    requires AdminsMatch(s, adminPhone)
    requires t.admins == s.admins
    requires forall u :: RecordOf(t, u).phone == RecordOf(s, u).phone
    ensures AdminsMatch(t, adminPhone)
  {
  }

  lemma SpinKeepsAdminsMatch(s: State, uid: UserId, lookup: Lookup, ticket: nat, adminPhone: string)
    requires AdminsMatch(s, adminPhone) && TicketFits(s.config.prizes, ticket)
    ensures AdminsMatch(Spin(s, uid, lookup, ticket).0, adminPhone)
  {
    var t := Spin(s, uid, lookup, ticket).0;
    forall u ensures RecordOf(t, u).phone == RecordOf(s, u).phone {
    }
    PhonesKeptKeepAdminsMatch(s, t, adminPhone);
  }

  lemma RegNameKeepsAdminsMatch(s: State, uid: UserId, text: string, adminPhone: string)
    requires AdminsMatch(s, adminPhone)
    ensures AdminsMatch(RegName(s, uid, text).0, adminPhone)
  {
    var t := RegName(s, uid, text).0;
    forall u ensures RecordOf(t, u).phone == RecordOf(s, u).phone {
    }
    PhonesKeptKeepAdminsMatch(s, t, adminPhone);
  }

  lemma AdminPanelKeepsAdminsMatch(s: State, uid: UserId, adminPhone: string)
    requires AdminsMatch(s, adminPhone)
    ensures AdminsMatch(AdminPanel(s, uid, adminPhone).0, adminPhone)
  {
    PromotionKeepsAdminsMatch(s, AdminPanel(s, uid, adminPhone).0, uid, adminPhone);
  }

  lemma NextRoundKeepsAdminsMatch(s: State, uid: UserId, adminPhone: string)
    requires AdminsMatch(s, adminPhone)
    ensures AdminsMatch(NextRound(s, uid, adminPhone).0, adminPhone)
  {
    PromotionKeepsAdminsMatch(s, NextRound(s, uid, adminPhone).0, uid, adminPhone);
  }

  /** Every handler keeps `AdminsMatch`. */
  lemma StepKeepsAdminsMatch(s: State, ev: Event, adminPhone: string)
    requires Inv(s) && AdminsMatch(s, adminPhone) && EventFits(s.config.prizes, ev)
    ensures AdminsMatch(Step(s, ev, adminPhone).0, adminPhone)
  {
    var t := Step(s, ev, adminPhone).0;
    match ev
    case SpinCmd(uid, lookup, ticket) =>
      assert t == Spin(s, uid, lookup, ticket).0;
      SpinKeepsAdminsMatch(s, uid, lookup, ticket, adminPhone);
    case AdminCmd(uid) =>
      assert t == AdminPanel(s, uid, adminPhone).0;
      AdminPanelKeepsAdminsMatch(s, uid, adminPhone);
    case NextRoundCmd(uid) =>
      assert t == NextRound(s, uid, adminPhone).0;
      NextRoundKeepsAdminsMatch(s, uid, adminPhone);
    case ContactMsg(uid, shared, phone) =>
      assert t == Contact(s, uid, shared, phone, adminPhone).0;
      ContactKeepsAdminsMatch(s, uid, shared, phone, adminPhone);
    case TextMsg(uid, text) =>
      assert t == RegName(s, uid, text).0;
      RegNameKeepsAdminsMatch(s, uid, text, adminPhone);
  }

  /** Along any run from a state satisfying `Inv` and `AdminsMatch` (such as
      `Initial`), every admin's phone ends with the admin phone. */
  lemma {:induction false} AdminsMatchAlongTrace(s: State, evs: seq<Event>, adminPhone: string, k: nat)
    requires Inv(s) && AdminsMatch(s, adminPhone) && AllEventsFit(s.config.prizes, evs) && k <= |evs|
    ensures AdminsMatch(StateAt(s, evs, adminPhone, k), adminPhone)
  {
    if k > 0 {
      AdminsMatchAlongTrace(s, evs, adminPhone, k - 1);
      InvAlongTrace(s, evs, adminPhone, k - 1);
      StepKeepsAdminsMatch(StateAt(s, evs, adminPhone, k - 1), evs[k - 1], adminPhone);
    }
  }

  /** Every round started along such a run was started by a `/next_round`
      from a user whose stored phone ends with the admin phone. */
  lemma RoundStartedByAdminPhone(s: State, evs: seq<Event>, adminPhone: string, j: nat)
    requires Inv(s) && AdminsMatch(s, adminPhone) && AllEventsFit(s.config.prizes, evs) && j < |evs|
    requires StartsRound(ReplyAt(s, evs, adminPhone, j))
    ensures evs[j].NextRoundCmd?
    ensures var phone := RecordOf(StateAt(s, evs, adminPhone, j), evs[j].uid).phone;
            phone.Some? && Text.EndsWith(phone.value, adminPhone)
  {
    var sj := StateAt(s, evs, adminPhone, j);
    RoundStartedByAdmin(s, evs, adminPhone, j);
    AdminsMatchAlongTrace(s, evs, adminPhone, j + 1);
    assert StateAt(s, evs, adminPhone, j + 1) == Step(sj, evs[j], adminPhone).0;
    assert StateAt(s, evs, adminPhone, j + 1).users == sj.users;
  }
}
