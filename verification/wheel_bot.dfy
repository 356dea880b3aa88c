/** The conversation and lottery engine of the prize-wheel bot.

    Each handler is a pure transition from the bot's in-memory state to a new
    state and an outcome (which reply the user gets). Writing the users file
    or the config file after a change is the new state replacing the old one
    as a whole. The answers of the outside world are inputs: the platform's
    answer to the channel-membership query, the random draw (as a ticket, see
    module Lottery) and the admin phone from the environment. */
module WheelBot {
  import opened Optional
  import opened Text
  import opened Lottery
  import opened Membership

  /** A Telegram user id. The users file keys records by the decimal string of
      the id, which names each id exactly once, so the model keys them by the
      id itself. */
  type UserId = int

  /** The admin phone used when the environment does not set one. */
  const DefaultAdminPhone: string := "989366582052"

  // ------------------------------------------------------------------ state

  /** A user's record in the users file. `phone` and `name` are present or
      absent keys; a missing `round` key reads as 0, which is the only way
      the bot reads it, so the model stores 0 for it. */
  datatype UserRecord = UserRecord(phone: Option<string>, name: Option<string>, round: int)

  const NewRecord: UserRecord := UserRecord(None, None, 0)

  /** Both registration steps are done. */
  predicate Registered(rec: UserRecord) {
    rec.phone.Some? && rec.name.Some?
  }

  /** The config file: the prize catalog, the round in progress, and the
      channel users must have joined (`null` in the file is `None`). */
  datatype Config = Config(prizes: seq<Prize>, currentRound: int, channel: Option<string>)

  /** The config the bot writes when it finds no config file: five prizes of
      weight 1, round 1, channel `@mighnatis`. */
  const DefaultConfig: Config := Config(
    [ Prize("🎁 تخفیف 10٪", 1),
      Prize("💰 ۵۰ هزار تومان", 1),
      Prize("❌ هیچی برنده نشدی", 1),
      Prize("🔁 دوباره امتحان کن", 1),
      Prize("🏆 جایزه ویژه", 1) ],
    1,
    Some("@mighnatis"))

  /** Where a user is in the registration conversation; Python's `None`
      stage, or no stage at all, is `Idle`. */
  datatype Stage = Idle | AwaitingPhone | AwaitingName

  /** The whole in-memory state: the config file, the users file, the
      per-user conversation stage and the set of ids confirmed as admins
      since the process started. */
  datatype State = State(
    config: Config,
    users: map<UserId, UserRecord>,
    stages: map<UserId, Stage>,
    admins: set<UserId>)

  /** A fresh installation: default config, no users, no conversations, no
      admins. */
  const Initial: State := State(DefaultConfig, map[], map[], {})

  /** `users.get(uid, {})`. */
  function RecordOf(s: State, uid: UserId): UserRecord {
    if uid in s.users then s.users[uid] else NewRecord
  }

  /** `context.user_data.get("stage")`. */
  function StageOf(s: State, uid: UserId): Stage {
    if uid in s.stages then s.stages[uid] else Idle
  }

  /** Every user other than `uid` has the same record (or the same absence
      of one) and the same stage in `b` as in `a`. */
  ghost predicate OthersUnchanged(a: State, b: State, uid: UserId) {
    && (forall u :: u != uid ==> (u in a.users <==> u in b.users))
    && (forall u :: u != uid && u in a.users ==> b.users[u] == a.users[u])
    && (forall u :: u != uid ==> StageOf(b, u) == StageOf(a, u))
  }

  /** Writing one user's record and stage leaves everybody else alone. */
  lemma UpdateKeepsOthers(s: State, uid: UserId, rec: UserRecord, stage: Stage, admins: set<UserId>)
    ensures OthersUnchanged(s, State(s.config, s.users[uid := rec], s.stages[uid := stage], admins), uid)
  {
  }

  // ------------------------------------------------------------------- spin

  /** What `/spin` answers. `DrawFailed` is `random.choices` raising because
      the weights sum to 0 (or the catalog is empty): the handler stops
      before changing anything. */
  datatype SpinOutcome =
    | JoinChannel
    | AskPhone
    | AskName
    | AlreadyPlayed
    | DrawFailed
    | Won(prize: string)

  /** The ticket comes from `random() * total`, so it lies below the total
      whenever there is a total to draw from. */
  predicate TicketFits(prizes: seq<Prize>, ticket: nat) {
    TotalWeight(prizes) == 0 || ticket < TotalWeight(prizes)
  }

  /** The user may draw: a registered user whose recorded round is below the
      current round. */
  predicate MayDraw(s: State, uid: UserId) {
    Registered(RecordOf(s, uid)) && RecordOf(s, uid).round < s.config.currentRound
  }

  /** `/spin`: the channel gate, then the phone step, then the name step, then
      the one-draw-per-round check, then the draw. */
  function Spin(s: State, uid: UserId, lookup: Lookup, ticket: nat): (res: (State, SpinOutcome))
    requires TicketFits(s.config.prizes, ticket)
    // The channel gate comes first, and a failed gate changes nothing.
    ensures res.1 == JoinChannel <==> !IsMember(s.config.channel, lookup)
    ensures !IsMember(s.config.channel, lookup) ==> res == (s, JoinChannel)
    // Registration comes first: no phone, then no name, means a prompt.
    ensures res.1 == AskPhone <==> IsMember(s.config.channel, lookup) && RecordOf(s, uid).phone.None?
    ensures res.1 == AskName <==> IsMember(s.config.channel, lookup) && RecordOf(s, uid).phone.Some? && RecordOf(s, uid).name.None?
    ensures res.1 == AskPhone ==> StageOf(res.0, uid) == AwaitingPhone
    ensures res.1 == AskName ==> StageOf(res.0, uid) == AwaitingName
    ensures res.1 == AlreadyPlayed <==>
              IsMember(s.config.channel, lookup) && Registered(RecordOf(s, uid))
              && RecordOf(s, uid).round >= s.config.currentRound
    // A draw happens exactly for a member who may draw, from a non-empty pool.
    ensures res.1.Won? <==> IsMember(s.config.channel, lookup) && MayDraw(s, uid) && TotalWeight(s.config.prizes) > 0
    ensures res.1 == DrawFailed <==> IsMember(s.config.channel, lookup) && MayDraw(s, uid) && TotalWeight(s.config.prizes) == 0
    // The prize is the entry the ticket selects (of positive weight, by
    // `Pick`'s contract).
    ensures res.1.Won? ==>
              ticket < TotalWeight(s.config.prizes) && res.1.prize == s.config.prizes[Pick(s.config.prizes, ticket)].name
    // The only record a spin ever changes is the drawing user's round.
    ensures !res.1.Won? ==> res.0.users == s.users
    ensures res.1.Won? ==>
              && uid in res.0.users
              && res.0.users[uid] == RecordOf(s, uid).(round := s.config.currentRound)
              && res.0.users.Keys == s.users.Keys
              && res.0.stages == s.stages
    ensures OthersUnchanged(s, res.0, uid)
    ensures res.1 != AskPhone && res.1 != AskName ==> res.0.stages == s.stages
    ensures res.0.config == s.config && res.0.admins == s.admins
  {
    var data := RecordOf(s, uid);
    if !IsMember(s.config.channel, lookup) then
      (s, JoinChannel)
    else if data.phone.None? then
      (s.(stages := s.stages[uid := AwaitingPhone]), AskPhone)
    else if data.name.None? then
      (s.(stages := s.stages[uid := AwaitingName]), AskName)
    else if data.round >= s.config.currentRound then
      (s, AlreadyPlayed)
    else if TotalWeight(s.config.prizes) == 0 then
      (s, DrawFailed)
    else
      var i := Pick(s.config.prizes, ticket);
      (s.(users := s.users[uid := data.(round := s.config.currentRound)]), Won(s.config.prizes[i].name))
  }

  // ---------------------------------------------------------------- contact

  datatype ContactOutcome = ContactIgnored | ContactSaved

  /** A shared contact: accepted only while the sender is asked for a phone
      and only if the contact is the sender's own (`sharedUser` is the
      contact's user id, absent for a contact that is no Telegram user). The
      phone is stored, the stage moves to the name step, and a phone ending
      in the admin phone makes the sender an admin. */
  function Contact(s: State, uid: UserId, sharedUser: Option<UserId>, phone: string, adminPhone: string)
    : (res: (State, ContactOutcome))
    ensures res.1 == ContactSaved <==> StageOf(s, uid) == AwaitingPhone && sharedUser == Some(uid)
    ensures res.1 == ContactIgnored ==> res.0 == s
    ensures res.1 == ContactSaved ==>
              && uid in res.0.users
              && res.0.users[uid] == RecordOf(s, uid).(phone := Some(phone))
              && StageOf(res.0, uid) == AwaitingName
              && (uid in res.0.admins <==> uid in s.admins || EndsWith(phone, adminPhone))
    ensures OthersUnchanged(s, res.0, uid)
    ensures res.0.config == s.config
    ensures s.admins <= res.0.admins <= s.admins + {uid}
  {
    if StageOf(s, uid) != AwaitingPhone || sharedUser != Some(uid) then
      (s, ContactIgnored)
    else
      var admins := if EndsWith(phone, adminPhone) then s.admins + {uid} else s.admins;
      (State(s.config,
             s.users[uid := RecordOf(s, uid).(phone := Some(phone))],
             s.stages[uid := AwaitingName],
             admins),
       ContactSaved)
  }

  // ---------------------------------------------------------------- reg_name

  datatype NameOutcome = TextIgnored | NameRejected | NameSaved

  /** A text message: taken as the user's full name only at the name step.
      The stripped text must split into at least two words; then it is
      stored and the conversation ends. */
  function RegName(s: State, uid: UserId, text: string): (res: (State, NameOutcome))
    ensures res.1 == TextIgnored <==> StageOf(s, uid) != AwaitingName
    ensures res.1 == NameSaved <==> StageOf(s, uid) == AwaitingName && HasTwoWords(text)
    ensures res.1 != NameSaved ==> res.0 == s
    ensures res.1 == NameSaved ==>
              && uid in res.0.users
              && res.0.users[uid] == RecordOf(s, uid).(name := Some(Strip(text)))
              && StageOf(res.0, uid) == Idle
    ensures OthersUnchanged(s, res.0, uid)
    ensures res.0.config == s.config && res.0.admins == s.admins
  {
    if StageOf(s, uid) != AwaitingName then
      (s, TextIgnored)
    else
      var name := Strip(text);
      StrippedWordsIff(text);
      if |Words(name)| < 2 then
        (s, NameRejected)
      else
        var rec := RecordOf(s, uid).(name := Some(name));
        UpdateKeepsOthers(s, uid, rec, Idle, s.admins);
        (State(s.config, s.users[uid := rec], s.stages[uid := Idle], s.admins), NameSaved)
  }

  /** A stored name is never blank and never starts or ends with whitespace. */
  lemma SavedNameIsTrimmed(s: State, uid: UserId, text: string)
    requires StageOf(s, uid) == AwaitingName && HasTwoWords(text)
    ensures RegName(s, uid, text).1 == NameSaved
    ensures var name := RegName(s, uid, text).0.users[uid].name.value;
            name != [] && !IsSpace(name[0]) && !IsSpace(name[|name| - 1])
  {
    var name := Strip(text);
    var a :| StrippedAt(text, name, a);
    StrippedEmptyIffAllSpace(text, name, a);
    var i, j, k :| TwoWordsAt(text, i, j, k);
    assert !AllSpace(text) by { assert !IsSpace(text[i]); }
  }

  // -------------------------------------------------------------- admin_only

  /** The lazy promotion rule: the user's stored phone is non-empty and ends
      with the admin phone. */
  predicate PhoneMakesAdmin(s: State, uid: UserId, adminPhone: string) {
    var phone := RecordOf(s, uid).phone;
    phone.Some? && phone.value != "" && EndsWith(phone.value, adminPhone)
  }

  /** The `admin_only` guard: promote the user if the phone rule says so, then
      grant the action exactly to members of the admin set. */
  function Authorize(s: State, uid: UserId, adminPhone: string): (res: (State, bool))
    ensures res.1 <==> uid in s.admins || PhoneMakesAdmin(s, uid, adminPhone)
    ensures res.1 <==> uid in res.0.admins
    ensures s.admins <= res.0.admins <= s.admins + {uid}
    ensures !res.1 ==> res.0 == s
    ensures res.0.config == s.config && res.0.users == s.users && res.0.stages == s.stages
  {
    var s' := if PhoneMakesAdmin(s, uid, adminPhone) then s.(admins := s.admins + {uid}) else s;
    (s', uid in s'.admins)
  }

  /** The phone rule in algebraic terms: a user is promoted exactly when the
      stored phone is non-empty and consists of some prefix (possibly empty,
      such as `+` or `00`) followed by the admin phone. */
  lemma PhoneMakesAdminIff(s: State, uid: UserId, adminPhone: string)
    ensures PhoneMakesAdmin(s, uid, adminPhone) <==>
              exists p :: RecordOf(s, uid).phone == Some(p + adminPhone) && p + adminPhone != ""
  {
    var phone := RecordOf(s, uid).phone;
    if phone.Some? {
      EndsWithIffSuffix(phone.value, adminPhone);
    }
    if exists p :: phone == Some(p + adminPhone) && p + adminPhone != "" {
      var p :| phone == Some(p + adminPhone) && p + adminPhone != "";
      EndsWithIffSuffix(p + adminPhone, adminPhone);
    }
  }

  /** The phone rule with the default admin phone: the international number
      with anything in front (nothing, `+`, `00`) passes; the domestic
      `09...` form and a shorter tail of the number do not. */
  lemma DefaultAdminPhoneForms(s: State, uid: UserId, prefix: string)
    ensures RecordOf(s, uid).phone == Some(prefix + DefaultAdminPhone) ==>
              PhoneMakesAdmin(s, uid, DefaultAdminPhone)
    ensures RecordOf(s, uid).phone == Some("09366582052") ==> !PhoneMakesAdmin(s, uid, DefaultAdminPhone)
    ensures RecordOf(s, uid).phone == Some("9366582052") ==> !PhoneMakesAdmin(s, uid, DefaultAdminPhone)
  {
    var phone := RecordOf(s, uid).phone;
    if phone == Some(prefix + DefaultAdminPhone) {
      assert phone.value[|phone.value| - |DefaultAdminPhone|..] == DefaultAdminPhone;
    }
  }

  datatype AdminOutcome = NotAdmin | PanelShown | RoundStarted(round: int)

  /** `/admin`: shows the admin panel to an admin, who is then in the admin
      set; changes nothing but the admin set. */
  function AdminPanel(s: State, uid: UserId, adminPhone: string): (res: (State, AdminOutcome))
    ensures res.1 == PanelShown <==> uid in s.admins || PhoneMakesAdmin(s, uid, adminPhone)
    ensures res.1 == NotAdmin <==> !(uid in s.admins || PhoneMakesAdmin(s, uid, adminPhone))
    ensures res.1 == PanelShown <==> uid in res.0.admins
    ensures res.1 == NotAdmin ==> res.0 == s
    ensures res.0 == s.(admins := res.0.admins)
    ensures s.admins <= res.0.admins <= s.admins + {uid}
  {
    var (s', ok) := Authorize(s, uid, adminPhone);
    if ok then (s', PanelShown) else (s', NotAdmin)
  }

  /** `/next_round`: an admin starts the next round; anybody else changes
      nothing at all. */
  function NextRound(s: State, uid: UserId, adminPhone: string): (res: (State, AdminOutcome))
    ensures res.1 != NotAdmin <==> uid in s.admins || PhoneMakesAdmin(s, uid, adminPhone)
    ensures res.1 == NotAdmin ==> res.0 == s
    ensures res.1 != NotAdmin ==>
              && res.0.config == s.config.(currentRound := s.config.currentRound + 1)
              && res.1 == RoundStarted(s.config.currentRound + 1)
              && uid in res.0.admins
    ensures res.0.users == s.users && res.0.stages == s.stages
    ensures s.admins <= res.0.admins <= s.admins + {uid}
  {
    var (s', ok) := Authorize(s, uid, adminPhone);
    if !ok then
      (s', NotAdmin)
    else
      var round := s'.config.currentRound + 1;
      (s'.(config := s'.config.(currentRound := round)), RoundStarted(round))
  }

  // ---------------------------------------------------------------- routing

  /** An incoming update, as the handler table routes it. */
  datatype Event =
    | SpinCmd(uid: UserId, lookup: Lookup, ticket: nat)
    | AdminCmd(uid: UserId)
    | NextRoundCmd(uid: UserId)
    | ContactMsg(uid: UserId, sharedUser: Option<UserId>, phone: string)
    // A text that is not a command: `reg_name` is registered for
    // `filters.TEXT & ~filters.COMMAND`. Any text is accepted here, which
    // admits more updates than reach the handler.
    | TextMsg(uid: UserId, text: string)

  datatype Reply =
    | SpinReply(spin: SpinOutcome)
    | ContactReply(contact: ContactOutcome)
    | NameReply(name: NameOutcome)
    | AdminReply(admin: AdminOutcome)

  /** The reply announcing a new round. */
  predicate StartsRound(r: Reply) {
    r.AdminReply? && r.admin.RoundStarted?
  }

  predicate EventFits(prizes: seq<Prize>, ev: Event) {
    ev.SpinCmd? ==> TicketFits(prizes, ev.ticket)
  }

  /** One update handled to completion. The catalog and the channel never
      change; the round moves up by one exactly when an admin's
      `/next_round` announces it, and otherwise stays; the admin set only
      grows. */
  function Step(s: State, ev: Event, adminPhone: string): (res: (State, Reply))
    requires EventFits(s.config.prizes, ev)
    ensures res.0.config.prizes == s.config.prizes && res.0.config.channel == s.config.channel
    ensures res.0.config.currentRound == s.config.currentRound + (if StartsRound(res.1) then 1 else 0)
    ensures StartsRound(res.1) ==> ev.NextRoundCmd? && ev.uid in res.0.admins
    ensures s.admins <= res.0.admins
  {
    match ev
    case SpinCmd(uid, lookup, ticket) =>
      var (s', o) := Spin(s, uid, lookup, ticket); (s', SpinReply(o))
    case AdminCmd(uid) =>
      var (s', o) := AdminPanel(s, uid, adminPhone); (s', AdminReply(o))
    case NextRoundCmd(uid) =>
      var (s', o) := NextRound(s, uid, adminPhone); (s', AdminReply(o))
    case ContactMsg(uid, shared, phone) =>
      var (s', o) := Contact(s, uid, shared, phone, adminPhone); (s', ContactReply(o))
    case TextMsg(uid, text) =>
      var (s', o) := RegName(s, uid, text); (s', NameReply(o))
  }

  predicate AllEventsFit(prizes: seq<Prize>, evs: seq<Event>) {
    forall k :: 0 <= k < |evs| ==> EventFits(prizes, evs[k])
  }

  /** The state after the first `k` updates of `evs`. */
  function StateAt(s: State, evs: seq<Event>, adminPhone: string, k: nat): (r: State)
    requires AllEventsFit(s.config.prizes, evs) && k <= |evs|
    ensures r.config.prizes == s.config.prizes && r.config.channel == s.config.channel
  {
    if k == 0 then s
    else
      var prev := StateAt(s, evs, adminPhone, k - 1);
      Step(prev, evs[k - 1], adminPhone).0
  }

  /** The reply to update `k` of `evs`. */
  function ReplyAt(s: State, evs: seq<Event>, adminPhone: string, k: nat): Reply
    requires AllEventsFit(s.config.prizes, evs) && k < |evs|
  {
    Step(StateAt(s, evs, adminPhone, k), evs[k], adminPhone).1
  }
}
