/** The server's event handlers: which checks run when a member joins, when a
    member is updated and when a message is sent, and when a check's outcome
    leads to a mute. The name classifier and the avatar check are passed in as
    functions, since the handlers only consume their results. */
module Juicebox {
  import opened Wrappers
  import opened Discord
  import Pfp
  import Spam

  /** Roles whose holders the update and message handlers leave alone. */
  const ExemptRoles: set<string> := {ContributorRoleId, AdminRoleId}

  /** Which of the two member checks a handler runs. */
  datatype Checks = Checks(names: bool, pfp: bool)

  /** `ScreenOnJoin`: both checks for a member that is not muted, none for a
      muted one. Roles are not consulted. */
  function JoinChecks(m: Member): (c: Checks)
    ensures c.names == c.pfp == !m.mute
  {
    if m.mute then Checks(false, false) else Checks(true, true)
  }

  /** One of the three names differs between the two states. */
  predicate NamesChanged(before: Member, after: Member) {
    before.nick != after.nick || before.user.globalName != after.user.globalName || before.user.username != after.user.username
  }

  /** `ScreenOnUpdate`. `before` is the member as it was before the update,
      when the platform supplied it. */
  function UpdateChecks(before: Option<Member>, m: Member): (c: Checks)
    ensures m.mute || HoldsAnyRole(m.roles, ExemptRoles) ==> c == Checks(false, false)
    ensures !m.mute && !HoldsAnyRole(m.roles, ExemptRoles) && before.None? ==> c == Checks(true, true)
    ensures !m.mute && !HoldsAnyRole(m.roles, ExemptRoles) && before.Some? ==>
      && (c.names <==> NamesChanged(before.value, m))
      && (c.pfp <==> before.value.avatarUrl != m.avatarUrl)
  {
    if m.mute || HoldsAnyRole(m.roles, ExemptRoles) then Checks(false, false)
    else if before.None? then Checks(true, true)
    else Checks(NamesChanged(before.value, m), before.value.avatarUrl != m.avatarUrl)
  }

  /** An update that comes without a before-state screens a member that is
      not exempt exactly as a join would. */
  lemma UpdateWithoutBeforeIsJoin(m: Member)
    requires !HoldsAnyRole(m.roles, ExemptRoles)
    ensures UpdateChecks(None, m) == JoinChecks(m)
  {
  }

  /** An update that changes none of the names and not the avatar runs no
      check. */
  lemma UnchangedUpdateChecksNothing(before: Member, m: Member)
    requires before.nick == m.nick && before.user == m.user && before.avatarUrl == m.avatarUrl
    ensures UpdateChecks(Some(before), m) == Checks(false, false)
  {
  }

  /** Contributors and admins are screened on joining but never on update. */
  lemma ExemptOnlyOnUpdate(before: Option<Member>, m: Member)
    requires !m.mute && HoldsAnyRole(m.roles, ExemptRoles)
    ensures JoinChecks(m) == Checks(true, true)
    ensures UpdateChecks(before, m) == Checks(false, false)
  {
  }

  /** The keys of `checkNames`'s map. */
  datatype NameField = Username | GlobalName | Nickname

  function FieldValue(m: Member, f: NameField): string {
    match f
    case Username => m.user.username
    case GlobalName => m.user.globalName
    case Nickname => m.nick
  }

  /** A field whose value is non-empty and suspicious. */
  predicate Flags(m: Member, f: NameField, sus: string -> bool) {
    FieldValue(m, f) != "" && sus(FieldValue(m, f))
  }

  /** A visiting order of the map: each of the three fields once. */
  predicate IsOrder(order: seq<NameField>) {
    |order| == 3 && Username in order && GlobalName in order && Nickname in order
  }

  /** `checkNames` with the map visited in `order`: the field that gets the
      member muted (the loop returns after the first mute), if any. Empty
      values are skipped before the classifier is asked. */
  function CheckNames(m: Member, order: seq<NameField>, sus: string -> bool): (muted: Option<NameField>)
    ensures muted.Some? ==> muted.value in order && Flags(m, muted.value, sus)
    ensures muted.Some? ==> exists k ::
      && 0 <= k < |order| && order[k] == muted.value
      && forall j :: 0 <= j < k ==> !Flags(m, order[j], sus)
    ensures muted.None? <==> forall f :: f in order ==> !Flags(m, f, sus)
    decreases |order|
  {
    if |order| == 0 then None
    else if FieldValue(m, order[0]) != "" && sus(FieldValue(m, order[0])) then Some(order[0])
    else
      var r := CheckNames(m, order[1..], sus);
      assert forall f :: f in order ==> f == order[0] || f in order[1..];
      (if r.Some? then
         var k :| 0 <= k < |order[1..]| && order[1..][k] == r.value &&
           forall j :: 0 <= j < k ==> !Flags(m, order[1..][j], sus);
         assert order[k + 1] == r.value;
         assert forall j :: 1 <= j < k + 1 ==> order[j] == order[1..][j - 1];
         r
       else r)
  }

  /** Whether a member gets muted over a name does not depend on the order in
      which the map is visited. */
  lemma NameMuteOrderFree(m: Member, o1: seq<NameField>, o2: seq<NameField>, sus: string -> bool)
    requires IsOrder(o1) && IsOrder(o2)
    ensures CheckNames(m, o1, sus).Some? <==> CheckNames(m, o2, sus).Some?
  {
    forall f: NameField
      ensures f in o1 && f in o2
    {
      match f
      case Username =>
      case GlobalName =>
      case Nickname =>
    }
  }

  /** A member whose names are all empty is never muted over a name, whatever
      the classifier says. */
  lemma EmptyNamesNeverChecked(m: Member, order: seq<NameField>, sus: string -> bool)
    requires m.user.username == "" && m.user.globalName == "" && m.nick == ""
    ensures CheckNames(m, order, sus).None?
  {
  }

  /** What screening a member leads to: the name that gets the member muted,
      and whether the avatar does. */
  datatype Screening = Screening(nameMute: Option<NameField>, pfpMute: bool)

  /** Running the chosen checks; `pfp` stands for the avatar check, whose
      verdict mutes only when it is suspicious and carries no error
      (`checkPfp`). */
  function Screen(m: Member, c: Checks, order: seq<NameField>, sus: string -> bool,
                  pfp: Member -> Pfp.PfpVerdict): (s: Screening)
    ensures s.nameMute.Some? <==> c.names && exists f :: f in order && Flags(m, f, sus)
    ensures s.pfpMute <==> c.pfp && pfp(m).err.None? && pfp(m).suspicious
  {
    Screening(if c.names then CheckNames(m, order, sus) else None, c.pfp && pfp(m).err.None? && pfp(m).suspicious)
  }

  /** A muted member's join leads to no mute whatever the checks would say. */
  lemma MutedJoinScreensNothing(m: Member, order: seq<NameField>, sus: string -> bool, pfp: Member -> Pfp.PfpVerdict)
    requires m.mute
    ensures Screen(m, JoinChecks(m), order, sus, pfp) == Screening(None, false)
  {
  }

  /** The outcome of `ScreenMessage`: the spam tracker afterwards, whether the
      author is muted, and the channel list of the mute message. */
  datatype MessageOutcome = MessageOutcome(tracker: Spam.Tracker, mute: bool, channels: string)

  /** Authors whose messages go to the spam tracker: not bots, not muted, and
      holding neither the contributor nor the admin role. */
  predicate MessageScreened(m: MessageCreate) {
    !m.author.bot && !m.member.mute && !HoldsAnyRole(m.member.roles, ExemptRoles)
  }

  /** `ScreenMessage` followed by `checkSpam`, with the spam tracker as it is
      written; `clearsTail` is whether the Go version's `slices.Compact`
      clears the slots after its result (Go 1.22 and later). */
  function ScreenMessage(t: Spam.Tracker, m: MessageCreate, clearsTail: bool): (o: MessageOutcome)
    ensures !MessageScreened(m) ==> o == MessageOutcome(t, false, "")
    ensures o.mute <==>
      MessageScreened(m) && m.author.id in t.recent && Spam.ManyChannels(t.recent[m.author.id])
    ensures !o.mute ==> o.channels == ""
    ensures MessageScreened(m) ==> m.author.id in o.tracker.recent
    ensures Spam.Valid(t) ==> Spam.Valid(o.tracker)
  {
    if !MessageScreened(m) then MessageOutcome(t, false, "")
    else
      var v := Spam.IsSpamAsWritten(t, m.author.id, m.channelId, m.content, clearsTail);
      Spam.AsWrittenVerdict(t, m.author.id, m.channelId, m.content, clearsTail);
      Spam.AsWrittenKeepsValid(t, m.author.id, m.channelId, m.content, clearsTail);
      MessageOutcome(v.tracker, v.spam, v.channels)
  }

  /** Alumni are not exempt from the spam check: an alumnus who is not a bot,
      not muted and holds no contributor or admin role has the message
      recorded. */
  lemma AlumniMessagesTracked(t: Spam.Tracker, m: MessageCreate, clearsTail: bool)
    requires !m.author.bot && !m.member.mute
    requires forall r :: r in m.member.roles ==> r == AlumniRoleId
    ensures m.author.id in ScreenMessage(t, m, clearsTail).tracker.recent
  {
  }
}
