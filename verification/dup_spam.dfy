/** The repeated-content spam tracker of the bot's main package (`checkSpam`)
    and of the `names` package (`CheckSpam`). Both keep, per user, the
    messages seen since the user's first tracked message; the entry is
    dropped by a timer two minutes after it was created, whatever happened
    in between. Once more than `threshold` messages are stored, a stored
    message that repeats gets the author muted. The two packages differ
    only in the threshold. */
module DuplicateSpam {
  import opened Ordering
  import Timers
  import opened Discord

  /** `RecentSpam`: the message count and the channel ids and contents of the
      messages stored so far. */
  datatype Entry = Entry(count: int, channelIds: seq<string>, msgs: seq<string>)

  /** The per-user entries and their pending clearing timers. */
  type Tracker = Timers.Tracker<Entry>

  /** The new tracker and whether the author is muted. */
  datatype Step = Step(tracker: Tracker, mute: bool)

  const EmptyTracker: Tracker := Timers.Tracker(map[], multiset{})

  /** Roles whose holders are never checked. */
  const ExemptRoles: set<string> := {ContributorRoleId, AdminRoleId, AlumniRoleId}

  /** Every entry counts its stored messages and has one channel id per
      message, and exactly the tracked users have one timer pending. */
  ghost predicate Valid(t: Tracker) {
    && (forall u :: u in t.recent ==> t.recent[u].count == |t.recent[u].msgs| == |t.recent[u].channelIds| >= 1)
    && Timers.TimersMatch(t)
  }

  /** The gates in front of the tracker: the author joined within the week,
      is not a bot and holds no exempt role. */
  predicate Screened(m: MessageCreate) {
    m.recentlyJoined && !m.author.bot && !HoldsAnyRole(m.member.roles, ExemptRoles)
  }

  /** The handler for one message. The verdict is taken on the messages stored
      before this one; the message is appended whatever the verdict. */
  function Observe(threshold: nat, t: Tracker, m: MessageCreate): (s: Step)
    ensures !Screened(m) ==> s == Step(t, false)
    ensures s.mute <==>
      && Screened(m)
      && m.author.id in t.recent
      && |t.recent[m.author.id].msgs| > threshold
      && HasDuplicate(t.recent[m.author.id].msgs)
    ensures Screened(m) ==> m.author.id in s.tracker.recent
    ensures Screened(m) && m.author.id !in t.recent ==>
      && s.tracker.recent[m.author.id] == Entry(1, [m.channelId], [m.content])
      && s.tracker.timers == t.timers + multiset{m.author.id}
    ensures Screened(m) && m.author.id in t.recent ==>
      && s.tracker.recent[m.author.id].msgs == t.recent[m.author.id].msgs + [m.content]
      && s.tracker.recent[m.author.id].channelIds == t.recent[m.author.id].channelIds + [m.channelId]
      && s.tracker.timers == t.timers
    ensures forall u :: u != m.author.id ==>
      (u in s.tracker.recent <==> u in t.recent) && (u in t.recent ==> s.tracker.recent[u] == t.recent[u])
    ensures Valid(t) ==> Valid(s.tracker)
  {
    var id := m.author.id;
    if !Screened(m) then Step(t, false)
    else if id !in t.recent then
      Step(Timers.Tracker(t.recent[id := Entry(1, [m.channelId], [m.content])], t.timers + multiset{id}), false)
    else
      var r := t.recent[id];
      var mute := |r.msgs| > threshold && (SortCompactLength(r.msgs); |SortCompact(r.msgs)| < |r.msgs|);
      Step(Timers.Tracker(t.recent[id := Entry(r.count + 1, r.channelIds + [m.channelId], r.msgs + [m.content])], t.timers), mute)
  }

  /** The timer firing keeps the invariant. */
  lemma ExpireKeepsValid(t: Tracker, user: string)
    requires Valid(t) && user in t.timers
    ensures Valid(Timers.Expire(t, user))
  {
  }
}
