/** The multi-channel spam detector of the `spam` package (`IsSpam`). Per user
    it keeps the channel ids and contents of the messages seen since the
    user's first tracked message; a timer drops the entry two minutes after it
    was created. Once more than two messages are stored, a user whose stored
    messages went to more than two distinct channels is reported, together
    with a mention of each of those channels. */
module Spam {
  import opened Ordering
  import Timers
  import opened Text
  import opened GoSlices

  /** `recentMsgs`: the channel ids and contents of the stored messages. */
  datatype Window = Window(channelIds: seq<string>, msgs: seq<string>)

  /** The per-user windows and their pending clearing timers. */
  type Tracker = Timers.Tracker<Window>

  /** `IsSpam`'s `(is, channels)` pair and the tracker after the call. */
  datatype Verdict = Verdict(tracker: Tracker, spam: bool, channels: string)

  const EmptyTracker: Tracker := Timers.Tracker(map[], multiset{})

  /** One channel id per stored message, at least one message per entry, and
      exactly the tracked users have one timer pending. */
  ghost predicate Valid(t: Tracker) {
    && (forall u :: u in t.recent ==> |t.recent[u].channelIds| == |t.recent[u].msgs| >= 1)
    && Timers.TimersMatch(t)
  }

  /** ` <#id>` for each id, in order: the platform's channel mention syntax. */
  function Mentions(ids: seq<string>): string {
    if |ids| == 0 then "" else " <#" + ids[0] + ">" + Mentions(ids[1..])
  }

  /** Every id of the list is mentioned in the rendered text. */
  lemma {:induction false} MentionsEach(ids: seq<string>, k: nat)
    requires k < |ids|
    ensures Contains(Mentions(ids), " <#" + ids[k] + ">")
  {
    var head := " <#" + ids[0] + ">";
    var rest := Mentions(ids[1..]);
    assert Mentions(ids) == head + rest;
    if k == 0 {
      assert OccursAt(head + rest, head, 0);
    } else {
      var w := " <#" + ids[k] + ">";
      assert ids[1..][k - 1] == ids[k];
      MentionsEach(ids[1..], k - 1);
      assert Contains(rest, w);
      var i :| 0 <= i <= |rest| - |w| && OccursAt(rest, w, i);
      assert (head + rest)[|head| + i..|head| + i + |w|] == rest[i..i + |w|];
      assert OccursAt(head + rest, w, |head| + i);
    }
  }

  /** The verdict rule: more than two stored messages, sent to more than two
      distinct channels. */
  predicate ManyChannels(w: Window) {
    |w.msgs| > 2 && |Elems(w.channelIds)| > 2
  }

  /** `IsSpam` on one message, as it is evidently meant to behave: the sort
      and compaction work on a copy of the stored channel ids, and the report
      lists the compacted `channelIds`. A reported user's entry is left as it
      was and the message is not stored; otherwise the message is stored
      (opening an entry and a timer for a user not yet tracked) and nothing is
      reported. `IsSpamAsWritten` is the code as it stands. */
  function IsSpam(t: Tracker, user: string, channel: string, content: string): (v: Verdict)
    ensures v.spam <==> user in t.recent && ManyChannels(t.recent[user])
    ensures v.spam ==> v.tracker == t
    ensures v.spam ==> exists ids ::
      StrictlySorted(ids) && Elems(ids) == Elems(t.recent[user].channelIds) && v.channels == Mentions(ids)
    ensures !v.spam ==> v.channels == "" && user in v.tracker.recent
    ensures !v.spam && user !in t.recent ==>
      && v.tracker.recent[user] == Window([channel], [content])
      && v.tracker.timers == t.timers + multiset{user}
    ensures !v.spam && user in t.recent ==>
      && v.tracker.recent[user].channelIds == t.recent[user].channelIds + [channel]
      && v.tracker.recent[user].msgs == t.recent[user].msgs + [content]
      && v.tracker.timers == t.timers
    ensures forall u :: u != user ==>
      (u in v.tracker.recent <==> u in t.recent) && (u in t.recent ==> v.tracker.recent[u] == t.recent[u])
    ensures Valid(t) ==> Valid(v.tracker)
  {
    if user !in t.recent then
      Verdict(Timers.Tracker(t.recent[user := Window([channel], [content])], t.timers + multiset{user}), false, "")
    else
      var w := t.recent[user];
      var distinct := SortCompact(w.channelIds);
      SortCompactLength(w.channelIds);
      if |w.msgs| > 2 && |distinct| > 2 then
        Verdict(t, true, Mentions(distinct))
      else
        Verdict(Timers.Tracker(t.recent[user := Window(w.channelIds + [channel], w.msgs + [content])], t.timers), false, "")
  }

  /** The timer firing keeps the invariant. */
  lemma ExpireKeepsValid(t: Tracker, user: string)
    requires Valid(t) && user in t.timers
    ensures Valid(Timers.Expire(t, user))
  {
  }

  /** The report mentions every channel the user posted to. */
  lemma ReportMentionsEveryChannel(t: Tracker, user: string, channel: string, content: string, c: string)
    requires IsSpam(t, user, channel, content).spam
    requires c in t.recent[user].channelIds
    ensures Contains(IsSpam(t, user, channel, content).channels, " <#" + c + ">")
  {
    var ids := SortCompact(t.recent[user].channelIds);
    assert c in Elems(ids);
    var k :| 0 <= k < |ids| && ids[k] == c;
    MentionsEach(ids, k);
  }

  /** Four messages from a fresh user to four different channels: the fourth is
      reported, the first three are not. */
  lemma FourChannelsReported(user: string, a: string, b: string, c: string, d: string, content: string)
    requires a != b && b != c && a != c
    ensures
      var v1 := IsSpam(EmptyTracker, user, a, content);
      var v2 := IsSpam(v1.tracker, user, b, content);
      var v3 := IsSpam(v2.tracker, user, c, content);
      var v4 := IsSpam(v3.tracker, user, d, content);
      !v1.spam && !v2.spam && !v3.spam && v4.spam
  {
    var v1 := IsSpam(EmptyTracker, user, a, content);
    assert !v1.spam;
    assert v1.tracker.recent[user] == Window([a], [content]);
    var v2 := IsSpam(v1.tracker, user, b, content);
    assert !v2.spam;
    assert v2.tracker.recent[user] == Window([a, b], [content, content]);
    var v3 := IsSpam(v2.tracker, user, c, content);
    assert !v3.spam;
    assert v3.tracker.recent[user] == Window([a, b, c], [content, content, content]);
    ThreeChannels(a, b, c, content);
  }

  /** Three messages to three different channels are enough for a report. */
  lemma ThreeChannels(a: string, b: string, c: string, content: string)
    requires a != b && b != c && a != c
    ensures ManyChannels(Window([a, b, c], [content, content, content]))
  {
    assert Elems([a, b, c]) == {a, b, c};
  }

  /** A user posting to a single channel is never reported, however many
      messages they send. */
  lemma OneChannelNeverReported(t: Tracker, user: string, channel: string, content: string)
    requires user in t.recent ==> forall c :: c in t.recent[user].channelIds ==> c == channel
    ensures !IsSpam(t, user, channel, content).spam
    ensures var t' := IsSpam(t, user, channel, content).tracker;
      forall c :: c in t'.recent[user].channelIds ==> c == channel
  {
    if user in t.recent {
      var ids := t.recent[user].channelIds;
      if |ids| == 0 {
        ElemsEmpty(ids);
      } else {
        assert ids[0] in Elems(ids);
        assert Elems(ids) == {channel};
      }
    }
  }

  /** Once the user's timer has fired, the next message opens a fresh entry. */
  lemma FreshAfterExpiry(t: Tracker, user: string, channel: string, content: string)
    requires user in t.timers
    ensures var v := IsSpam(Timers.Expire(t, user), user, channel, content);
      !v.spam && v.tracker.recent[user] == Window([channel], [content])
  {
  }

  /** `IsSpam` as spam/spam.go:52-62 is written. `r` is a copy of the stored
      entry, but its `channelIds` shares the stored backing array, so the
      in-place `Sort` and `Compact` rewrite the stored channel ids. The report
      then ranges over a second `Compact` of the whole rewritten slice, not
      over `channelIds`. `clearsTail` selects the `Compact` of Go 1.22 and
      later, which clears the slots after its result. */
  function IsSpamAsWritten(t: Tracker, user: string, channel: string, content: string, clearsTail: bool): (v: Verdict)
    ensures v.spam <==>
      user in t.recent && |t.recent[user].msgs| > 2 && |Dedup(Sort(t.recent[user].channelIds))| > 2
    ensures !v.spam ==> v.channels == ""
    ensures v.tracker.timers == t.timers + (if user in t.recent then multiset{} else multiset{user})
    ensures user in v.tracker.recent
    ensures v.tracker.recent[user].msgs ==
      if user !in t.recent then [content]
      else if v.spam then t.recent[user].msgs
      else t.recent[user].msgs + [content]
    ensures forall u :: u != user ==>
      (u in v.tracker.recent <==> u in t.recent) && (u in t.recent ==> v.tracker.recent[u] == t.recent[u])
  {
    if user !in t.recent then
      Verdict(Timers.Tracker(t.recent[user := Window([channel], [content])], t.timers + multiset{user}), false, "")
    else
      var w := t.recent[user];
      if |w.msgs| > 2 then
        var first := CompactSlots(Sort(w.channelIds), clearsTail);
        if first.len > 2 then
          var second := CompactSlots(first.slots, clearsTail);
          Verdict(Timers.Tracker(t.recent[user := w.(channelIds := second.slots)], t.timers), true,
                  Mentions(second.slots[..second.len]))
        else
          Verdict(Timers.Tracker(t.recent[user := Window(first.slots + [channel], w.msgs + [content])], t.timers), false, "")
      else
        Verdict(Timers.Tracker(t.recent[user := Window(w.channelIds + [channel], w.msgs + [content])], t.timers), false, "")
  }

  /** Two trackers that differ at most in the order and repetition of each
      user's stored channel ids. */
  predicate SameChannelSets(t1: Tracker, t2: Tracker) {
    && t1.timers == t2.timers
    && t1.recent.Keys == t2.recent.Keys
    && forall u :: u in t1.recent ==>
         && t1.recent[u].msgs == t2.recent[u].msgs
         && Elems(t1.recent[u].channelIds) == Elems(t2.recent[u].channelIds)
  }

  /** Storing related windows for `user` keeps two trackers related. */
  lemma StoreKeepsSameChannelSets(t1: Tracker, t2: Tracker, user: string, w1: Window, w2: Window, added: multiset<string>)
    requires SameChannelSets(t1, t2)
    requires w1.msgs == w2.msgs && Elems(w1.channelIds) == Elems(w2.channelIds)
    ensures SameChannelSets(Timers.Tracker(t1.recent[user := w1], t1.timers + added),
                            Timers.Tracker(t2.recent[user := w2], t2.timers + added))
  {
  }

  /** Both compactions in the code as written keep the set of channel ids and
      find as many of them as `IsSpam` does, up to Go 1.21. */
  lemma KeepingTailCounts(c: seq<string>)
    ensures CompactSlots(Sort(c), false).len == |Elems(c)|
    ensures Elems(CompactSlots(Sort(c), false).slots) == Elems(c)
    ensures Elems(CompactSlots(CompactSlots(Sort(c), false).slots, false).slots) == Elems(c)
  {
    SortThenCompact(c);
    SortCompactLength(c);
    SameMultisetSameElems(Sort(c), c);
  }

  /** Appending one channel id to related lists keeps them related. */
  lemma AppendSameElems(k: seq<string>, c: seq<string>, ch: string)
    requires Elems(k) == Elems(c)
    ensures Elems(k + [ch]) == Elems(c + [ch])
  {
    assert Elems(k + [ch]) == Elems(k) + {ch};
    assert Elems(c + [ch]) == Elems(c) + {ch};
  }

  /** A report, up to Go 1.21: the code as written only rewrites the stored
      channel ids, `IsSpam` leaves the tracker as it was. */
  lemma KeepingTailReports(t1: Tracker, t2: Tracker, user: string, channel: string, content: string)
    requires SameChannelSets(t1, t2) && user in t1.recent
    requires |t1.recent[user].msgs| > 2 && CompactSlots(Sort(t1.recent[user].channelIds), false).len > 2
    ensures SameChannelSets(IsSpamAsWritten(t1, user, channel, content, false).tracker, IsSpam(t2, user, channel, content).tracker)
  {
    var w1 := t1.recent[user];
    KeepingTailCounts(w1.channelIds);
    assert ManyChannels(t2.recent[user]);
    var second := CompactSlots(CompactSlots(Sort(w1.channelIds), false).slots, false);
    RewriteKeepsSameChannelSets(t1, t2, user, w1.(channelIds := second.slots));
  }

  /** Rewriting only the stored channel ids of one side, keeping their set,
      keeps two trackers related. */
  lemma RewriteKeepsSameChannelSets(t1: Tracker, t2: Tracker, user: string, n1: Window)
    requires SameChannelSets(t1, t2) && user in t1.recent
    requires n1.msgs == t1.recent[user].msgs && Elems(n1.channelIds) == Elems(t1.recent[user].channelIds)
    ensures SameChannelSets(Timers.Tracker(t1.recent[user := n1], t1.timers), t2)
  {
    StoreKeepsSameChannelSets(t1, t2, user, n1, t2.recent[user], multiset{});
    assert t2.recent[user := t2.recent[user]] == t2.recent;
  }

  /** No report, up to Go 1.21: both append the message, the code as written
      to the rewritten channel ids when it sorted them. */
  lemma KeepingTailStores(t1: Tracker, t2: Tracker, user: string, channel: string, content: string)
    requires SameChannelSets(t1, t2) && user in t1.recent
    requires !(|t1.recent[user].msgs| > 2 && CompactSlots(Sort(t1.recent[user].channelIds), false).len > 2)
    ensures SameChannelSets(IsSpamAsWritten(t1, user, channel, content, false).tracker, IsSpam(t2, user, channel, content).tracker)
  {
    var w1, w2 := t1.recent[user], t2.recent[user];
    KeepingTailCounts(w1.channelIds);
    var kept := if |w1.msgs| > 2 then CompactSlots(Sort(w1.channelIds), false).slots else w1.channelIds;
    var n1 := Window(kept + [channel], w1.msgs + [content]);
    var n2 := Window(w2.channelIds + [channel], w2.msgs + [content]);
    assert IsSpamAsWritten(t1, user, channel, content, false).tracker == Timers.Tracker(t1.recent[user := n1], t1.timers);
    assert IsSpam(t2, user, channel, content).tracker == Timers.Tracker(t2.recent[user := n2], t2.timers);
    AppendSameElems(kept, w2.channelIds, channel);
    StoreKeepsSameChannelSets(t1, t2, user, n1, n2, multiset{});
  }

  /** The code as written decides on the stored entry as the intended
      version does: more than two messages over more than two distinct
      channels. What differs is the report text and the entry left behind. */
  lemma AsWrittenVerdict(t: Tracker, user: string, channel: string, content: string, clearsTail: bool)
    ensures IsSpamAsWritten(t, user, channel, content, clearsTail).spam <==>
      user in t.recent && ManyChannels(t.recent[user])
  {
    if user in t.recent {
      SortThenCompact(t.recent[user].channelIds);
      SortCompactLength(t.recent[user].channelIds);
    }
  }

  /** The code as written keeps the invariant: the in-place sort and
      compactions keep the slice's length, so each stored message still has
      its channel id. */
  lemma AsWrittenKeepsValid(t: Tracker, user: string, channel: string, content: string, clearsTail: bool)
    ensures Valid(t) ==> Valid(IsSpamAsWritten(t, user, channel, content, clearsTail).tracker)
  {
    if !Valid(t) {
    } else if user in t.recent {
      var w := t.recent[user];
      var sorted := Sort(w.channelIds);
      assert |sorted| == |w.channelIds| by {
        assert |multiset(sorted)| == |multiset(w.channelIds)|;
      }
      if |w.msgs| > 2 {
        var first := CompactSlots(sorted, clearsTail);
        if first.len > 2 {
          StoreKeepsValid(t, user, w.(channelIds := CompactSlots(first.slots, clearsTail).slots));
        } else {
          StoreKeepsValid(t, user, Window(first.slots + [channel], w.msgs + [content]));
        }
      } else {
        StoreKeepsValid(t, user, Window(w.channelIds + [channel], w.msgs + [content]));
      }
    } else {
      assert IsSpamAsWritten(t, user, channel, content, clearsTail).tracker == IsSpam(t, user, channel, content).tracker;
    }
  }

  /** Replacing a tracked user's entry by one with a channel id per message
      keeps the invariant. */
  lemma StoreKeepsValid(t: Tracker, user: string, w: Window)
    requires Valid(t) && user in t.recent && |w.channelIds| == |w.msgs| >= 1
    ensures Valid(Timers.Tracker(t.recent[user := w], t.timers))
  {
    var t' := Timers.Tracker(t.recent[user := w], t.timers);
    assert t'.recent.Keys == t.recent.Keys;
  }


  /** Up to Go 1.21 the in-place rewriting only reorders and repeats stored
      channel ids, so over any history of messages the code as written
      reaches the same verdicts as `IsSpam`; only the report text differs. */
  lemma KeepingTailAgrees(t1: Tracker, t2: Tracker, user: string, channel: string, content: string)
    requires SameChannelSets(t1, t2)
    ensures var v1 := IsSpamAsWritten(t1, user, channel, content, false);
      var v2 := IsSpam(t2, user, channel, content);
      v1.spam == v2.spam && SameChannelSets(v1.tracker, v2.tracker)
  {
    if user !in t1.recent {
      var w := Window([channel], [content]);
      StoreKeepsSameChannelSets(t1, t2, user, w, w, multiset{user});
    } else {
      KeepingTailCounts(t1.recent[user].channelIds);
      if |t1.recent[user].msgs| > 2 && CompactSlots(Sort(t1.recent[user].channelIds), false).len > 2 {
        KeepingTailReports(t1, t2, user, channel, content);
      } else {
        KeepingTailStores(t1, t2, user, channel, content);
      }
    }
  }

  /** The timer firing keeps two trackers related. */
  lemma ExpireKeepsSameChannelSets(t1: Tracker, t2: Tracker, user: string)
    requires SameChannelSets(t1, t2) && user in t1.timers
    ensures SameChannelSets(Timers.Expire(t1, user), Timers.Expire(t2, user))
  {
  }

  /** Mentions of a list with a head. */
  lemma MentionsCons(x: string, rest: seq<string>)
    ensures Mentions([x] + rest) == " <#" + x + ">" + Mentions(rest)
  {
    assert ([x] + rest)[1..] == rest;
  }

  /* Single steps of both trackers, used to follow a history message by
     message. */

  /** The first message of a user opens an entry holding just it. */
  lemma AsWrittenOpens(user: string, channel: string, content: string, clearsTail: bool)
    ensures var v := IsSpamAsWritten(EmptyTracker, user, channel, content, clearsTail);
      !v.spam && v.tracker.recent[user].channelIds == [channel] && |v.tracker.recent[user].msgs| == 1
  {
  }

  /** While at most two messages are stored, the message is appended. */
  lemma AsWrittenAppends(t: Tracker, user: string, channel: string, content: string, clearsTail: bool)
    requires user in t.recent && |t.recent[user].msgs| <= 2
    ensures var v := IsSpamAsWritten(t, user, channel, content, clearsTail);
      && !v.spam && v.tracker.recent[user].channelIds == t.recent[user].channelIds + [channel]
      && |v.tracker.recent[user].msgs| == |t.recent[user].msgs| + 1
  {
  }

  /** A compaction that keeps at most two channels: the message is appended
      to the rewritten channel ids. */
  lemma AsWrittenCompacts(t: Tracker, user: string, channel: string, content: string, clearsTail: bool,
                          sorted: seq<string>, c: Compacted, next: seq<string>)
    requires user in t.recent && |t.recent[user].msgs| > 2
    requires Sort(t.recent[user].channelIds) == sorted && CompactSlots(sorted, clearsTail) == c && c.len <= 2
    requires c.slots + [channel] == next
    ensures var v := IsSpamAsWritten(t, user, channel, content, clearsTail);
      && !v.spam && v.tracker.recent[user].channelIds == next
      && |v.tracker.recent[user].msgs| == |t.recent[user].msgs| + 1
  {
  }

  /** A compaction that keeps more than two channels: the report renders the
      second compaction. */
  lemma AsWrittenReports(t: Tracker, user: string, channel: string, content: string, clearsTail: bool,
                         sorted: seq<string>, first: Compacted, second: Compacted)
    requires user in t.recent && |t.recent[user].msgs| > 2
    requires Sort(t.recent[user].channelIds) == sorted && CompactSlots(sorted, clearsTail) == first && first.len > 2
    requires CompactSlots(first.slots, clearsTail) == second
    ensures var v := IsSpamAsWritten(t, user, channel, content, clearsTail);
      v.spam && v.channels == Mentions(second.slots[..second.len])
  {
  }

  /** `IsSpam` stores the message of a user it does not report. */
  lemma CorrectedStores(t: Tracker, user: string, channel: string, content: string)
    requires user in t.recent && (|t.recent[user].msgs| <= 2 || |Elems(t.recent[user].channelIds)| <= 2)
    ensures var v := IsSpam(t, user, channel, content);
      && !v.spam && v.tracker.recent[user].channelIds == t.recent[user].channelIds + [channel]
      && |v.tracker.recent[user].msgs| == |t.recent[user].msgs| + 1
  {
  }

  /** A list of channel ids drawn from two names at most. */
  lemma TwoNames(ids: seq<string>, a: string, b: string)
    requires forall k :: 0 <= k < |ids| ==> ids[k] == a || ids[k] == b
    ensures |Elems(ids)| <= 2
  {
    var e := Elems(ids);
    assert e <= {a, b};
    if a in e && b in e {
      assert e == {a, b};
      if a == b {
        assert e == {a};
      }
    } else if a in e {
      assert e == {a};
    } else if b in e {
      assert e == {b};
    } else {
      assert e == {};
    }
  }

  /** The first three messages, to a, a and x, are stored as they come by
      the code as written. */
  lemma AsWrittenStart(user: string, content: string, a: string, x: string, clearsTail: bool)
    ensures var h1 := IsSpamAsWritten(EmptyTracker, user, a, content, clearsTail);
      var h2 := IsSpamAsWritten(h1.tracker, user, a, content, clearsTail);
      var h3 := IsSpamAsWritten(h2.tracker, user, x, content, clearsTail);
      && !h1.spam && !h2.spam && !h3.spam
      && h3.tracker.recent[user].channelIds == [a, a, x] && |h3.tracker.recent[user].msgs| == 3
  {
    AsWrittenOpens(user, a, content, clearsTail);
    var h1 := IsSpamAsWritten(EmptyTracker, user, a, content, clearsTail);
    AsWrittenAppends(h1.tracker, user, a, content, clearsTail);
    var h2 := IsSpamAsWritten(h1.tracker, user, a, content, clearsTail);
    AsWrittenAppends(h2.tracker, user, x, content, clearsTail);
    assert [a] + [a] == [a, a] && [a, a] + [x] == [a, a, x];
  }

  /** The same three messages are stored by `IsSpam`. */
  lemma CorrectedStart(user: string, content: string, a: string, x: string)
    ensures var h1 := IsSpam(EmptyTracker, user, a, content);
      var h2 := IsSpam(h1.tracker, user, a, content);
      var h3 := IsSpam(h2.tracker, user, x, content);
      && !h1.spam && !h2.spam && !h3.spam
      && h3.tracker.recent[user].channelIds == [a, a, x] && |h3.tracker.recent[user].msgs| == 3
  {
    var h1 := IsSpam(EmptyTracker, user, a, content);
    CorrectedStores(h1.tracker, user, a, content);
    var h2 := IsSpam(h1.tracker, user, a, content);
    CorrectedStores(h2.tracker, user, x, content);
    assert [a] + [a] == [a, a] && [a, a] + [x] == [a, a, x];
  }

  /** `IsSpam` stores a fourth message after a, a, x: two channels at most. */
  lemma CorrectedFourth(t: Tracker, user: string, content: string, a: string, x: string, y: string)
    requires user in t.recent && t.recent[user].channelIds == [a, a, x] && |t.recent[user].msgs| == 3
    ensures var v := IsSpam(t, user, y, content);
      !v.spam && v.tracker.recent[user].channelIds == [a, a, x, y] && |v.tracker.recent[user].msgs| == 4
  {
    TwoNames([a, a, x], a, x);
    CorrectedStores(t, user, y, content);
    assert [a, a, x] + [y] == [a, a, x, y];
  }

  /** `IsSpam` stores a fifth message after four to the two channels x and y. */
  lemma CorrectedFifth(t: Tracker, user: string, content: string, a: string, x: string, y: string, z: string)
    requires user in t.recent && t.recent[user].channelIds == [a, a, x, y] && |t.recent[user].msgs| == 4
    requires y == a || y == x || x == a
    ensures var v := IsSpam(t, user, z, content);
      !v.spam && v.tracker.recent[user].channelIds == [a, a, x, y, z] && |v.tracker.recent[user].msgs| == 5
  {
    if y == a || y == x {
      TwoNames([a, a, x, y], a, x);
    } else {
      TwoNames([a, a, x, y], a, y);
    }
    CorrectedStores(t, user, z, content);
    assert [a, a, x, y] + [z] == [a, a, x, y, z];
  }

  /* Up to Go 1.21: messages to a, a, a, b, c and one more. */

  lemma TripleSorted(a: string)
    ensures Sort([a, a, a]) == [a, a, a]
  {
    assert Sorted([a, a, a]);
    SortedIsFixed([a, a, a]);
  }

  lemma TripleDedup(a: string)
    ensures Dedup([a, a, a]) == [a]
  {
    var s := [a, a, a];
    assert s[..1] == [a];
    DedupStep(s, 1);
    DedupStep(s, 2);
    assert s[..3] == s;
  }

  /** Up to Go 1.21, compacting a, a, a keeps its slots as they were. */
  lemma TripleKept(a: string)
    ensures CompactSlots([a, a, a], false) == Compacted([a, a, a], 1)
  {
    TripleDedup(a);
    assert [a, a, a][1..] == [a, a];
  }

  lemma FourInOrder(a: string, b: string)
    requires Below(a, b)
    ensures Sort([a, a, a, b]) == [a, a, a, b]
  {
    assert Sorted([a, a, a, b]);
    SortedIsFixed([a, a, a, b]);
  }

  lemma FourDedup(a: string, b: string)
    requires a != b
    ensures Dedup([a, a, a, b]) == [a, b]
  {
    var s := [a, a, a, b];
    assert s[..1] == [a];
    DedupStep(s, 1);
    DedupStep(s, 2);
    DedupStep(s, 3);
    assert s[..4] == s;
  }

  /** Up to Go 1.21, compacting a, a, a, b leaves a, b behind a, b. */
  lemma FourKept(a: string, b: string)
    requires a != b
    ensures CompactSlots([a, a, a, b], false) == Compacted([a, b, a, b], 2)
  {
    FourDedup(a, b);
    assert [a, a, a, b][2..] == [a, b];
  }

  /** The stored a, b, a, b, c sorts to a, a, b, b, c. */
  lemma InterleavedSorted(a: string, b: string, c: string)
    requires Below(a, b) && Below(b, c)
    ensures Sort([a, b, a, b, c]) == [a, a, b, b, c]
  {
    BelowTransitive(a, b, c);
    assert Sorted([a, a, b, b, c]);
    assert multiset([a, b, a, b, c]) == multiset([a, a, b, b, c]);
    SortedPermutationUnique(Sort([a, b, a, b, c]), [a, a, b, b, c]);
  }

  lemma FiveDedup(a: string, b: string, c: string)
    requires a != b && b != c
    ensures Dedup([a, a, b, b, c]) == [a, b, c]
  {
    var s := [a, a, b, b, c];
    assert s[..1] == [a];
    DedupStep(s, 1);
    DedupStep(s, 2);
    DedupStep(s, 3);
    DedupStep(s, 4);
    assert s[..5] == s;
  }

  /** Up to Go 1.21, compacting a, a, b, b, c leaves b, c behind a, b, c. */
  lemma FiveKept(a: string, b: string, c: string)
    requires a != b && b != c
    ensures CompactSlots([a, a, b, b, c], false) == Compacted([a, b, c, b, c], 3)
  {
    FiveDedup(a, b, c);
    assert [a, a, b, b, c][3..] == [b, c];
  }

  /** The second `Compact` finds no equal neighbours in a, b, c, b, c. */
  lemma InterleavedKept(a: string, b: string, c: string)
    requires a != b && b != c
    ensures CompactSlots([a, b, c, b, c], false) == Compacted([a, b, c, b, c], 5)
    ensures [a, b, c, b, c][..5] == [a, b, c, b, c]
  {
    DedupNoRepeat([a, b, c, b, c]);
    assert [a, b, c, b, c][5..] == [];
  }

  /** The report of the code as written, rendered. */
  lemma RepeatedMentions(a: string, b: string, c: string)
    ensures Mentions([a, b, c, b, c]) ==
      " <#" + a + ">" + " <#" + b + ">" + " <#" + c + ">" + " <#" + b + ">" + " <#" + c + ">"
  {
    MentionsCons(c, []);
    MentionsCons(b, [c]);
    MentionsCons(c, [b, c]);
    MentionsCons(b, [c, b, c]);
    MentionsCons(a, [b, c, b, c]);
  }

  /** The fourth message: a, a, a compacts in place to itself. */
  lemma RepeatedFourth(t: Tracker, user: string, content: string, a: string, b: string)
    requires user in t.recent && t.recent[user].channelIds == [a, a, a] && |t.recent[user].msgs| == 3
    ensures var v := IsSpamAsWritten(t, user, b, content, false);
      !v.spam && v.tracker.recent[user].channelIds == [a, a, a, b] && |v.tracker.recent[user].msgs| == 4
  {
    TripleSorted(a);
    TripleKept(a);
    assert [a, a, a] + [b] == [a, a, a, b];
    AsWrittenCompacts(t, user, b, content, false, [a, a, a], Compacted([a, a, a], 1), [a, a, a, b]);
  }

  /** Appending to a literal of four channel ids. */
  lemma AppendFifth(ids: seq<string>, c: string)
    requires |ids| == 4
    ensures ids + [c] == [ids[0], ids[1], ids[2], ids[3], c]
  {
  }

  /** The fifth message: a, a, a, b is rewritten in place to a, b, a, b. */
  lemma RepeatedFifth(t: Tracker, user: string, content: string, a: string, b: string, c: string)
    requires user in t.recent && t.recent[user].channelIds == [a, a, a, b] && |t.recent[user].msgs| == 4
    requires a != b && Sort([a, a, a, b]) == [a, a, a, b]
    ensures var v := IsSpamAsWritten(t, user, c, content, false);
      !v.spam && v.tracker.recent[user].channelIds == [a, b, a, b, c] && |v.tracker.recent[user].msgs| == 5
  {
    FourKept(a, b);
    AppendFifth([a, b, a, b], c);
    AsWrittenCompacts(t, user, c, content, false, [a, a, a, b], Compacted([a, b, a, b], 2), [a, b, a, b, c]);
  }

  /** The sixth message: the report renders a, b, c, b, c. */
  lemma RepeatedSixth(t: Tracker, user: string, content: string, a: string, b: string, c: string, last: string)
    requires user in t.recent && t.recent[user].channelIds == [a, b, a, b, c] && |t.recent[user].msgs| == 5
    requires a != b && b != c && Sort([a, b, a, b, c]) == [a, a, b, b, c]
    ensures var v := IsSpamAsWritten(t, user, last, content, false);
      v.spam && v.channels == Mentions([a, b, c, b, c])
  {
    FiveKept(a, b, c);
    InterleavedKept(a, b, c);
    AsWrittenReports(t, user, last, content, false, [a, a, b, b, c], Compacted([a, b, c, b, c], 3), Compacted([a, b, c, b, c], 5));
  }

  /** Up to Go 1.21: a user who posts to a, a, a, b and c is reported on the
      next message, and the report names b and c twice. */
  lemma RepeatedChannelsReported(user: string, content: string, a: string, b: string, c: string, last: string)
    requires Below(a, b) && Below(b, c)
    ensures var h1 := IsSpamAsWritten(EmptyTracker, user, a, content, false);
      var h2 := IsSpamAsWritten(h1.tracker, user, a, content, false);
      var h3 := IsSpamAsWritten(h2.tracker, user, a, content, false);
      var h4 := IsSpamAsWritten(h3.tracker, user, b, content, false);
      var h5 := IsSpamAsWritten(h4.tracker, user, c, content, false);
      var h6 := IsSpamAsWritten(h5.tracker, user, last, content, false);
      && !h1.spam && !h2.spam && !h3.spam && !h4.spam && !h5.spam && h6.spam
      && h6.channels == " <#" + a + ">" + " <#" + b + ">" + " <#" + c + ">" + " <#" + b + ">" + " <#" + c + ">"
  {
    BelowIrreflexive(a);
    BelowIrreflexive(b);
    FourInOrder(a, b);
    InterleavedSorted(a, b, c);
    AsWrittenStart(user, content, a, a, false);
    var h1 := IsSpamAsWritten(EmptyTracker, user, a, content, false);
    var h2 := IsSpamAsWritten(h1.tracker, user, a, content, false);
    var h3 := IsSpamAsWritten(h2.tracker, user, a, content, false);
    RepeatedFourth(h3.tracker, user, content, a, b);
    var h4 := IsSpamAsWritten(h3.tracker, user, b, content, false);
    RepeatedFifth(h4.tracker, user, content, a, b, c);
    var h5 := IsSpamAsWritten(h4.tracker, user, c, content, false);
    RepeatedSixth(h5.tracker, user, content, a, b, c, last);
    RepeatedMentions(a, b, c);
  }

  lemma RepeatedInOrder(a: string, b: string, c: string)
    requires Below(a, b) && Below(b, c)
    ensures Sort([a, a, a, b, c]) == [a, a, a, b, c]
  {
    BelowTransitive(a, b, c);
    assert Sorted([a, a, a, b, c]);
    SortedIsFixed([a, a, a, b, c]);
  }

  lemma RepeatedDedup(a: string, b: string, c: string)
    requires a != b && b != c
    ensures Dedup([a, a, a, b, c]) == [a, b, c]
  {
    var s := [a, a, a, b, c];
    assert s[..1] == [a];
    DedupStep(s, 1);
    DedupStep(s, 2);
    DedupStep(s, 3);
    DedupStep(s, 4);
    assert s[..5] == s;
  }

  /** `IsSpam` on a, a, a, b, c: the report names each channel once. */
  lemma RepeatedCorrected(t: Tracker, user: string, channel: string, content: string, a: string, b: string, c: string)
    requires user in t.recent && t.recent[user].channelIds == [a, a, a, b, c] && |t.recent[user].msgs| > 2
    requires a != b && b != c && Sort([a, a, a, b, c]) == [a, a, a, b, c]
    ensures IsSpam(t, user, channel, content).spam
    ensures IsSpam(t, user, channel, content).channels == Mentions([a, b, c])
  {
    RepeatedDedup(a, b, c);
    SortThenCompact([a, a, a, b, c]);
  }

  /** The report of `IsSpam`, rendered. */
  lemma DistinctMentions(a: string, b: string, c: string)
    ensures Mentions([a, b, c]) == " <#" + a + ">" + " <#" + b + ">" + " <#" + c + ">"
  {
    MentionsCons(c, []);
    MentionsCons(b, [c]);
    MentionsCons(a, [b, c]);
  }

  /** `IsSpam` on the same history: the sixth message is reported, and the
      report names a, b and c once each. */
  lemma RepeatedChannelsReportedOnce(user: string, content: string, a: string, b: string, c: string, last: string)
    requires Below(a, b) && Below(b, c)
    ensures var h1 := IsSpam(EmptyTracker, user, a, content);
      var h2 := IsSpam(h1.tracker, user, a, content);
      var h3 := IsSpam(h2.tracker, user, a, content);
      var h4 := IsSpam(h3.tracker, user, b, content);
      var h5 := IsSpam(h4.tracker, user, c, content);
      var h6 := IsSpam(h5.tracker, user, last, content);
      && !h1.spam && !h2.spam && !h3.spam && !h4.spam && !h5.spam && h6.spam
      && h6.channels == " <#" + a + ">" + " <#" + b + ">" + " <#" + c + ">"
  {
    BelowIrreflexive(a);
    BelowIrreflexive(b);
    RepeatedInOrder(a, b, c);
    CorrectedStart(user, content, a, a);
    var h1 := IsSpam(EmptyTracker, user, a, content);
    var h2 := IsSpam(h1.tracker, user, a, content);
    var h3 := IsSpam(h2.tracker, user, a, content);
    CorrectedFourth(h3.tracker, user, content, a, a, b);
    var h4 := IsSpam(h3.tracker, user, b, content);
    CorrectedFifth(h4.tracker, user, content, a, a, b, c);
    var h5 := IsSpam(h4.tracker, user, c, content);
    RepeatedCorrected(h5.tracker, user, last, content, a, b, c);
    DistinctMentions(a, b, c);
  }

  /* From Go 1.22 on: messages to a, a, b, a and one more. */

  /** Two cleared slots, and one. */
  lemma BlankSlots()
    ensures Blank(2) == ["", ""] && Blank(1) == [""] && Blank(0) == []
  {
  }

  lemma PairedSorted(a: string, b: string)
    requires Below(a, b)
    ensures Sort([a, a, b]) == [a, a, b]
  {
    assert Sorted([a, a, b]);
    SortedIsFixed([a, a, b]);
  }

  lemma PairedDedup(a: string, b: string)
    requires a != b
    ensures Dedup([a, a, b]) == [a, b]
  {
    var s := [a, a, b];
    assert s[..1] == [a];
    DedupStep(s, 1);
    DedupStep(s, 2);
    assert s[..3] == s;
  }

  /** From Go 1.22 on, compacting a, a, b clears the slot after a, b. */
  lemma PairedCleared(a: string, b: string)
    requires a != b
    ensures CompactSlots([a, a, b], true) == Compacted([a, b, ""], 2)
  {
    PairedDedup(a, b);
    BlankSlots();
  }

  /** The stored a, b, "", a sorts to "", a, a, b. */
  lemma ClearedSlotSorted(a: string, b: string)
    requires a != "" && Below(a, b)
    ensures Sort([a, b, "", a]) == ["", a, a, b]
  {
    assert Sorted(["", a, a, b]);
    assert multiset([a, b, "", a]) == multiset(["", a, a, b]);
    SortedPermutationUnique(Sort([a, b, "", a]), ["", a, a, b]);
  }

  lemma ClearedSlotDedup(a: string, b: string)
    requires a != "" && a != b
    ensures Dedup(["", a, a, b]) == ["", a, b]
  {
    var s := ["", a, a, b];
    assert s[..1] == [""];
    DedupStep(s, 1);
    DedupStep(s, 2);
    DedupStep(s, 3);
    assert s[..4] == s;
  }

  /** From Go 1.22 on, compacting "", a, a, b clears the slot after "", a, b. */
  lemma ClearedSlotCleared(a: string, b: string)
    requires a != "" && a != b
    ensures CompactSlots(["", a, a, b], true) == Compacted(["", a, b, ""], 3)
  {
    ClearedSlotDedup(a, b);
    BlankSlots();
  }

  /** The second `Compact` finds no equal neighbours in "", a, b, "". */
  lemma ClearedSlotKept(a: string, b: string)
    requires a != "" && a != b && b != ""
    ensures CompactSlots(["", a, b, ""], true) == Compacted(["", a, b, ""], 4)
    ensures ["", a, b, ""][..4] == ["", a, b, ""]
  {
    DedupNoRepeat(["", a, b, ""]);
    BlankSlots();
  }

  /** The report of the fifth message, rendered. */
  lemma ClearedSlotMentions(a: string, b: string)
    ensures Mentions(["", a, b, ""]) == " <#" + "" + ">" + " <#" + a + ">" + " <#" + b + ">" + " <#" + "" + ">"
  {
    MentionsCons("", []);
    MentionsCons(b, [""]);
    MentionsCons(a, [b, ""]);
    MentionsCons("", [a, b, ""]);
  }

  /** The fourth message: a, a, b is rewritten in place to a, b, "". */
  lemma PairedFourth(t: Tracker, user: string, content: string, a: string, b: string)
    requires user in t.recent && t.recent[user].channelIds == [a, a, b] && |t.recent[user].msgs| == 3
    requires a != b && Sort([a, a, b]) == [a, a, b]
    ensures var v := IsSpamAsWritten(t, user, a, content, true);
      !v.spam && v.tracker.recent[user].channelIds == [a, b, "", a] && |v.tracker.recent[user].msgs| == 4
  {
    PairedCleared(a, b);
    assert [a, b, ""] + [a] == [a, b, "", a];
    AsWrittenCompacts(t, user, a, content, true, [a, a, b], Compacted([a, b, ""], 2), [a, b, "", a]);
  }

  /** The fifth message: the cleared slot counts as a third channel. */
  lemma PairedFifth(t: Tracker, user: string, content: string, a: string, b: string, last: string)
    requires user in t.recent && t.recent[user].channelIds == [a, b, "", a] && |t.recent[user].msgs| == 4
    requires a != "" && a != b && b != "" && Sort([a, b, "", a]) == ["", a, a, b]
    ensures var v := IsSpamAsWritten(t, user, last, content, true);
      v.spam && v.channels == Mentions(["", a, b, ""])
  {
    ClearedSlotCleared(a, b);
    ClearedSlotKept(a, b);
    AsWrittenReports(t, user, last, content, true, ["", a, a, b], Compacted(["", a, b, ""], 3), Compacted(["", a, b, ""], 4));
  }

  /** From Go 1.22 on: a user who posts to a, a, b and a, two channels in
      all, is reported on the next message, and the report mentions an empty
      channel id twice. */
  lemma BlankChannelReported(user: string, content: string, a: string, b: string, last: string)
    requires a != "" && Below(a, b)
    ensures var h1 := IsSpamAsWritten(EmptyTracker, user, a, content, true);
      var h2 := IsSpamAsWritten(h1.tracker, user, a, content, true);
      var h3 := IsSpamAsWritten(h2.tracker, user, b, content, true);
      var h4 := IsSpamAsWritten(h3.tracker, user, a, content, true);
      var h5 := IsSpamAsWritten(h4.tracker, user, last, content, true);
      && !h1.spam && !h2.spam && !h3.spam && !h4.spam && h5.spam
      && h5.channels == " <#" + "" + ">" + " <#" + a + ">" + " <#" + b + ">" + " <#" + "" + ">"
  {
    BelowIrreflexive(a);
    PairedSorted(a, b);
    ClearedSlotSorted(a, b);
    AsWrittenStart(user, content, a, b, true);
    var h1 := IsSpamAsWritten(EmptyTracker, user, a, content, true);
    var h2 := IsSpamAsWritten(h1.tracker, user, a, content, true);
    var h3 := IsSpamAsWritten(h2.tracker, user, b, content, true);
    PairedFourth(h3.tracker, user, content, a, b);
    var h4 := IsSpamAsWritten(h3.tracker, user, a, content, true);
    PairedFifth(h4.tracker, user, content, a, b, last);
    ClearedSlotMentions(a, b);
  }

  /** `IsSpam` on the same history: a user who only ever posts to two
      channels is never reported. */
  lemma TwoChannelsNeverReported(user: string, content: string, a: string, b: string, last: string)
    ensures var h1 := IsSpam(EmptyTracker, user, a, content);
      var h2 := IsSpam(h1.tracker, user, a, content);
      var h3 := IsSpam(h2.tracker, user, b, content);
      var h4 := IsSpam(h3.tracker, user, a, content);
      var h5 := IsSpam(h4.tracker, user, last, content);
      !h1.spam && !h2.spam && !h3.spam && !h4.spam && !h5.spam
  {
    CorrectedStart(user, content, a, b);
    var h1 := IsSpam(EmptyTracker, user, a, content);
    var h2 := IsSpam(h1.tracker, user, a, content);
    var h3 := IsSpam(h2.tracker, user, b, content);
    CorrectedFourth(h3.tracker, user, content, a, b, a);
    var h4 := IsSpam(h3.tracker, user, a, content);
    CorrectedFifth(h4.tracker, user, content, a, b, a, last);
  }
}
