/** The state both spam trackers share: a map from user id to that user's
    entry, and the clearing timers still pending. A timer is started when an
    entry is created and, two minutes later, deletes it; later messages do not
    restart it. */
module Timers {

  datatype Tracker<V> = Tracker(recent: map<string, V>, timers: multiset<string>)

  /** Exactly the tracked users have one timer pending. */
  ghost predicate TimersMatch<V>(t: Tracker<V>) {
    forall u :: t.timers[u] == (if u in t.recent then 1 else 0)
  }

  /** The clearing goroutine firing for `user`: the entry goes, and so does
      the timer. */
  function Expire<V>(t: Tracker<V>, user: string): (t': Tracker<V>)
    requires user in t.timers
    ensures user !in t'.recent
    ensures forall u :: u != user ==>
      (u in t'.recent <==> u in t.recent) && (u in t.recent ==> t'.recent[u] == t.recent[u])
    ensures |t'.timers| + 1 == |t.timers|
    ensures TimersMatch(t) ==> TimersMatch(t')
  {
    Tracker(t.recent - {user}, t.timers - multiset{user})
  }
}
