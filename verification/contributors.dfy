/** The list of trusted members' names that new names are compared against:
    every non-empty lower-cased username, nickname and global name of a member
    holding one of the privileged roles, sorted and without repeats. */
module Contributors {
  import opened Wrappers
  import opened Text
  import opened Ordering
  import opened Discord

  /** n is one of m's names, lower-cased and non-empty, and m holds one of `roles`. */
  predicate Contributes(m: Member, roles: set<string>, n: string) {
    && HoldsAnyRole(m.roles, roles)
    && n != ""
    && (n == Lower(m.user.username) || n == Lower(m.nick) || n == Lower(m.user.globalName))
  }

  /** The names one member adds, in the order username, nickname, global name,
      each only when non-empty after lower-casing. */
  function MemberNames(m: Member): seq<string> {
    var username := Lower(m.user.username);
    var nick := Lower(m.nick);
    var global := Lower(m.user.globalName);
    (if username != "" then [username] else [])
      + (if nick != "" then [nick] else [])
      + (if global != "" then [global] else [])
  }

  /** The member loop: the names of every privileged member appended in member
      order (a member holding several privileged roles is added once). */
  function Collect(members: seq<Member>, roles: set<string>): (names: seq<string>)
    ensures forall n :: n in names <==> exists i :: 0 <= i < |members| && Contributes(members[i], roles, n)
  {
    if |members| == 0 then []
    else
      var own := if HoldsAnyRole(members[0].roles, roles) then MemberNames(members[0]) else [];
      var rest := Collect(members[1..], roles);
      assert forall n :: n in own <==> Contributes(members[0], roles, n);
      assert forall i :: 0 < i < |members| ==> members[i] == members[1..][i - 1];
      own + rest
  }

  /** Collect, then sort and compact: strictly ascending, so free of repeats,
      and holding exactly the contributed names. */
  function Build(members: seq<Member>, roles: set<string>): (list: seq<string>)
    ensures StrictlySorted(list)
    ensures forall n :: n in list <==> exists i :: 0 <= i < |members| && Contributes(members[i], roles, n)
  {
    var raw := Collect(members, roles);
    var list := SortCompact(raw);
    assert forall n :: n in list <==> n in Elems(list);
    assert forall n :: n in raw <==> n in Elems(raw);
    list
  }

  /** `buildContributorsList` over all pages of the member listing: only the
      first call builds, and a list already built is kept as it is. */
  function BuildOnce(current: Option<seq<string>>, members: seq<Member>, roles: set<string>): (list: seq<string>)
    ensures current.Some? ==> list == current.value
    ensures current.None? ==> StrictlySorted(list)
    ensures current.None? ==> forall n :: n in list <==>
      exists i :: 0 <= i < |members| && Contributes(members[i], roles, n)
  {
    if current.Some? then current.value else Build(members, roles)
  }
}
