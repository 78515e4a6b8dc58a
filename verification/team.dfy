/** The team package: the `Team` record, its constructor, the first-match
    lookup over the fixture store and the board-append mutator. The package's
    global slice of teams is modelled as an explicit `seq<Team>` that callers
    pass in and get back. */
module Team {
  import opened Uuid

  datatype Team = Team(
    id: UUID,
    name: string,
    members: seq<UUID>,
    actions: seq<UUID>,
    creator: UUID,
    admins: seq<UUID>,
    boards: seq<UUID>
  )

  /** The Go zero value `Team{}`: Nil ids, empty name, no list entries. */
  const Zero: Team := Team(Nil, "", [], [], Nil, [], [])

  /** The invariant a new team starts with: its creator is both a member and
      an admin. */
  predicate WellFormed(t: Team)
  {
    t.creator in t.members && t.creator in t.admins
  }

  /** Number of occurrences of `x` in `s`. */
  function Count(s: seq<UUID>, x: UUID): nat
  {
    multiset(s)[x]
  }

  /** A team named `name` whose only member and only admin is `creator`;
      `freshId` stands for the `uuid.New()` the constructor calls. */
  function New(name: string, creator: UUID, freshId: UUID): (t: Team)
    requires IsRandom(freshId)
    ensures t.id == freshId && t.id != Nil
    ensures t.name == name
    ensures t.creator == creator
    ensures t.members == [creator] && t.admins == [creator]
    ensures WellFormed(t)
    ensures Count(t.members, creator) == 1 && Count(t.admins, creator) == 1
    ensures t.actions == [] && t.boards == []
  {
    Team(freshId, name, [creator], [], creator, [creator], [])
  }

  /** The team appended with `boardId`; as in the source, a board id the
      team already lists is appended again. */
  function AddBoard(t: Team, boardId: UUID): (t': Team)
    ensures |t'.boards| == |t.boards| + 1
    ensures t'.boards[..|t.boards|] == t.boards
    ensures t'.boards[|t.boards|] == boardId
    ensures Count(t'.boards, boardId) == Count(t.boards, boardId) + 1
    ensures t'.id == t.id && t'.name == t.name && t'.members == t.members
    ensures t'.actions == t.actions && t'.creator == t.creator && t'.admins == t.admins
  {
    t.(boards := t.boards + [boardId])
  }

  /** Appending a board never breaks the creator invariant. */
  lemma AddBoardKeepsWellFormed(t: Team, boardId: UUID)
    requires WellFormed(t)
    ensures WellFormed(AddBoard(t, boardId))
  {
  }

  /** Two appends keep their order, and appending the same id twice lists
      it twice. */
  lemma AddBoardTwice(t: Team, a: UUID, b: UUID)
    ensures AddBoard(AddBoard(t, a), b).boards == t.boards + [a, b]
    ensures a == b ==> Count(AddBoard(AddBoard(t, a), b).boards, a) == Count(t.boards, a) + 2
  {
    assert t.boards + [a] + [b] == t.boards + [a, b];
  }

  /** `i` is the position of the first team in `store` whose id is `id`. */
  ghost predicate IsFirstMatch(store: seq<Team>, id: UUID, i: int)
  {
    && 0 <= i < |store|
    && store[i].id == id
    && forall j :: 0 <= j < i ==> store[j].id != id
  }

  /** Some team in `store` has id `id`. */
  ghost predicate Listed(store: seq<Team>, id: UUID)
  {
    exists k :: 0 <= k < |store| && store[k].id == id
  }

  /** The first team of `store` whose id is `id`, or `Zero` when none has it;
      a miss is not signalled in any other way. */
  function GetTeam(store: seq<Team>, id: UUID): (t: Team)
    ensures Listed(store, id) ==> exists i :: IsFirstMatch(store, id, i) && t == store[i]
    ensures !Listed(store, id) ==> t == Zero
  {
    if |store| == 0 then Zero
    else if store[0].id == id then
      assert IsFirstMatch(store, id, 0);
      store[0]
    else
      var t := GetTeam(store[1..], id);
      assert Listed(store, id) ==> Listed(store[1..], id) by {
        if Listed(store, id) {
          var k :| 0 <= k < |store| && store[k].id == id;
          assert store[1..][k - 1].id == id;
        }
      }
      assert Listed(store[1..], id) ==> exists i :: IsFirstMatch(store, id, i) && t == store[i] by {
        if Listed(store[1..], id) {
          var i :| IsFirstMatch(store[1..], id, i) && t == store[1..][i];
          assert IsFirstMatch(store, id, i + 1);
        }
      }
      t
  }

  /** Reference definition: every team of `store` with id `id`, in order. */
  function Matches(store: seq<Team>, id: UUID): seq<Team>
  {
    if |store| == 0 then []
    else if store[0].id == id then [store[0]] + Matches(store[1..], id)
    else Matches(store[1..], id)
  }

  /** The lookup is the head of the list of all matches, or `Zero` when that
      list is empty. */
  lemma {:induction false} GetTeamIsFirstOfMatches(store: seq<Team>, id: UUID)
    ensures |Matches(store, id)| > 0 ==> GetTeam(store, id) == Matches(store, id)[0]
    ensures |Matches(store, id)| == 0 ==> GetTeam(store, id) == Zero
  {
    if |store| > 0 && store[0].id != id {
      GetTeamIsFirstOfMatches(store[1..], id);
    }
  }

  /** For a non-Nil id, the lookup returns a team carrying that id exactly
      when the store lists it; the Nil id cannot be told apart from a miss. */
  lemma GetTeamFoundIff(store: seq<Team>, id: UUID)
    ensures id != Nil ==> (GetTeam(store, id).id == id <==> Listed(store, id))
    ensures id == Nil ==> GetTeam(store, id).id == Nil
  {
    var t := GetTeam(store, id);
    if Listed(store, id) {
      var i :| IsFirstMatch(store, id, i) && t == store[i];
    }
  }

  /** Over a store of well-formed teams the lookup yields a well-formed team
      or the zero team. */
  lemma GetTeamWellFormed(store: seq<Team>, id: UUID)
    requires forall k :: 0 <= k < |store| ==> WellFormed(store[k])
    ensures WellFormed(GetTeam(store, id)) || GetTeam(store, id) == Zero
  {
    var t := GetTeam(store, id);
    if Listed(store, id) {
      var i :| IsFirstMatch(store, id, i) && t == store[i];
    }
  }

  /** The store with `boardId` appended to the first team whose id is `id`,
      and unchanged when there is none. This is the update the board
      constructor evidently intends; the source itself never performs it. */
  function AttachBoard(store: seq<Team>, id: UUID, boardId: UUID): (s': seq<Team>)
    ensures |s'| == |store|
    ensures forall i :: IsFirstMatch(store, id, i) ==> s'[i] == AddBoard(store[i], boardId)
    ensures forall k :: 0 <= k < |store| && !IsFirstMatch(store, id, k) ==> s'[k] == store[k]
    ensures !Listed(store, id) ==> s' == store
  {
    if |store| == 0 then store
    else if store[0].id == id then [AddBoard(store[0], boardId)] + store[1..]
    else
      var rest := AttachBoard(store[1..], id, boardId);
      assert forall i :: IsFirstMatch(store, id, i) ==> IsFirstMatch(store[1..], id, i - 1);
      assert forall k :: 1 <= k < |store| && !IsFirstMatch(store, id, k) ==> !IsFirstMatch(store[1..], id, k - 1);
      [store[0]] + rest
  }

  /** After attaching, looking the team up again shows the appended board. */
  lemma {:induction false} GetTeamAfterAttach(store: seq<Team>, id: UUID, boardId: UUID)
    requires Listed(store, id)
    ensures GetTeam(AttachBoard(store, id, boardId), id) == AddBoard(GetTeam(store, id), boardId)
  {
    if store[0].id != id {
      var k :| 0 <= k < |store| && store[k].id == id;
      assert store[1..][k - 1].id == id;
      GetTeamAfterAttach(store[1..], id, boardId);
      assert AttachBoard(store, id, boardId)[1..] == AttachBoard(store[1..], id, boardId);
    }
  }

  /** The development team that the fixture user belongs to. */
  const DevTeam: Team := Team(
    0x0e596f7d_fe22_4d97_baf3_f5c508702066,
    "BR Dev Team 1",
    [0x9a4269ee_45f2_43ed_8e81_5cc1f6b89960],
    [],
    0x9a4269ee_45f2_43ed_8e81_5cc1f6b89960,
    [0x9a4269ee_45f2_43ed_8e81_5cc1f6b89960],
    []
  )

  /** The fixture store every lookup starts from. */
  const DevTeams: seq<Team> := [
    DevTeam,
    Team(
      0x9a4269ee_45f2_43ed_8e81_5cc1f6b89960,
      "BR Dev Team 2",
      [0x9a4269ee_45f2_43ed_8e81_5cc1f6b89960],
      [],
      0x9a4269ee_45f2_43ed_8e81_5cc1f6b89960,
      [0x9a4269ee_45f2_43ed_8e81_5cc1f6b89960],
      []
    )
  ]

  /** Every fixture team satisfies the invariant `New` establishes, the
      fixture ids are distinct, and `DevTeam` is found under its own id. */
  lemma DevTeamsWellFormed()
    ensures forall k :: 0 <= k < |DevTeams| ==> WellFormed(DevTeams[k])
    ensures forall j, k :: 0 <= j < k < |DevTeams| ==> DevTeams[j].id != DevTeams[k].id
    ensures GetTeam(DevTeams, DevTeam.id) == DevTeam
  {
    assert IsFirstMatch(DevTeams, DevTeam.id, 0);
  }
}
