/** The board package: the `Board` record and its constructor, which looks up
    the owning team and appends the new board to it. In the source the lookup
    hands back a copy of the stored team, so the append is made on that copy
    and the store is left as it was. `NewAttached` is the constructor with the
    append that is evidently intended, made on the store itself. */
module Board {
  import opened Uuid
  import Team

  datatype Board = Board(id: UUID, name: string)

  /** The result of creating a board: the board handed back to the caller
      and the team store as it is afterwards. */
  datatype Creation = Creation(board: Board, store: seq<Team.Team>)

  /** The constructor as written: `freshId` stands for its `uuid.New()`. The
      team found for `teamId` (or the zero team) is a local value, and the
      board is appended to that value only. */
  function New(store: seq<Team.Team>, name: string, teamId: UUID, freshId: UUID): (r: Creation)
    requires IsRandom(freshId)
    ensures r.board.name == name
    ensures r.board.id == freshId && r.board.id != Nil
    ensures r.store == store
  {
    var board := Board(freshId, name);
    var local := Team.GetTeam(store, teamId);
    var appended := Team.AddBoard(local, board.id);
    Creation(board, store)
  }

  /** The board does not depend on the team id or on the store: the same
      board comes back whether or not a team was found. */
  lemma NewBoardIndependentOfTeam(s1: seq<Team.Team>, s2: seq<Team.Team>, name: string,
                                  t1: UUID, t2: UUID, freshId: UUID)
    requires IsRandom(freshId)
    requires Team.Listed(s1, t1) && !Team.Listed(s2, t2)
    ensures New(s1, name, t1, freshId).board == New(s2, name, t2, freshId).board
  {
  }

  /** As written, the appended board is lost: a later lookup of the team
      returns what it returned before the board was created. */
  lemma NewBoardIsLost(store: seq<Team.Team>, name: string, teamId: UUID, freshId: UUID)
    requires IsRandom(freshId)
    ensures Team.GetTeam(New(store, name, teamId, freshId).store, teamId) == Team.GetTeam(store, teamId)
  {
  }

  /** Concretely: creating a board for the fixture `DevTeam` leaves that
      team's board list empty, where the intended constructor records it. */
  lemma DevTeamBoardIsLost(freshId: UUID)
    requires IsRandom(freshId)
    ensures Team.GetTeam(New(Team.DevTeams, "Sprint 1", Team.DevTeam.id, freshId).store, Team.DevTeam.id).boards == []
    ensures Team.GetTeam(NewAttached(Team.DevTeams, "Sprint 1", Team.DevTeam.id, freshId).store, Team.DevTeam.id).boards == [freshId]
  {
    Team.DevTeamsWellFormed();
    assert Team.DevTeams[0].id == Team.DevTeam.id;
    Team.GetTeamAfterAttach(Team.DevTeams, Team.DevTeam.id, freshId);
  }

  /** The constructor with the intended behaviour: the same board, and the
      first team whose id is `teamId` gains the board's id in the store; every
      other entry, later teams with the same id included, stays as it was.
      When no team has that id, the store is unchanged. */
  function NewAttached(store: seq<Team.Team>, name: string, teamId: UUID, freshId: UUID): (r: Creation)
    requires IsRandom(freshId)
    ensures r.board == New(store, name, teamId, freshId).board
    ensures |r.store| == |store|
    ensures !Team.Listed(store, teamId) ==> r.store == store
    ensures forall i :: Team.IsFirstMatch(store, teamId, i) ==> r.store[i] == Team.AddBoard(store[i], freshId)
    ensures forall k :: 0 <= k < |store| && !Team.IsFirstMatch(store, teamId, k) ==> r.store[k] == store[k]
    ensures forall k :: 0 <= k < |store| && store[k].id != teamId ==> r.store[k] == store[k]
  {
    Creation(Board(freshId, name), Team.AttachBoard(store, teamId, freshId))
  }

  /** With the intended constructor, a team that the store lists gains the
      new board's id at the end of its board list. */
  lemma NewAttachedRecordsBoard(store: seq<Team.Team>, name: string, teamId: UUID, freshId: UUID)
    requires IsRandom(freshId)
    requires Team.Listed(store, teamId)
    ensures var t := Team.GetTeam(NewAttached(store, name, teamId, freshId).store, teamId);
            t.id == teamId && t.boards == Team.GetTeam(store, teamId).boards + [freshId]
  {
    Team.GetTeamAfterAttach(store, teamId, freshId);
    Team.GetTeamFoundIff(store, teamId);
  }

  /** Two boards created for a stored team are both recorded on it, in order
      of creation. */
  lemma {:induction false} TwoBoardsBothRecorded(store: seq<Team.Team>, teamId: UUID,
                                                 name1: string, id1: UUID, name2: string, id2: UUID)
    requires IsRandom(id1) && IsRandom(id2)
    requires Team.Listed(store, teamId)
    ensures var s1 := NewAttached(store, name1, teamId, id1).store;
            var s2 := NewAttached(s1, name2, teamId, id2).store;
            Team.GetTeam(s2, teamId).boards == Team.GetTeam(store, teamId).boards + [id1, id2]
  {
    var s1 := NewAttached(store, name1, teamId, id1).store;
    Team.GetTeamAfterAttach(store, teamId, id1);
    Team.GetTeamFoundIff(store, teamId);
    Team.GetTeamFoundIff(s1, teamId);
    assert Team.Listed(s1, teamId) by {
      var t := Team.GetTeam(store, teamId);
      var i :| Team.IsFirstMatch(store, teamId, i) && t == store[i];
      assert s1[i].id == teamId;
    }
    Team.GetTeamAfterAttach(s1, teamId, id2);
    Team.AddBoardTwice(Team.GetTeam(store, teamId), id1, id2);
  }
}
