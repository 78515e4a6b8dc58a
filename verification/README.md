# best-retro domain layer in Dafny

This project models the in-memory domain layer of the best-retro
retrospective-board backend (Go). It covers three parts:

- **team**: the `Team` record, its constructor `New`, the first-match lookup
  `GetTeam` over the fixture store `DevTeams`, and the `AddBoard` append.
- **board**: the `Board` record and `New(name, teamId)`, which looks the owning
  team up and appends the board's id to the copy of the team that the lookup
  returns.
- **user**: the `User` record, `New(name, email)` and the `DevUser` fixture.

Modelling choices:

- A UUID is the 128-bit number its sixteen bytes spell out, read big-endian
  (`Uuid.UUID`). `Uuid.Nil` is zero.
- `uuid.New()` is random, so every constructor takes the fresh id as a
  parameter `freshId`. That parameter must satisfy `Uuid.IsRandom`: version 4
  and the variant of RFC 4122 (section 4.4), the bits `uuid.New` always sets.
  This is what makes a fresh id provably different from `Nil`.
- The package-level slice `DevTeams` becomes an explicit store of type
  `seq<Team>`. The lookup takes the store as an argument. The board
  constructor returns the store together with the new board (`Board.Creation`).

Board creation is evidently meant to record the new board on its team:
server/board/board.go:16 announces that the board is being added to the team,
and server/board/board.go:25 calls `t.AddBoard(newBoard.Id)`. The code does not
achieve this. `GetTeam` returns a copy of the stored team
(server/team/team.go:57-59), and `AddBoard` changes only that local copy. The
model follows the code: `Board.New` returns the store unchanged. The intended
behaviour is modelled separately as `Board.NewAttached` (see Findings).
A user's `Teams` is an ordered slice (server/user/user.go:11), modelled as a
sequence.

## Model

| member | source | states |
|---|---|---|
| `Uuid.IsRandom` | server/team/team.go:21 | an id produced by `uuid.New()` (also at server/board/board.go:19 and server/user/user.go:17) is a version-4 UUID of the RFC 4122 variant, and such an id is never `Nil` |
| `Team.New` | server/team/team.go:19-29 | the new team keeps the given name and the fresh (non-Nil) id; members and admins are exactly `[creator]`, so the creator appears once in each and the team is well-formed; actions and boards start empty |
| `Team.AddBoard` | server/team/team.go:65-69 | boards grows by exactly one; the old boards are kept as a prefix and `boardId` is last; its count rises by one, so duplicates are not rejected; id, name, members, actions, creator and admins are unchanged |
| `Team.AddBoardKeepsWellFormed` | server/team/team.go:65-67 | appending a board keeps the creator in members and admins |
| `Team.AddBoardTwice` | server/team/team.go:65-67 | two appends land in call order; appending the same id twice lists it twice |
| `Team.GetTeam` | server/team/team.go:55-63 | if some team in the store has the id, the result is the first such team; otherwise the result is the zero team |
| `Team.GetTeamIsFirstOfMatches` | server/team/team.go:57-62 | the lookup equals the head of the ordered list of all matching teams, or the zero team when that list is empty |
| `Team.GetTeamFoundIff` | server/team/team.go:55-63 | for a non-Nil id, the result carries that id exactly when the store lists it; looking up Nil always gives a Nil id, so a miss and a hit on Nil look the same |
| `Team.GetTeamWellFormed` | server/team/team.go:55-63 | over a store of well-formed teams, the lookup gives a well-formed team or the zero team |
| `Team.DevTeamsWellFormed` | server/team/team.go:31-53 | every fixture team has its creator among both members and admins; fixture ids are distinct; `DevTeam` is found under its own id |
| `Team.AttachBoard` | server/board/board.go:23-25 | corrected update: only the first team with the id gets `AddBoard`; every other entry and the length stay the same; the store is unchanged when no team has the id |
| `Team.GetTeamAfterAttach` | server/board/board.go:23-25 | after the corrected update, a lookup of a listed team gives the old lookup result with the board appended |
| `Board.New` | server/board/board.go:14-28 | the board keeps the given name and its id is the fresh, non-Nil id, not taken from `teamId`; the store comes back unchanged whether or not the team was found |
| `Board.NewBoardIndependentOfTeam` | server/board/board.go:18-27 | a lookup hit and a lookup miss give the same board, for any team ids and any stores |
| `Board.NewBoardIsLost` | server/board/board.go:23-25 | as written, a lookup of the team after board creation gives the same result as before it |
| `Board.DevTeamBoardIsLost` | server/board/board.go:23-25 | for the fixture `DevTeam`, the as-written constructor leaves its boards empty; the corrected one leaves exactly `[freshId]` |
| `Board.NewAttached` | server/board/board.go:14-28 | corrected constructor: the same board as `New`; the store keeps its length; the first team with `teamId` becomes that team with the board appended; every other entry, including later teams with the same id, is untouched; the store is unchanged when the team is not listed |
| `Board.NewAttachedRecordsBoard` | server/board/board.go:23-25 | with the corrected constructor, a listed team's boards become its old boards plus the new board's id |
| `Board.TwoBoardsBothRecorded` | server/board/board.go:23-25 | two corrected creations for one listed team record both board ids, in creation order |
| `User.New` | server/user/user.go:15-23 | name and email are kept unvalidated; the id is the fresh, non-Nil id; teams is empty; the focused team is Nil, so the user is focus-consistent |
| `User.DevUserConsistent` | server/user/user.go:25-31 | `DevUser` focuses a team it belongs to; that team is `DevTeam`, which the fixture store lookup finds; `DevUser` is `DevTeam`'s creator, a member and an admin |

## Findings

| source | as written | input that shows it | evidently intended | confidence | as-written member | corrected member |
|---|---|---|---|---|---|---|
| server/board/board.go:23-25 | `AddBoard` is applied to the copy of the team that `GetTeam` returns, so the stored team never gains the board | `New("Sprint 1", DevTeam.Id)` over `DevTeams`: afterwards `GetTeam(DevTeam.Id).Boards` is still empty | the stored team's `Boards` ends with the new board's id | medium; not executed | `Board.NewBoardIsLost` | `Board.NewAttachedRecordsBoard` |

## Left out

- HTTP routing, headers, JSON encoding and the server loop of server/main.go
  are I/O plumbing. Its one-argument call to `board.New` does not match the
  two-argument signature; the model follows server/board/board.go.
- The Rust prototype (server/src/main.rs, server/src/user.rs) is an HTTP
  server plus a constant fixture, with no logic.
- server/action/action.go has only the `Status` enumeration and fixture data,
  with no operation to model. The same goes for the `TeamMemberDetails`
  fixtures in server/team/team.go.
- UUID generation, parsing and printing belong to a foreign library. Fresh ids
  are parameters. The fixture ids are written as the numbers their text
  denotes.
- User.New: the fresh id is not proved distinct from earlier ids, because `uuid.New` is random and the model knows only that its result is a version-4 UUID.
- Team.New: the fresh id is not proved distinct from earlier ids, for the same reason.
- Board.New: the fresh id is not proved distinct from earlier ids, for the same reason.
- Go distinguishes a nil slice (in `Team{}`) from an empty slice (in `New`).
  The difference shows only in JSON output (`null` against `[]`), so both are
  the empty sequence here.
- The debug output (`println`, `fmt.Println`) is left out.
- Concurrent handlers racing on the shared slices are left out. The model is
  sequential.
