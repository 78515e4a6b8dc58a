/** The user package: the `User` record, its constructor and the fixture
    user that the development team fixtures refer to. */
module User {
  import opened Uuid
  import Team

  datatype User = User(id: UUID, name: string, email: string, teams: seq<UUID>, focusedTeam: UUID)

  /** A user either has no focused team (the Nil id) or focuses one of the
      teams it belongs to. */
  predicate FocusConsistent(u: User)
  {
    u.focusedTeam == Nil || u.focusedTeam in u.teams
  }

  /** A new user with the given name and email, taken as they are, belonging
      to no team and focusing none; `freshId` stands for the `uuid.New()` the
      constructor calls. */
  function New(name: string, email: string, freshId: UUID): (u: User)
    requires IsRandom(freshId)
    ensures u.id == freshId && u.id != Nil
    ensures u.name == name && u.email == email
    ensures |u.teams| == 0
    ensures u.focusedTeam == Nil
    ensures FocusConsistent(u)
  {
    User(freshId, name, email, [], Nil)
  }

  /** The development user. */
  const DevUser: User := User(
    0x9a4269ee_45f2_43ed_8e81_5cc1f6b89960,
    "Nimmo",
    "dnimmo@gmail.com",
    [0x0e596f7d_fe22_4d97_baf3_f5c508702066],
    0x0e596f7d_fe22_4d97_baf3_f5c508702066
  )

  /** The fixture user agrees with the team fixtures: it focuses a team it
      belongs to, that team is `DevTeam` and is found in the fixture store,
      and the user is that team's creator, a member and an admin. */
  lemma DevUserConsistent()
    ensures FocusConsistent(DevUser) && DevUser.focusedTeam in DevUser.teams
    ensures DevUser.focusedTeam == Team.DevTeam.id
    ensures Team.GetTeam(Team.DevTeams, DevUser.focusedTeam) == Team.DevTeam
    ensures DevUser.id == Team.DevTeam.creator
    ensures DevUser.id in Team.DevTeam.members && DevUser.id in Team.DevTeam.admins
  {
    Team.DevTeamsWellFormed();
  }
}
