/**
  The household-member helpers of the data layer: the normalisation of profile
  rows into member records, `getHouseholdMembers` with its RPC-then-table
  fallback, the fast path of `ensureUserHasHousehold` and `createUserProfile`.
  The database replies are parameters.
 */
module Members {
  import opened Common

  /**
    A `profiles` row as the queries return it. Absent strings are ""; the two
    counters are optional because the row may hold null there.
   */
  datatype ProfileRow = ProfileRow(
    id: string,
    fullName: string,
    email: string,
    role: string,
    avatarUrl: string,
    points: Option<int>,
    completedTasks: Option<int>,
    householdId: string)

  /** A member record as `getHouseholdMembers` hands it out. */
  datatype MemberRecord = MemberRecord(
    id: string,
    fullName: string,
    name: string,
    email: string,
    role: string,
    avatarUrl: string,
    points: int,
    completedTasks: int)

  const DefaultName := "Användare"
  const DefaultMemberRole := "Medlem"
  const NoHouseholdMessage := "Inget giltigt household_id skickades"

  /** `n || 0` for a nullable number. */
  function NumberOrZero(n: Option<int>): int
  {
    if n.Some? then n.value else 0
  }

  /** `email?.split('@')[0] || ''`: the part of the address before the first '@'. */
  function EmailName(email: string): (r: string)
    ensures '@' !in r
    ensures |r| <= |email| && r == email[..|r|]
    ensures |r| < |email| ==> email[|r|] == '@'
  {
    SplitFirst(email, '@');
    Split(email, '@')[0]
  }

  /** The local part of an address `local@domain` is its email name. */
  lemma EmailNameOfAddress(local: string, domain: string)
    requires '@' !in local
    ensures EmailName(local + "@" + domain) == local
  {
    SplitAtFirst(local, '@', domain);
  }

  /** An address without '@' is its own email name. */
  lemma EmailNameWithoutAt(email: string)
    requires '@' !in email
    ensures EmailName(email) == email
  {
    SplitNoSeparator(email, '@');
  }

  /** `member.full_name || emailName || 'Användare'`. */
  function DisplayName(row: ProfileRow): (r: string)
    ensures r != ""
  {
    OrElse(row.fullName, OrElse(EmailName(row.email), DefaultName))
  }

  /** The normalising `map` callback. */
  function Normalise(row: ProfileRow): (m: MemberRecord)
    ensures m.id == row.id
    ensures m.fullName == m.name && m.name == DisplayName(row)
    ensures m.email == row.email && m.avatarUrl == row.avatarUrl
    ensures m.role != ""
  {
    MemberRecord(
      row.id,
      DisplayName(row),
      DisplayName(row),
      row.email,
      OrElse(row.role, DefaultMemberRole),
      row.avatarUrl,
      NumberOrZero(row.points),
      NumberOrZero(row.completedTasks))
  }

  /**
    The display-name chain: the full name when there is one; otherwise the part of
    the address before the '@' when that is not empty; otherwise 'Användare'.
   */
  lemma DisplayNameChain(row: ProfileRow, local: string, domain: string)
    requires '@' !in local
    ensures row.fullName != "" ==> Normalise(row).name == row.fullName
    ensures row.fullName == "" && row.email == local + "@" + domain ==>
      Normalise(row).name == (if local != "" then local else DefaultName)
    ensures row.fullName == "" && row.email == "" ==> Normalise(row).name == DefaultName
  {
    EmailNameOfAddress(local, domain);
  }

  /** Missing role, points and completed-task count take their defaults. */
  lemma NormaliseDefaults(row: ProfileRow)
    ensures row.role == "" ==> Normalise(row).role == DefaultMemberRole
    ensures row.role != "" ==> Normalise(row).role == row.role
    ensures row.points.None? ==> Normalise(row).points == 0
    ensures row.completedTasks.None? ==> Normalise(row).completedTasks == 0
    ensures row.points.Some? ==> Normalise(row).points == row.points.value
  {
  }

  /** A member record read back as a row. */
  function AsRow(m: MemberRecord): ProfileRow
  {
    ProfileRow(m.id, m.fullName, m.email, m.role, m.avatarUrl, Some(m.points), Some(m.completedTasks), "")
  }

  /** Normalisation is stable: normalising an already normalised record changes nothing. */
  lemma NormaliseStable(row: ProfileRow)
    ensures Normalise(AsRow(Normalise(row))) == Normalise(row)
  {
  }

  /** `rows?.map(normalise) || []`: one record per row, in order. */
  function NormaliseAll(rows: seq<ProfileRow>): (r: seq<MemberRecord>)
    ensures |r| == |rows|
    ensures forall i :: 0 <= i < |rows| ==> r[i] == Normalise(rows[i])
  {
    seq(|rows|, i requires 0 <= i < |rows| => Normalise(rows[i]))
  }

  /** Every record handed out has a non-empty name, equal to its full name, and a role. */
  lemma NormaliseAllNamed(rows: seq<ProfileRow>)
    ensures forall m :: m in NormaliseAll(rows) ==> m.name == m.fullName && m.name != "" && m.role != ""
    ensures forall i :: 0 <= i < |rows| ==> NormaliseAll(rows)[i].id == rows[i].id
  {
  }

  /**
    getHouseholdMembers. `rpc` is the reply of the `get_household_members` call,
    `table` that of the `profiles` query. RPC data that is null without an error
    makes `rpcMembers.length` throw, which the inner handler catches, so the table
    is queried as after an RPC error. The contract is the case table of the
    function; MembersGuardQueriesNothing, MembersTableOnlyAsFallback and
    MembersListingShape state what it guarantees across all cases.
   */
  function GetHouseholdMembers(householdId: string, rpc: Reply<seq<ProfileRow>>, table: Reply<seq<ProfileRow>>): (r: Listing<MemberRecord>)
    ensures householdId == "" ==> r == Listing([], Some(NoHouseholdMessage))
    ensures householdId != "" && rpc.Ok? && rpc.data.Some? ==> r == Listing(NormaliseAll(rpc.data.value), None)
    ensures householdId != "" && (rpc.Err? || rpc.data.None?) && table.Err? ==> r == Listing([], Some(table.message))
    ensures householdId != "" && (rpc.Err? || rpc.data.None?) && table.Ok? ==>
      r == Listing(if table.data.Some? then NormaliseAll(table.data.value) else [], None)
  {
    if householdId == "" then Listing([], Some(NoHouseholdMessage))
    else if rpc.Ok? && rpc.data.Some? then Listing(NormaliseAll(rpc.data.value), None)
    else if table.Err? then Listing([], Some(table.message))
    else if table.data.None? then Listing([], None)
    else Listing(NormaliseAll(table.data.value), None)
  }

  /** Without a household id nothing is queried: the replies do not matter. */
  lemma MembersGuardQueriesNothing(rpc1: Reply<seq<ProfileRow>>, table1: Reply<seq<ProfileRow>>,
                                   rpc2: Reply<seq<ProfileRow>>, table2: Reply<seq<ProfileRow>>)
    ensures GetHouseholdMembers("", rpc1, table1) == GetHouseholdMembers("", rpc2, table2)
    ensures GetHouseholdMembers("", rpc1, table1).data == []
  {
  }

  /** The table reply is consulted only when the RPC gives no data. */
  lemma MembersTableOnlyAsFallback(householdId: string, rows: seq<ProfileRow>, table1: Reply<seq<ProfileRow>>, table2: Reply<seq<ProfileRow>>)
    ensures GetHouseholdMembers(householdId, Ok(Some(rows)), table1) == GetHouseholdMembers(householdId, Ok(Some(rows)), table2)
  {
  }

  /** Every listing returned carries either an error and no members, or only normalised members. */
  lemma MembersListingShape(householdId: string, rpc: Reply<seq<ProfileRow>>, table: Reply<seq<ProfileRow>>)
    ensures var r := GetHouseholdMembers(householdId, rpc, table);
      r.error.Some? ==> r.data == []
    ensures var r := GetHouseholdMembers(householdId, rpc, table);
      forall m :: m in r.data ==> m.name == m.fullName && m.name != ""
  {
  }

  // ---------------------------------------------------------------------------
  // ensureUserHasHousehold

  /** What `ensureUserHasHousehold` does with a profile: return at once, or go on to find or create a household. */
  datatype HouseholdStep = Ready(outcome: Outcome<ProfileRow>) | FindOrCreate

  /** The fast path: a profile that already has a household is returned unchanged, with no error and no query. */
  function EnsureUserHasHousehold(profile: Option<ProfileRow>): (r: HouseholdStep)
    ensures r.Ready? <==> profile.Some? && profile.value.householdId != ""
    ensures r.Ready? ==> r.outcome.data == profile && r.outcome.error == None
  {
    if profile.Some? && profile.value.householdId != "" then Ready(Outcome(profile, None)) else FindOrCreate
  }

  /** Once a profile has been given a household, the fast path applies to it. */
  lemma HouseholdFastPathAfterJoin(profile: ProfileRow, householdId: string)
    requires householdId != ""
    ensures EnsureUserHasHousehold(Some(profile.(householdId := householdId))) ==
      Ready(Outcome(Some(profile.(householdId := householdId)), None))
  {
  }

  // ---------------------------------------------------------------------------
  // createUserProfile

  const NewProfileRole := "Användare"

  /** The row `createUserProfile` inserts. */
  function NewProfile(userId: string, name: string, email: string): (p: ProfileRow)
    ensures p.id == userId && p.email == email
    ensures p.fullName != ""
    ensures p.points == Some(0) && p.completedTasks == Some(0) && p.role == NewProfileRole
  {
    ProfileRow(userId, OrElse(name, DefaultName), email, NewProfileRole, "", Some(0), Some(0), "")
  }

  /** The data `createUserProfile` returns: the stored row, or only the user id after an insert error. */
  datatype CreatedProfile = Stored(row: ProfileRow) | IdOnly(id: string)

  /**
    createUserProfile. `insert` is the reply of the insert; the result pairs the
    row sent with what the helper returns.
   */
  function CreateUserProfile(userId: string, name: string, email: string, insert: Reply<ProfileRow>): (r: (ProfileRow, Outcome<CreatedProfile>))
    ensures r.0 == NewProfile(userId, name, email)
    ensures insert.Err? ==> r.1 == Outcome(Some(IdOnly(userId)), Some(insert.message))
    ensures insert.Ok? ==> (r.1.error == None &&
      (r.1.data.Some? <==> insert.data.Some?) &&
      (insert.data.Some? ==> r.1.data == Some(Stored(insert.data.value))))
  {
    var row := NewProfile(userId, name, email);
    if insert.Err? then (row, Outcome(Some(IdOnly(userId)), Some(insert.message)))
    else if insert.data.None? then (row, Outcome(None, None))
    else (row, Outcome(Some(Stored(insert.data.value)), None))
  }

  /** A new profile normalises to a member named as given (or 'Användare') with no points and the role 'Användare'. */
  lemma NewProfileAsMember(userId: string, name: string, email: string)
    ensures var m := Normalise(NewProfile(userId, name, email));
      m.name == (if name != "" then name else DefaultName) &&
      m.points == 0 && m.completedTasks == 0 && m.role == NewProfileRole && m.id == userId
  {
  }
}
