/**
  Household invitations in the data layer: `inviteUserToHousehold` (input guard,
  table check, invitation built with defaults, insert) and
  `acceptHouseholdInvitation` (input guard, fetch, profile update, status update
  whose failure is not fatal). Each helper returns its answer together with the
  queries it issued, in order; each database reply is a parameter.
 */
module Invitations {
  import opened Common
  import opened Members

  datatype InvitationStatus = Pending | Accepted

  datatype InviteInput = InviteInput(
    fromUserId: string,
    fromUserName: string,
    toEmail: string,
    householdId: string,
    householdName: string)

  datatype Invitation = Invitation(
    fromUserId: string,
    fromUserName: string,
    toEmail: string,
    householdId: string,
    householdName: string,
    status: InvitationStatus)

  /** The queries the two helpers issue. */
  datatype Query =
    | CheckInvitationTable
    | InsertInvitation(invitation: Invitation)
    | FetchInvitation(invitationId: string)
    | SetHousehold(userId: string, householdId: string)
    | MarkAccepted(invitationId: string)

  /** A helper's answer and the queries it issued. */
  datatype Answer<T> = Answer(outcome: Outcome<T>, queries: seq<Query>)

  const MissingFieldsMessage := "Obligatoriska fält saknas i inbjudningsdata"
  const NotConfiguredMessage := "Inbjudningssystemet är inte konfigurerat korrekt. Kontakta administratören."
  const InviteFailedMessage := "Kunde inte bjuda in medlem till hushållet."
  const DefaultHouseholdName := "Hushåll"
  const AcceptMissingIdsMessage := "Inbjudnings-ID och användar-ID krävs"
  const FetchFailedMessage := "Kunde inte hitta inbjudan."
  const InvitationNotFoundMessage := "Inbjudan kunde inte hittas."
  const JoinFailedMessage := "Kunde inte ansluta till hushållet."

  predicate InviteInputValid(input: InviteInput)
  {
    input.fromUserId != "" && input.toEmail != "" && input.householdId != ""
  }

  /** The invitation object built from the input. */
  function BuildInvitation(input: InviteInput): (inv: Invitation)
    ensures inv.status == Pending
    ensures inv.householdName != ""
    ensures inv.fromUserId == input.fromUserId && inv.fromUserName == input.fromUserName
    ensures inv.toEmail == input.toEmail && inv.householdId == input.householdId
    ensures input.householdName != "" ==> inv.householdName == input.householdName
    ensures input.householdName == "" ==> inv.householdName == DefaultHouseholdName
  {
    Invitation(input.fromUserId, input.fromUserName, input.toEmail, input.householdId,
               OrElse(input.householdName, DefaultHouseholdName), Pending)
  }

  /**
    inviteUserToHousehold. `tableCheck` is the error of the table probe (None when
    the table answers), `insert` the reply of the insert. The contract is the
    case table of the handler; InsertedInvitationsArePending and
    InviteErrorIffNotInserted state what it guarantees across all cases.
   */
  function InviteUserToHousehold(input: InviteInput, tableCheck: Option<string>, insert: Reply<Invitation>): (r: Answer<Invitation>)
    ensures !InviteInputValid(input) ==> r == Answer(Outcome(None, Some(MissingFieldsMessage)), [])
    ensures InviteInputValid(input) && tableCheck.Some? ==>
      r == Answer(Outcome(None, Some(NotConfiguredMessage)), [CheckInvitationTable])
    ensures InviteInputValid(input) && tableCheck.None? ==>
      r.queries == [CheckInvitationTable, InsertInvitation(BuildInvitation(input))]
    ensures InviteInputValid(input) && tableCheck.None? && insert.Err? ==>
      r.outcome == Outcome(None, Some(OrElse(insert.message, InviteFailedMessage)))
    ensures InviteInputValid(input) && tableCheck.None? && insert.Ok? ==>
      r.outcome == Outcome(insert.data, None)
  {
    if !InviteInputValid(input) then Answer(Outcome(None, Some(MissingFieldsMessage)), [])
    else if tableCheck.Some? then Answer(Outcome(None, Some(NotConfiguredMessage)), [CheckInvitationTable])
    else
      var queries := [CheckInvitationTable, InsertInvitation(BuildInvitation(input))];
      if insert.Err? then Answer(Outcome(None, Some(OrElse(insert.message, InviteFailedMessage))), queries)
      else Answer(Outcome(insert.data, None), queries)
  }

  /** Every invitation that reaches the database is pending and names its household. */
  lemma InsertedInvitationsArePending(input: InviteInput, tableCheck: Option<string>, insert: Reply<Invitation>)
    ensures forall q :: q in InviteUserToHousehold(input, tableCheck, insert).queries && q.InsertInvitation? ==>
      q.invitation.status == Pending && q.invitation.householdName != "" &&
      q.invitation.householdId == input.householdId && q.invitation.toEmail == input.toEmail
  {
  }

  /** An invitation attempt fails with an error message exactly when it does not end with a successful insert. */
  lemma InviteErrorIffNotInserted(input: InviteInput, tableCheck: Option<string>, insert: Reply<Invitation>)
    ensures var r := InviteUserToHousehold(input, tableCheck, insert);
      r.outcome.error.None? <==> InviteInputValid(input) && tableCheck.None? && insert.Ok?
    ensures var r := InviteUserToHousehold(input, tableCheck, insert);
      r.outcome.error.Some? ==> r.outcome.error.value != "" && r.outcome.data == None
  {
  }

  /**
    acceptHouseholdInvitation. `fetch` is the reply of the invitation lookup,
    `update` that of the profile update and `statusError` the error of the status
    update, if any. The contract is the case table of the handler;
    StatusUpdateNotFatal and AcceptMarksOnlyAfterJoin state what it guarantees
    across all cases.
   */
  function AcceptHouseholdInvitation(invitationId: string, userId: string, fetch: Reply<Invitation>,
                                     update: Reply<ProfileRow>, statusError: Option<string>): (r: Answer<ProfileRow>)
    ensures invitationId == "" || userId == "" ==> r == Answer(Outcome(None, Some(AcceptMissingIdsMessage)), [])
    ensures invitationId != "" && userId != "" && fetch.Err? ==>
      r == Answer(Outcome(None, Some(OrElse(fetch.message, FetchFailedMessage))), [FetchInvitation(invitationId)])
    ensures invitationId != "" && userId != "" && fetch.Ok? && fetch.data.None? ==>
      r == Answer(Outcome(None, Some(InvitationNotFoundMessage)), [FetchInvitation(invitationId)])
    ensures invitationId != "" && userId != "" && fetch.Ok? && fetch.data.Some? && update.Err? ==>
      r == Answer(Outcome(None, Some(OrElse(update.message, JoinFailedMessage))),
               [FetchInvitation(invitationId), SetHousehold(userId, fetch.data.value.householdId)])
    ensures invitationId != "" && userId != "" && fetch.Ok? && fetch.data.Some? && update.Ok? ==>
      r == Answer(Outcome(update.data, None),
               [FetchInvitation(invitationId), SetHousehold(userId, fetch.data.value.householdId), MarkAccepted(invitationId)])
  {
    if invitationId == "" || userId == "" then Answer(Outcome(None, Some(AcceptMissingIdsMessage)), [])
    else if fetch.Err? then Answer(Outcome(None, Some(OrElse(fetch.message, FetchFailedMessage))), [FetchInvitation(invitationId)])
    else if fetch.data.None? then Answer(Outcome(None, Some(InvitationNotFoundMessage)), [FetchInvitation(invitationId)])
    else
      var householdId := fetch.data.value.householdId;
      if update.Err? then
        Answer(Outcome(None, Some(OrElse(update.message, JoinFailedMessage))),
            [FetchInvitation(invitationId), SetHousehold(userId, householdId)])
      else
        var queries := [FetchInvitation(invitationId), SetHousehold(userId, householdId), MarkAccepted(invitationId)];
        // A failed status update (statusError.Some?) is only logged: the profile update stands.
        Answer(Outcome(update.data, None), queries)
  }

  /** A failed status update does not change the answer: acceptance succeeds once the profile is updated. */
  lemma StatusUpdateNotFatal(invitationId: string, userId: string, fetch: Reply<Invitation>,
                             update: Reply<ProfileRow>, e1: Option<string>, e2: Option<string>)
    ensures AcceptHouseholdInvitation(invitationId, userId, fetch, update, e1) ==
            AcceptHouseholdInvitation(invitationId, userId, fetch, update, e2)
  {
  }

  /** The invitation is marked accepted only after the user was moved to the invitation's household. */
  lemma AcceptMarksOnlyAfterJoin(invitationId: string, userId: string, fetch: Reply<Invitation>,
                                 update: Reply<ProfileRow>, statusError: Option<string>)
    ensures var q := AcceptHouseholdInvitation(invitationId, userId, fetch, update, statusError).queries;
      MarkAccepted(invitationId) in q ==>
        fetch.Ok? && fetch.data.Some? && update.Ok? &&
        q == [FetchInvitation(invitationId), SetHousehold(userId, fetch.data.value.householdId), MarkAccepted(invitationId)]
  {
  }
}
