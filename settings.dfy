/**
  The household settings page: removing a member from the members list.
 */
module Settings {
  import opened Common

  datatype HouseholdMember = HouseholdMember(id: int, name: string, kind: string, email: string, avatar: Option<string>)

  datatype Theme = Light | Dark | System
  datatype Notifications = All | Important | NoNotifications
  datatype Language = Swedish | English

  datatype HouseholdSettings = HouseholdSettings(
    householdName: string,
    members: seq<HouseholdMember>,
    theme: Theme,
    notifications: Notifications,
    language: Language,
    deleteAfterDays: int)

  function MemberIds(members: seq<HouseholdMember>): set<int>
  {
    set m | m in members :: m.id
  }

  /** handleRemoveMember: `{ ...settings, members: settings.members.filter(member => member.id !== id) }`. */
  function RemoveMember(settings: HouseholdSettings, id: int): (r: HouseholdSettings)
    ensures forall m :: m in r.members ==> m in settings.members && m.id != id
  {
    settings.(members := Filter(settings.members, (m: HouseholdMember) => m.id != id))
  }

  /** Removal drops every member with the id, keeps every other member, and touches no other setting. */
  lemma RemoveMemberSpec(settings: HouseholdSettings, id: int)
    ensures id !in MemberIds(RemoveMember(settings, id).members)
    ensures forall m :: m in settings.members && m.id != id ==> m in RemoveMember(settings, id).members
    ensures RemoveMember(settings, id).(members := settings.members) == settings
  {
    forall m | m in settings.members && m.id != id
      ensures m in RemoveMember(settings, id).members
    {
      FilterKeeps(settings.members, (m: HouseholdMember) => m.id != id, m);
    }
  }

  /** The remaining members keep their relative order. */
  lemma RemoveMemberOrder(settings: HouseholdSettings, a: seq<HouseholdMember>, b: seq<HouseholdMember>, id: int)
    requires settings.members == a + b
    ensures RemoveMember(settings, id).members ==
      RemoveMember(settings.(members := a), id).members + RemoveMember(settings.(members := b), id).members
  {
    FilterConcat(a, b, (m: HouseholdMember) => m.id != id);
  }

  /** Removing an id no member has changes nothing. */
  lemma RemoveAbsentMember(settings: HouseholdSettings, id: int)
    requires id !in MemberIds(settings.members)
    ensures RemoveMember(settings, id) == settings
  {
    forall i | 0 <= i < |settings.members| ensures settings.members[i].id != id {
      assert settings.members[i] in settings.members;
    }
    FilterAll(settings.members, (m: HouseholdMember) => m.id != id);
  }

  /** Removing the same member twice is removing it once. */
  lemma RemoveMemberIdempotent(settings: HouseholdSettings, id: int)
    ensures RemoveMember(RemoveMember(settings, id), id) == RemoveMember(settings, id)
  {
    FilterIdempotent(settings.members, (m: HouseholdMember) => m.id != id);
  }
}
