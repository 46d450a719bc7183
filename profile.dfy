/**
  The profile page's edit form: each submitted text field replaces the stored
  one when it is not empty, and the edit dialog closes.
 */
module Profile {
  import opened Common

  datatype Preferences = Preferences(notifications: bool, theme: string)

  datatype UserProfile = UserProfile(
    name: string,
    email: string,
    role: string,
    points: int,
    completedTasks: int,
    joinedDate: string,
    avatar: string,
    preferences: Preferences)

  /** The submitted form fields; a field missing from the form reads as "". */
  datatype ProfileForm = ProfileForm(name: string, email: string, role: string)

  datatype ProfilePage = ProfilePage(profile: UserProfile, showEditModal: bool)

  /** handleEditProfile. */
  function HandleEditProfile(page: ProfilePage, form: ProfileForm): (r: ProfilePage)
    ensures !r.showEditModal
    ensures r.profile.name == (if form.name != "" then form.name else page.profile.name)
    ensures r.profile.email == (if form.email != "" then form.email else page.profile.email)
    ensures r.profile.role == (if form.role != "" then form.role else page.profile.role)
  {
    var p := page.profile;
    ProfilePage(
      p.(name := OrElse(form.name, p.name), email := OrElse(form.email, p.email), role := OrElse(form.role, p.role)),
      false)
  }

  /** Points, completed tasks, join date, avatar and preferences are never touched by an edit. */
  lemma EditKeepsOtherFields(page: ProfilePage, form: ProfileForm)
    ensures var q := HandleEditProfile(page, form).profile;
      q.points == page.profile.points && q.completedTasks == page.profile.completedTasks &&
      q.joinedDate == page.profile.joinedDate && q.avatar == page.profile.avatar &&
      q.preferences == page.profile.preferences
  {
  }

  /** Submitting a form with every field empty leaves the profile as it was. */
  lemma EditEmptyFormIsIdentity(page: ProfilePage)
    ensures HandleEditProfile(page, ProfileForm("", "", "")).profile == page.profile
  {
  }

  /** Submitting the same form twice has the effect of submitting it once. */
  lemma EditIdempotent(page: ProfilePage, form: ProfileForm)
    ensures HandleEditProfile(HandleEditProfile(page, form), form) == HandleEditProfile(page, form)
  {
  }
}
