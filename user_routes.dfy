/**
 * The user routes (server/src/routes/user.routes.js): the profile update,
 * which overwrites only the fields the request supplies, the profile view it
 * answers with, and the password change.
 */
module UserRoutes {
  import opened Common
  import opened UserSchema
  import Text

  /** A string the request supplied and that is truthy, i.e. not "". */
  predicate Given(o: Option<string>) {
    o.Some? && o.value != ""
  }

  /**
   * The preference part of the request. `isGameficationEnabled` is None when
   * the value is not a boolean.
   */
  datatype PreferencesPatch = PreferencesPatch(
    preferredContentType: Option<string>,
    preferredTheme: Option<string>,
    isGameficationEnabled: Option<bool>,
    preferredLearningTime: Option<int>)

  datatype ProfilePatch = ProfilePatch(
    name: Option<string>,
    age: Option<int>,
    educationLevel: Option<string>,
    learningPreferences: Option<PreferencesPatch>)

  /** The preferences after the update: strings and the time when truthy, the flag when a boolean. */
  function PatchedPreferences(p: Preferences, q: PreferencesPatch): Preferences {
    p.(preferredContentType := if Given(q.preferredContentType) then q.preferredContentType.value else p.preferredContentType,
       preferredTheme := if Given(q.preferredTheme) then q.preferredTheme.value else p.preferredTheme,
       isGameficationEnabled := if q.isGameficationEnabled.Some? then q.isGameficationEnabled.value else p.isGameficationEnabled,
       preferredLearningTime := if q.preferredLearningTime.Some? && q.preferredLearningTime.value != 0
                                then q.preferredLearningTime.value else p.preferredLearningTime)
  }

  /** The user after the update's assignments; the name is stored trimmed. */
  function PatchedUser(u: User, q: ProfilePatch): User {
    u.(name := if Given(q.name) then Text.Trim(q.name.value) else u.name,
       age := if q.age.Some? && q.age.value != 0 then q.age else u.age,
       educationLevel := if Given(q.educationLevel) then q.educationLevel.value else u.educationLevel,
       learningPreferences := if q.learningPreferences.Some?
                              then PatchedPreferences(u.learningPreferences, q.learningPreferences.value)
                              else u.learningPreferences)
  }

  /** The profile the update answers with. */
  datatype ProfileView = ProfileView(
    id: Id,
    name: string,
    email: string,
    age: Option<int>,
    educationLevel: string,
    learningPreferences: Preferences)

  function View(u: User): ProfileView {
    ProfileView(u.id, u.name, u.email, u.age, u.educationLevel, u.learningPreferences)
  }

  /** The view shows every profile field and depends on nothing but them: not on the password. */
  lemma ViewOmitsPassword(u: User, password: string)
    ensures View(u.(password := password)) == View(u)
    ensures var v := View(u);
      v.id == u.id && v.name == u.name && v.email == u.email && v.age == u.age
      && v.educationLevel == u.educationLevel && v.learningPreferences == u.learningPreferences
  {
  }

  datatype ProfileUpdate = ProfileUpdate(status: Status, user: User, view: Option<ProfileView>)

  /** `PUT /profile` on the user found; an update that fails validation is not saved and answers 500. */
  function UpdateProfileStep(u: User, q: ProfilePatch): ProfileUpdate {
    var u' := PatchedUser(u, q);
    if ValidUser(u') then ProfileUpdate(Ok, u', Some(View(u'))) else ProfileUpdate(ServerError, u, None)
  }

  /**
   * A saved update overwrites the name, age and education level only with
   * truthy values, so an age of 0 is ignored; it overwrites each preference
   * only when truthy, except the gamification flag, which any boolean
   * (false included) replaces; it never changes the id, email, password or
   * time stamps. An update that would break a range or enumeration is not
   * saved.
   */
  lemma UpdateProfileStepEffect(u: User, q: ProfilePatch)
    ensures var r := UpdateProfileStep(u, q);
      && (r.status == Ok <==> ValidUser(PatchedUser(u, q)))
      && (r.status != Ok ==> r.user == u && r.view.None?)
      && (r.status == Ok ==> r.view == Some(View(r.user)))
      && r.user.id == u.id && r.user.email == u.email && r.user.password == u.password
      && r.user.createdAt == u.createdAt && r.user.lastActive == u.lastActive
      && (r.status == Ok ==>
            && (q.age.Some? && q.age.value != 0 ==> r.user.age == q.age)
            && (q.age.None? || q.age.value == 0 ==> r.user.age == u.age)
            && (Given(q.name) ==> r.user.name == Text.Trim(q.name.value))
            && (!Given(q.name) ==> r.user.name == u.name)
            && (Given(q.educationLevel) ==> r.user.educationLevel == q.educationLevel.value)
            && (!Given(q.educationLevel) ==> r.user.educationLevel == u.educationLevel)
            && (q.learningPreferences.None? ==> r.user.learningPreferences == u.learningPreferences)
            && (q.learningPreferences.Some? ==>
                  r.user.learningPreferences == PatchedPreferences(u.learningPreferences, q.learningPreferences.value)))
  {
  }

  /**
   * Each preference field of the update: the content type, the theme and the
   * learning time are overwritten exactly when the request's value is truthy
   * (a non-empty string, a non-zero number), the gamification flag whenever
   * it is a boolean; otherwise each keeps its stored value.
   */
  lemma PatchedPreferencesEffect(p: Preferences, q: PreferencesPatch)
    ensures var r := PatchedPreferences(p, q);
      && (Given(q.preferredContentType) ==> r.preferredContentType == q.preferredContentType.value)
      && (!Given(q.preferredContentType) ==> r.preferredContentType == p.preferredContentType)
      && (Given(q.preferredTheme) ==> r.preferredTheme == q.preferredTheme.value)
      && (!Given(q.preferredTheme) ==> r.preferredTheme == p.preferredTheme)
      && (q.isGameficationEnabled.Some? ==> r.isGameficationEnabled == q.isGameficationEnabled.value)
      && (q.isGameficationEnabled.None? ==> r.isGameficationEnabled == p.isGameficationEnabled)
      && (q.preferredLearningTime.Some? && q.preferredLearningTime.value != 0 ==>
            r.preferredLearningTime == q.preferredLearningTime.value)
      && (q.preferredLearningTime.None? || q.preferredLearningTime.value == 0 ==>
            r.preferredLearningTime == p.preferredLearningTime)
  {
  }

  /** A valid user stays valid: whatever the request, the stored user after the handler is valid. */
  lemma UpdateProfileStepKeepsValid(u: User, q: ProfilePatch)
    requires ValidUser(u)
    ensures ValidUser(UpdateProfileStep(u, q).user)
  {
  }

  /** An age outside 5..100 is refused with 500 and nothing changes. */
  lemma AgeOutOfRangeRejected(u: User, q: ProfilePatch)
    requires q.age.Some? && q.age.value != 0 && !(5 <= q.age.value <= 100)
    ensures UpdateProfileStep(u, q) == ProfileUpdate(ServerError, u, None)
  {
  }

  datatype PasswordChange = PasswordChange(status: Status, user: User)

  /**
   * `PUT /password` on the user found. `matches` is whether the current
   * password matches the stored hash; `hash` hashes the accepted new one.
   */
  function ChangePasswordStep(u: User, matches: bool, newPassword: Option<string>, hash: string -> string): PasswordChange {
    if !matches then PasswordChange(Unauthorized, u)
    else if newPassword.None? || !ValidPassword(newPassword.value) then PasswordChange(ServerError, u)
    else PasswordChange(Ok, u.(password := hash(newPassword.value)))
  }

  /**
   * A wrong current password answers 401 and a missing or short new one 500,
   * both leaving the user unchanged; otherwise only the password changes, to
   * the hash of the new one.
   */
  lemma ChangePasswordStepEffect(u: User, matches: bool, newPassword: Option<string>, hash: string -> string)
    ensures var c := ChangePasswordStep(u, matches, newPassword, hash);
      && (c.status == Unauthorized <==> !matches)
      && (c.status == ServerError <==> matches && (newPassword.None? || |newPassword.value| < 6))
      && (c.status != Ok ==> c.user == u)
      && (c.status == Ok ==> c.user == u.(password := hash(newPassword.value)) && View(c.user) == View(u))
  {
  }

  // ---------------------------------------------------------------------------
  // The stored user

  class UserDoc {
    const id: Id
    const email: string
    const createdAt: Time
    const lastActive: Time
    var name: string
    var password: string
    var age: Option<int>
    var educationLevel: string
    var learningPreferences: Preferences

    function Value(): (u: User)
      reads this
      ensures u.id == id && u.email == email && u.password == password
    {
      User(id, name, email, password, age, educationLevel, learningPreferences, createdAt, lastActive)
    }

    constructor (u: User)
      ensures Value() == u
    {
      id, email, createdAt, lastActive := u.id, u.email, u.createdAt, u.lastActive;
      name, password, age, educationLevel, learningPreferences := u.name, u.password, u.age, u.educationLevel, u.learningPreferences;
    }

    /** `PUT /profile` once the user is found. */
    method UpdateProfile(q: ProfilePatch) returns (status: Status, view: Option<ProfileView>)
      modifies this
      ensures var r := UpdateProfileStep(old(Value()), q);
        status == r.status && view == r.view && Value() == r.user
    {
      var u := Value();
      if Given(q.name) { u := u.(name := Text.Trim(q.name.value)); }
      if q.age.Some? && q.age.value != 0 { u := u.(age := q.age); }
      if Given(q.educationLevel) { u := u.(educationLevel := q.educationLevel.value); }
      if q.learningPreferences.Some? {
        var prefs := ApplyPreferences(u.learningPreferences, q.learningPreferences.value);
        u := u.(learningPreferences := prefs);
      }
      if !ValidUser(u) {
        return ServerError, None;
      }
      name, age, educationLevel, learningPreferences := u.name, u.age, u.educationLevel, u.learningPreferences;
      status, view := Ok, Some(View(u));
    }

    /** `PUT /password` once the user is found. */
    method ChangePassword(matches: bool, newPassword: Option<string>, hash: string -> string) returns (status: Status)
      modifies this
      ensures var c := ChangePasswordStep(old(Value()), matches, newPassword, hash);
        status == c.status && Value() == c.user
    {
      if !matches {
        return Unauthorized;
      }
      if newPassword.None? || |newPassword.value| < 6 {
        return ServerError;
      }
      password := hash(newPassword.value);
      status := Ok;
    }
  }

  /** The preference assignments of `PUT /profile`. */
  method ApplyPreferences(p0: Preferences, q: PreferencesPatch) returns (p: Preferences)
    ensures p == PatchedPreferences(p0, q)
  {
    p := p0;
    if Given(q.preferredContentType) { p := p.(preferredContentType := q.preferredContentType.value); }
    if Given(q.preferredTheme) { p := p.(preferredTheme := q.preferredTheme.value); }
    if q.isGameficationEnabled.Some? { p := p.(isGameficationEnabled := q.isGameficationEnabled.value); }
    if q.preferredLearningTime.Some? && q.preferredLearningTime.value != 0 {
      p := p.(preferredLearningTime := q.preferredLearningTime.value);
    }
  }

  /** `PUT /profile`: a user that does not exist answers 404. */
  method HandleUpdateProfile(doc: UserDoc?, q: ProfilePatch) returns (status: Status, view: Option<ProfileView>)
    modifies doc
    ensures doc == null ==> status == NotFound && view.None?
    ensures doc != null ==>
      var r := UpdateProfileStep(old(doc.Value()), q);
      status == r.status && view == r.view && doc.Value() == r.user
  {
    if doc == null {
      return NotFound, None;
    }
    status, view := doc.UpdateProfile(q);
  }

  /** `PUT /password`: a user that does not exist answers 404. */
  method HandleChangePassword(doc: UserDoc?, matches: bool, newPassword: Option<string>, hash: string -> string)
    returns (status: Status)
    modifies doc
    ensures doc == null ==> status == NotFound
    ensures doc != null ==>
      var c := ChangePasswordStep(old(doc.Value()), matches, newPassword, hash);
      status == c.status && doc.Value() == c.user
  {
    if doc == null {
      return NotFound;
    }
    status := doc.ChangePassword(matches, newPassword, hash);
  }
}
