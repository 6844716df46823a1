/**
 * The user document (server/src/models/user.model.js): identity, an optional
 * age, an education level and the learning preferences, with the ranges and
 * enumerations the schema enforces on save.
 */
module UserSchema {
  import opened Common
  import Text

  /** The values `educationLevel` accepts. */
  predicate IsEducationLevel(s: string) {
    s == "primary" || s == "middle" || s == "high" || s == "undergraduate" || s == "graduate" || s == "other"
  }

  /** The values `preferredContentType` accepts. */
  predicate IsPreferredContentType(s: string) {
    s == "text" || s == "video" || s == "mixed"
  }

  datatype Preferences = Preferences(
    preferredContentType: string,
    preferredTheme: string,
    isGameficationEnabled: bool,
    preferredLearningTime: int)   // minutes per session

  /** `password` holds the stored hash; hashing itself is not part of this model. */
  datatype User = User(
    id: Id,
    name: string,
    email: string,
    password: string,
    age: Option<int>,
    educationLevel: string,
    learningPreferences: Preferences,
    createdAt: Time,
    lastActive: Time)

  const DefaultPreferences: Preferences := Preferences("mixed", "default", true, 10)

  /**
   * A user as the schema creates it from the required paths: the name is
   * stored trimmed, the email trimmed and in lower case, and the education
   * level and preferences take their defaults.
   */
  function NewUser(id: Id, name: string, email: string, passwordHash: string, now: Time): (u: User)
    ensures u.educationLevel == "other" && u.age.None?
    ensures u.learningPreferences == DefaultPreferences
    ensures u.password == passwordHash && u.createdAt == now && u.lastActive == now
    ensures |u.email| <= |email|
    ensures forall i :: 0 <= i < |u.email| ==> !('A' <= u.email[i] <= 'Z')
  {
    User(id, Text.Trim(name), Text.ToLower(Text.Trim(email)), passwordHash, None, "other", DefaultPreferences, now, now)
  }

  /** The preference checks: the content-type enumeration and 5..60 minutes. */
  predicate ValidPreferences(p: Preferences) {
    IsPreferredContentType(p.preferredContentType) && 5 <= p.preferredLearningTime <= 60
  }

  /** What saving checks, apart from the password length (see `ValidPassword`). */
  predicate ValidUser(u: User) {
    && u.name != "" && u.email != "" && u.password != ""
    && (u.age.Some? ==> 5 <= u.age.value <= 100)
    && IsEducationLevel(u.educationLevel)
    && ValidPreferences(u.learningPreferences)
  }

  /**
   * The length check on a password set in plain text; it runs before the
   * password is hashed, so it applies to what the user typed.
   */
  predicate ValidPassword(plain: string) {
    |plain| >= 6
  }

  /** A new user with a non-blank name and email and no age is valid. */
  lemma NewUserValid(id: Id, name: string, email: string, passwordHash: string, now: Time)
    requires exists i :: 0 <= i < |name| && !Text.IsSpace(name[i])
    requires exists i :: 0 <= i < |email| && !Text.IsSpace(email[i])
    requires passwordHash != ""
    ensures ValidUser(NewUser(id, name, email, passwordHash, now))
  {
    Text.TrimBlank(name);
    Text.TrimBlank(email);
  }
}
