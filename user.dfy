/**
 * An authenticated user (models/user.py): the defaults filled in when a user
 * is built, the name shown for them and the checks on their fields.
 */
module Users {
  import opened Common

  const UnknownUser: string := "Unknown User"

  datatype User = User(userId: string, email: string, name: string, givenName: string, familyName: string)

  datatype UserError = UserIdRequired | EmailRequired | InvalidEmailFormat | NameRequired

  /** Python's `value or default` for an optional string: `None` and "" both give the default. */
  function OrDefault(value: Option<string>, default: string): (r: string)
    ensures value.Some? && value.value != "" ==> r == value.value
    ensures value.None? || value.value == "" ==> r == default
  {
    if value.Some? && value.value != "" then value.value else default
  }

  /**
   * `User.__init__`: a missing or empty name becomes "Unknown User"; a missing
   * given or family name becomes "".
   */
  function NewUser(userId: string, email: string, name: Option<string> := None,
                   givenName: Option<string> := None, familyName: Option<string> := None): (u: User)
    ensures u.userId == userId && u.email == email
    ensures u.name != ""
    ensures name.Some? && name.value != "" ==> u.name == name.value
    ensures name.None? || name.value == "" ==> u.name == UnknownUser
    ensures givenName.Some? ==> u.givenName == givenName.value
    ensures familyName.Some? ==> u.familyName == familyName.value
    ensures givenName.None? ==> u.givenName == ""
    ensures familyName.None? ==> u.familyName == ""
  {
    User(userId, email, OrDefault(name, UnknownUser), OrDefault(givenName, ""), OrDefault(familyName, ""))
  }

  /**
   * `get_full_name`: given and family name joined by a space when both are
   * set, the one that is set otherwise, and the stored name when neither is.
   */
  function FullName(u: User): (r: string)
    ensures u.givenName != "" && u.familyName != "" ==> r == u.givenName + " " + u.familyName
    ensures u.givenName != "" && u.familyName == "" ==> r == u.givenName
    ensures u.givenName == "" && u.familyName != "" ==> r == u.familyName
    ensures u.givenName == "" && u.familyName == "" ==> r == u.name
  {
    if u.givenName != "" && u.familyName != "" then u.givenName + " " + u.familyName
    else if u.givenName != "" then u.givenName
    else if u.familyName != "" then u.familyName
    else u.name
  }

  /** `get_display_name`: the full name unless it is empty or the "Unknown User" placeholder, else the email. */
  function DisplayName(u: User): (r: string)
    ensures r == FullName(u) || r == u.email
    ensures r == u.email <== FullName(u) == "" || FullName(u) == UnknownUser
    ensures FullName(u) != "" && FullName(u) != UnknownUser ==> r == FullName(u)
  {
    var full := FullName(u);
    if full != "" && full != UnknownUser then full else u.email
  }

  /** `validate`: the problems with the user's fields, in the order they are checked. */
  function Validate(u: User): (errs: seq<UserError>)
    ensures UserIdRequired in errs <==> u.userId == ""
    ensures EmailRequired in errs <==> u.email == ""
    ensures InvalidEmailFormat in errs <==> u.email != "" && '@' !in u.email
    ensures NameRequired in errs <==> u.name == ""
    ensures !(EmailRequired in errs && InvalidEmailFormat in errs)
  {
    (if u.userId == "" then [UserIdRequired] else []) +
    (if u.email == "" then [EmailRequired] else if '@' !in u.email then [InvalidEmailFormat] else []) +
    (if u.name == "" then [NameRequired] else [])
  }

  /** `is_valid`: no validation error. */
  predicate IsValid(u: User)
    ensures IsValid(u) <==> u.userId != "" && u.email != "" && '@' in u.email && u.name != ""
  {
    ValidateEmptyIff(u);
    |Validate(u)| == 0
  }

  /** `validate` reports nothing exactly when there is an id, an email containing '@', and a name. */
  lemma ValidateEmptyIff(u: User)
    ensures Validate(u) == [] <==> u.userId != "" && u.email != "" && '@' in u.email && u.name != ""
  {
    if Validate(u) != [] {
      assert Validate(u)[0] in Validate(u);
    }
  }

  /**
   * A freshly built user is never short of a name, so it is valid exactly when
   * its id and email are acceptable.
   */
  lemma NewUserValidIff(userId: string, email: string, name: Option<string>,
                        givenName: Option<string>, familyName: Option<string>)
    ensures IsValid(NewUser(userId, email, name, givenName, familyName)) <==>
      userId != "" && '@' in email
  {
  }

  /** A user built with no names at all is shown by their email. */
  lemma NamelessUserShownByEmail(userId: string, email: string)
    ensures DisplayName(NewUser(userId, email)) == email
  {
  }

  /**
   * The display name is never empty and never the "Unknown User" placeholder,
   * unless the email itself is; a person whose names spell out the placeholder
   * ("Unknown" and "User") is shown by their email too.
   */
  lemma DisplayNameNeverPlaceholder(u: User)
    ensures DisplayName(u) != "" || u.email == ""
    ensures DisplayName(u) != UnknownUser || u.email == UnknownUser
    ensures DisplayName(User(u.userId, u.email, u.name, "Unknown", "User")) == u.email
  {
    assert "Unknown" + " " + "User" == UnknownUser;
  }
}
