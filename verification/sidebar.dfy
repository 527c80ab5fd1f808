/**
 * `getUserInitial` of `src/components/Sidebar.tsx`: the letter shown in the
 * avatar, taken from the full name in the user's metadata, else from the
 * email, else `?`. Upper-casing is modelled for ASCII letters.
 */
module Sidebar {
  import opened Seqs
  import opened Text

  /** `user_metadata.full_name`: absent, present but not a string, or a string. */
  datatype FullName = NoName | NotAString | Name(text: string)

  datatype AuthUser = AuthUser(fullName: FullName, email: Option<string>)

  /** A full name the avatar may use: a non-empty string. */
  predicate UsableName(n: FullName) {
    n.Name? && n.text != ""
  }

  /** The email to fall back on, `""` when there is none. */
  function EmailOf(user: Option<AuthUser>): string {
    if user.Some? then user.value.email.GetOr("") else ""
  }

  /** `getUserInitial`. */
  function UserInitial(user: Option<AuthUser>): (r: string)
    ensures |r| == 1
    ensures user.Some? && UsableName(user.value.fullName) ==> r == [UpperChar(user.value.fullName.text[0])]
    ensures !(user.Some? && UsableName(user.value.fullName)) ==>
              r == if EmailOf(user) != "" then [UpperChar(EmailOf(user)[0])] else "?"
  {
    if user.Some? && UsableName(user.value.fullName) then [UpperChar(user.value.fullName.text[0])]
    else
      var email := EmailOf(user);
      if email != "" then [UpperChar(email[0])] else "?"
  }

  /** A name that is missing, not a string, or empty is ignored alike. */
  lemma IgnoredNamesAgree(email: Option<string>)
    ensures UserInitial(Some(AuthUser(NoName, email))) == UserInitial(Some(AuthUser(NotAString, email)))
    ensures UserInitial(Some(AuthUser(Name(""), email))) == UserInitial(Some(AuthUser(NoName, email)))
    ensures UserInitial(Some(AuthUser(NoName, email))) == UserInitial(Some(AuthUser(NoName, None))) <==>
            email.None? || email.value == "" || UpperChar(email.value[0]) == '?'
  {
  }

  /** Whatever the user, the initial is never a lower-case ASCII letter. */
  lemma InitialNotLowercase(user: Option<AuthUser>)
    ensures !('a' <= UserInitial(user)[0] <= 'z')
  {
  }

  /** Signed out, or signed in with neither name nor email, the avatar shows `?`. */
  lemma NoSourceGivesQuestionMark(user: Option<AuthUser>)
    requires user.None? || (!UsableName(user.value.fullName) && EmailOf(user) == "")
    ensures UserInitial(user) == "?"
  {
  }
}
