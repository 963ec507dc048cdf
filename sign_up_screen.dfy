/**
 * Account creation (src/screens/SignUpScreen.tsx): the empty-field check,
 * the `loading` flag around the backend calls, the profile record written
 * for a new user, and the error-code to message table. The authentication
 * and database calls are not modelled; their outcomes are inputs, and the
 * form records what it asked of them and which alerts it showed.
 */
module SignUpScreen {

  datatype Alert = Alert(title: string, message: string)

  /** The document written to `users/<uid>`. */
  datatype Profile = Profile(
    username: string, email: string, pokedexCount: nat, joinDate: string, pokedex: seq<string>)

  /** One call to create an account, with the value `loading` had during it. */
  datatype AccountRequest = AccountRequest(email: string, password: string, loadingDuringCall: bool)

  datatype ProfileWrite = ProfileWrite(uid: string, profile: Profile)

  /** What account creation did: created a user, or threw with an error code. */
  datatype AuthOutcome = UserCreated(uid: string) | AuthRejected(code: string)

  /** What the profile write did: stored it, or threw with an error code. */
  datatype WriteOutcome = ProfileSaved | WriteRejected(code: string)

  const FillAllFields: Alert := Alert("Error", "Please fill in all fields.")
  const AccountCreated: Alert := Alert("Success", "Account created!")
  const SignUpFailedTitle: string := "Sign Up Failed"

  const EmailInUseCode: string := "auth/email-already-in-use"
  const InvalidEmailCode: string := "auth/invalid-email"
  const WeakPasswordCode: string := "auth/weak-password"

  // Written as two literals: the verifier then sees the characters of each
  // piece, which the proofs comparing these strings need.
  const EmailInUseMessage: string := "That email address " + "is already in use!"
  const InvalidEmailMessage: string := "That email address " + "is invalid!"
  const WeakPasswordMessage: string := "Password should be " + "at least 6 characters."
  const GenericFailureMessage: string := "Something went wrong"

  /** The validation: every field must be non-empty. */
  predicate FieldsFilled(email: string, password: string, username: string)
  {
    email != "" && password != "" && username != ""
  }

  /** The `if / else if` chain over `error.code`: three known codes get their
      own message and every other code gets the generic one. */
  function SignUpErrorMessage(code: string): (msg: string)
    ensures msg == EmailInUseMessage <==> code == EmailInUseCode
    ensures msg == InvalidEmailMessage <==> code == InvalidEmailCode
    ensures msg == WeakPasswordMessage <==> code == WeakPasswordCode
    ensures msg == GenericFailureMessage <==>
      code != EmailInUseCode && code != InvalidEmailCode && code != WeakPasswordCode
  {
    // One character where each pair of messages differs: the four results
    // are pairwise different, so each message names exactly one case.
    assert EmailInUseMessage[5] == 'e' && InvalidEmailMessage[5] == 'e' && WeakPasswordMessage[5] == 'o';
    assert EmailInUseMessage[22] == 'a' && InvalidEmailMessage[22] == 'i';
    assert GenericFailureMessage[0] == 'S';
    if code == EmailInUseCode then EmailInUseMessage
    else if code == InvalidEmailCode then InvalidEmailMessage
    else if code == WeakPasswordCode then WeakPasswordMessage
    else GenericFailureMessage
  }

  /** The profile stored for a new account: the entered name and email, an
      empty Pokédex, and a count that agrees with it. */
  function InitialProfile(username: string, email: string, joinDate: string): (p: Profile)
    ensures p.username == username && p.email == email && p.joinDate == joinDate
    ensures p.pokedex == [] && p.pokedexCount == |p.pokedex|
  {
    Profile(username, email, 0, joinDate, [])
  }

  /** The alert shown once the backend calls settle. */
  function OutcomeAlert(auth: AuthOutcome, write: WriteOutcome): (a: Alert)
    ensures a == AccountCreated <==> auth.UserCreated? && write.ProfileSaved?
    ensures auth.AuthRejected? ==> a == Alert(SignUpFailedTitle, SignUpErrorMessage(auth.code))
    ensures auth.UserCreated? && write.WriteRejected? ==>
      a == Alert(SignUpFailedTitle, SignUpErrorMessage(write.code))
  {
    match auth
    case AuthRejected(code) => Alert(SignUpFailedTitle, SignUpErrorMessage(code))
    case UserCreated(_) =>
      match write
      case ProfileSaved => AccountCreated
      case WriteRejected(code) => Alert(SignUpFailedTitle, SignUpErrorMessage(code))
  }

  class SignUpForm {
    var username: string
    var email: string
    var password: string
    var loading: bool
    var alerts: seq<Alert>
    var accountRequests: seq<AccountRequest>
    var profileWrites: seq<ProfileWrite>

    /** Between two sign-up attempts: not loading; every account request was
        made with non-empty credentials while loading; and there is at most
        one profile write per account request. */
    ghost predicate Valid()
      reads this
    {
      && !loading
      && |profileWrites| <= |accountRequests|
      && forall r :: r in accountRequests ==> r.loadingDuringCall && r.email != "" && r.password != ""
    }

    constructor ()
      ensures Valid()
      ensures username == "" && email == "" && password == "" && !loading
      ensures alerts == [] && accountRequests == [] && profileWrites == []
    {
      username, email, password := "", "", "";
      loading := false;
      alerts, accountRequests, profileWrites := [], [], [];
    }

    /** Typing into the three inputs. */
    method EditFields(newUsername: string, newEmail: string, newPassword: string)
      requires Valid()
      modifies this`username, this`email, this`password
      ensures Valid()
      ensures username == newUsername && email == newEmail && password == newPassword
    {
      username, email, password := newUsername, newEmail, newPassword;
    }

    /** `handleSignUp`. With an empty field it only alerts: no account request,
        no write, `loading` untouched. Otherwise it sets `loading`, asks for the
        account, writes the initial profile if the account was created, shows
        the outcome, and ends with `loading` false whether it succeeded or not. */
    method HandleSignUp(auth: AuthOutcome, write: WriteOutcome, joinDate: string)
      requires Valid()
      modifies this`loading, this`alerts, this`accountRequests, this`profileWrites
      ensures Valid()
      ensures !FieldsFilled(email, password, username) ==>
        && alerts == old(alerts) + [FillAllFields]
        && accountRequests == old(accountRequests)
        && profileWrites == old(profileWrites)
        && loading == old(loading)
      ensures FieldsFilled(email, password, username) ==>
        && accountRequests == old(accountRequests) + [AccountRequest(email, password, true)]
        && profileWrites == old(profileWrites) +
             (if auth.UserCreated? then [ProfileWrite(auth.uid, InitialProfile(username, email, joinDate))] else [])
        && alerts == old(alerts) + [OutcomeAlert(auth, write)]
        && !loading
    {
      if !FieldsFilled(email, password, username) {
        alerts := alerts + [FillAllFields];
        return;
      }
      loading := true;
      accountRequests := accountRequests + [AccountRequest(email, password, loading)];
      match auth {
        case UserCreated(uid) =>
          profileWrites := profileWrites + [ProfileWrite(uid, InitialProfile(username, email, joinDate))];
        case AuthRejected(_) =>
      }
      alerts := alerts + [OutcomeAlert(auth, write)];
      loading := false;
    }
  }
}
