/** The registration form: a local password check, then a branch on the
    shape of the sign-up reply. */
module RegisterScreen {
  import opened Records
  import Store
  import Page

  const PasswordMismatch: string := "Passwords do not match"
  const CheckEmail: string := "Registration successful! Please check your email to confirm your account."
  const SignUpFailed: string := "Failed to sign up"
  const RedirectUrl: string := "https://tracker-alpha-kohl.vercel.app/"

  /** The `signUp` call: credentials, `full_name` metadata and the
      confirmation link's target. */
  datatype SignUpRequest = SignUpRequest(email: string, password: string, fullName: string, redirectTo: string)

  /** What `signUp` does: fail with a message ("" when it has none), or
      succeed with data holding a user and a session, either possibly null. */
  datatype SignUpReply = SignUpError(message: string) | SignedUp(hasUser: bool, hasSession: bool)

  /** The outcome sign-up leads to. */
  datatype Outcome = Mismatch | Failed(message: string) | ConfirmEmail | SignedIn

  /** The outcome of an attempt: the password check first, then the reply's
      shape; only a user without a session asks for email confirmation. */
  function OutcomeOf(password: string, confirmPassword: string, reply: SignUpReply): (o: Outcome)
    ensures o == Mismatch <==> password != confirmPassword
    ensures o.Failed? <==> password == confirmPassword && reply.SignUpError?
    ensures o == ConfirmEmail <==> password == confirmPassword && reply.SignedUp? && reply.hasUser && !reply.hasSession
    ensures o.Failed? ==> o.message != "" && (reply.message != "" ==> o.message == reply.message)
    ensures o.Failed? && reply.SignUpError? && reply.message == "" ==> o.message == SignUpFailed
  {
    if password != confirmPassword then Mismatch
    else match reply
      case SignUpError(message) => Failed(if message != "" then message else SignUpFailed)
      case SignedUp(hasUser, hasSession) => if hasUser && !hasSession then ConfirmEmail else SignedIn
  }

  /** A reply without a user signs in as well, just as one with a session does. */
  lemma NoUserSignsIn(password: string, reply: SignUpReply)
    requires reply.SignedUp? && (!reply.hasUser || reply.hasSession)
    ensures OutcomeOf(password, password, reply) == SignedIn
  {
  }

  /** The registration screen's state. */
  class RegisterForm {
    var email: string
    var password: string
    var confirmPassword: string
    var fullName: string
    var loading: bool
    var error: Option<string>
    var successMessage: Option<string>

    constructor ()
      ensures email == "" && password == "" && confirmPassword == "" && fullName == ""
      ensures !loading && error == None && successMessage == None
    {
      email, password, confirmPassword, fullName := "", "", "", "";
      loading := false;
      error := None;
      successMessage := None;
    }

    /** `handleRegister`, given the sign-up reply and what `getSession` does
        if the store is asked to check the session. Returns the request sent,
        if any; `onRegister` is `vc`'s `handleLogin`. */
    method HandleRegister(reply: SignUpReply, sessionReply: Store.SessionReply, store: Store.AppStore, vc: Page.ViewController)
      returns (request: Option<SignUpRequest>)
      modifies this`loading, this`error, this`successMessage, store, vc
      ensures request.None? <==> password != confirmPassword
      ensures request.Some? ==> request.value == SignUpRequest(email, password, fullName, RedirectUrl)
      ensures !loading
      ensures var o := OutcomeOf(password, confirmPassword, reply);
              && (o == Mismatch ==> error == Some(PasswordMismatch) && successMessage == None)
              && (o.Failed? ==> error == Some(o.message) && successMessage == None)
              && (o == ConfirmEmail ==> error == None && successMessage == Some(CheckEmail))
              && (o == SignedIn ==> error == None && successMessage == None)
              && (o == SignedIn ==>
                    store.user == Store.UserAfterCheck(old(store.user), sessionReply) && !store.isLoading &&
                    vc.view == Page.DashboardPage)
              && (o != SignedIn ==>
                    store.user == old(store.user) && store.isLoading == old(store.isLoading) && vc.view == old(vc.view))
      ensures store.theme == old(store.theme)
    {
      loading := true;
      error := None;
      successMessage := None;
      if password != confirmPassword {
        error := Some(PasswordMismatch);
        loading := false;
        return None;
      }
      request := Some(SignUpRequest(email, password, fullName, RedirectUrl));
      match reply {
        case SignUpError(message) =>
          error := Some(OutcomeOf(password, confirmPassword, reply).message);
        case SignedUp(hasUser, hasSession) =>
          if hasUser && !hasSession {
            successMessage := Some(CheckEmail);
          } else {
            store.CheckSession(sessionReply);
            vc.HandleLogin();
          }
      }
      loading := false;
    }
  }
}
