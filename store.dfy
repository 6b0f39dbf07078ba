/** The client's global store: the signed-in user's profile, the colour
    theme, and whether the session check is still running. */
module Store {
  import opened Records

  datatype Theme = Dark | Light

  /** `get().theme === 'dark' ? 'light' : 'dark'`. */
  function Toggled(t: Theme): (r: Theme)
    ensures r != t
    ensures t == Dark <==> r == Light
  {
    if t == Dark then Light else Dark
  }

  /** Toggling twice restores the theme. */
  lemma ToggleInvolutive(t: Theme)
    ensures Toggled(Toggled(t)) == t
  {
  }

  /** What `auth.signOut` does: return (with or without an error, which is
      not inspected) or throw. */
  datatype SignOutReply = SignOutReturned | SignOutThrew

  /** `user_metadata` of an auth user: optional `full_name` and `avatar_url`. */
  datatype Metadata = Metadata(fullName: Option<string>, avatarUrl: Option<string>)

  /** An auth user as `getSession` returns it; `email!` asserts the email is present. */
  datatype SessionUser = SessionUser(id: string, email: string, metadata: Option<Metadata>)

  datatype Session = Session(user: Option<SessionUser>)

  /** What `getSession` does: throw, or resolve with a session or null. */
  datatype SessionReply = Threw | Reply(session: Option<Session>)

  /** The profile `checkSession` caches for an auth user. */
  function ProfileOf(u: SessionUser): (p: UserProfile)
    ensures p.id == u.id && p.email == u.email
    ensures u.metadata.None? ==> p.fullName.None? && p.avatarUrl.None?
    ensures u.metadata.Some? ==> p.fullName == u.metadata.value.fullName && p.avatarUrl == u.metadata.value.avatarUrl
  {
    match u.metadata
    case None => UserProfile(u.id, u.email, None, None)
    case Some(m) => UserProfile(u.id, u.email, m.fullName, m.avatarUrl)
  }

  /** The user `checkSession` leaves in the store, given the one it held. */
  function UserAfterCheck(current: Option<UserProfile>, reply: SessionReply): (u: Option<UserProfile>)
    ensures reply.Threw? ==> u == current
    ensures reply.Reply? ==> (u.Some? <==> reply.session.Some? && reply.session.value.user.Some?)
    ensures u.Some? && reply.Reply? ==> u.value == ProfileOf(reply.session.value.user.value)
  {
    match reply
    case Threw => current
    case Reply(session) =>
      if session.Some? && session.value.user.Some? then Some(ProfileOf(session.value.user.value)) else None
  }

  /** A check with a reply that does not throw forgets whatever user the store held. */
  lemma CheckForgetsPreviousUser(a: Option<UserProfile>, b: Option<UserProfile>, reply: SessionReply)
    requires reply.Reply?
    ensures UserAfterCheck(a, reply) == UserAfterCheck(b, reply)
  {
  }

  /** `useStore`: its three fields and their actions. */
  class AppStore {
    var user: Option<UserProfile>
    var theme: Theme
    var isLoading: bool

    constructor ()
      ensures user == None && theme == Dark && isLoading
    {
      user := None;
      theme := Dark;
      isLoading := true;
    }

    method SetUser(u: Option<UserProfile>)
      modifies this`user
      ensures user == u
    {
      user := u;
    }

    method SetTheme(t: Theme)
      modifies this`theme
      ensures theme == t
    {
      theme := t;
    }

    method ToggleTheme()
      modifies this`theme
      ensures theme == Toggled(old(theme))
    {
      SetTheme(Toggled(theme));
    }

    /** `checkSession` given what `getSession` does: loading is raised, the
        user replaced unless the call throws, and loading lowered in `finally`. */
    method CheckSession(reply: SessionReply)
      modifies this`user, this`isLoading
      ensures user == UserAfterCheck(old(user), reply)
      ensures !isLoading
    {
      isLoading := true;
      match reply {
        case Threw =>
        case Reply(session) =>
          if session.Some? && session.value.user.Some? {
            var u := session.value.user.value;
            user := Some(ProfileOf(u));
          } else {
            user := None;
          }
      }
      isLoading := false;
    }

    /** `signOut`: the user is dropped once the backend call returns,
        whatever it reports; a call that throws skips the `set` and leaves
        the user. */
    method SignOut(reply: SignOutReply)
      modifies this`user
      ensures reply.SignOutReturned? ==> user == None
      ensures reply.SignOutThrew? ==> user == old(user)
    {
      match reply {
        case SignOutThrew =>
        case SignOutReturned =>
          user := None;
      }
    }
  }
}
