/** The session provider (`AuthProvider`): at most one current user, kept in
    the `user` state cell and mirrored in local storage under "currentUser".
    Storage is an abstract map from keys to stored users; JSON encoding is not
    modelled. */
module Auth {
  import opened Common

  const CurrentUserKey := "currentUser"
  const OutsideProviderError := "useAuth must be used within an AuthProvider"

  /** Everything the provider owns: the in-memory user and the storage map. */
  datatype Session = Session(user: Option<User>, storage: map<string, User>)

  /** `login(role, name, rollNumber)`: make a fresh user current and store it. */
  function LoginStep(s: Session, id: string, role: Role, name: string, roll: Option<string>): (t: Session)
    ensures t.user == Some(User(id, role, name, roll))
    ensures CurrentUserKey in t.storage && Some(t.storage[CurrentUserKey]) == t.user
    ensures t.storage.Keys == s.storage.Keys + {CurrentUserKey}
    ensures forall k :: k in s.storage && k != CurrentUserKey ==> t.storage[k] == s.storage[k]
  {
    var u := User(id, role, name, roll);
    Session(Some(u), s.storage[CurrentUserKey := u])
  }

  /** `logout()`: no current user, and the stored session is removed. */
  function LogoutStep(s: Session): (t: Session)
    ensures t.user.None?
    ensures t.storage.Keys == s.storage.Keys - {CurrentUserKey}
    ensures forall k :: k in t.storage ==> t.storage[k] == s.storage[k]
  {
    Session(None, s.storage - {CurrentUserKey})
  }

  /** Mounting the provider: the state starts as `null` and the effect restores
      the stored user when the key is present. */
  function MountStep(stored: map<string, User>): (t: Session)
    ensures t.storage == stored
    ensures CurrentUserKey in stored ==> t.user == Some(stored[CurrentUserKey])
    ensures CurrentUserKey !in stored ==> t.user.None?
  {
    Session(if CurrentUserKey in stored then Some(stored[CurrentUserKey]) else None, stored)
  }

  /** Logging in then out leaves no user and no stored session. */
  lemma LoginThenLogout(s: Session, id: string, role: Role, name: string, roll: Option<string>)
    ensures LogoutStep(LoginStep(s, id, role, name, roll)).user.None?
    ensures CurrentUserKey !in LogoutStep(LoginStep(s, id, role, name, roll)).storage
  {
  }

  /** A page reload after login restores exactly the user that logged in. */
  lemma LoginThenRemount(s: Session, id: string, role: Role, name: string, roll: Option<string>)
    ensures MountStep(LoginStep(s, id, role, name, roll).storage).user
            == LoginStep(s, id, role, name, roll).user
  {
  }

  /** A second login replaces the first: the earlier session leaves no trace. */
  lemma LoginOverwrites(s: Session, id1: string, r1: Role, n1: string, o1: Option<string>,
                        id2: string, r2: Role, n2: string, o2: Option<string>)
    ensures LoginStep(LoginStep(s, id1, r1, n1, o1), id2, r2, n2, o2) == LoginStep(s, id2, r2, n2, o2)
  {
    var u := User(id2, r2, n2, o2);
    assert s.storage[CurrentUserKey := User(id1, r1, n1, o1)][CurrentUserKey := u]
        == s.storage[CurrentUserKey := u];
  }

  /** Logging out twice is logging out once. */
  lemma LogoutIdempotent(s: Session)
    ensures LogoutStep(LogoutStep(s)) == LogoutStep(s)
  {
    assert s.storage - {CurrentUserKey} - {CurrentUserKey} == s.storage - {CurrentUserKey};
  }

  class AuthProvider {
    var user: Option<User>
    var storage: map<string, User>

    function State(): Session
      reads this
    {
      Session(user, storage)
    }

    /** `useState<User | null>(null)` over the browser's storage. */
    constructor (stored: map<string, User>)
      ensures user.None? && storage == stored
    {
      user := None;
      storage := stored;
    }

    /** The mount effect: restore "currentUser" if it is stored. */
    method RestoreOnMount()
      requires user.None?
      modifies this
      ensures State() == MountStep(old(storage))
    {
      if CurrentUserKey in storage {
        user := Some(storage[CurrentUserKey]);
      }
    }

    /** `login`; `id` stands for `Date.now().toString()`. */
    method Login(id: string, role: Role, name: string, roll: Option<string>)
      modifies this
      ensures State() == LoginStep(old(State()), id, role, name, roll)
    {
      var u := User(id, role, name, roll);
      user := Some(u);
      storage := storage[CurrentUserKey := u];
    }

    method Logout()
      modifies this
      ensures State() == LogoutStep(old(State()))
    {
      user := None;
      storage := storage - {CurrentUserKey};
    }
  }

  /** `useAuth()`: the provider's value, or the error it throws when no
      provider encloses the caller. */
  function UseAuth(context: Option<AuthProvider>): (r: Result<AuthProvider>)
    ensures context.None? <==> r.Err?
    ensures r.Err? ==> r.message == OutsideProviderError
    ensures context.Some? ==> r == Ok(context.value)
  {
    match context
    case None => Err(OutsideProviderError)
    case Some(p) => Ok(p)
  }
}
