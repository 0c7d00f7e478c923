/** The session the client keeps: the signed-in user and their token, set by
    login and cleared by logout. */
module UserContext {

  import opened Common

  /** The user record the server sends back on login. */
  datatype SessionUser = SessionUser(id: Id, name: string, email: string)

  class Session {
    var user: Option<SessionUser>
    var token: Option<string>

    /** Whether nobody is signed in. */
    predicate IsSignedOut()
      reads this
    {
      user.None? && token.None?
    }

    /** Both start as `null`. */
    constructor ()
      ensures IsSignedOut()
    {
      user := None;
      token := None;
    }

    /** `login(userData, authToken)`: whatever the session held before. */
    method Login(userData: SessionUser, authToken: string)
      modifies this
      ensures user == Some(userData) && token == Some(authToken)
      ensures !IsSignedOut()
    {
      user := Some(userData);
      token := Some(authToken);
    }

    /** `logout()`: whatever the session held before. */
    method Logout()
      modifies this
      ensures IsSignedOut()
    {
      user := None;
      token := None;
    }
  }

  /** A login followed by a logout leaves a session as a new one starts. */
  method LoginThenLogout(s: Session, userData: SessionUser, authToken: string)
    modifies s
    ensures s.IsSignedOut()
  {
    s.Login(userData, authToken);
    s.Logout();
  }
}
