/**
 * The client's session store (client/src/redux/slices/authSlice.js): the
 * signed-in user, or none, with loading and error flags. Only the state is
 * modelled; the copy kept in the browser's local storage is not.
 */
module AuthSlice {
  import opened Wrappers
  import opened Models

  class AuthState {
    var userInfo: Option<User>
    var loading: bool
    var error: Option<string>

    /** The initial state, from the stored user when there is one. */
    constructor (stored: Option<User>)
      ensures userInfo == stored && !loading && error == None
    {
      userInfo := stored;
      loading := false;
      error := None;
    }

    /** setCredentials */
    method SetCredentials(user: User)
      modifies this
      ensures userInfo == Some(user) && loading == old(loading) && error == old(error)
    {
      userInfo := Some(user);
    }

    /** clearCredentials */
    method ClearCredentials()
      modifies this
      ensures userInfo == None && loading == old(loading) && error == old(error)
    {
      userInfo := None;
    }

    /** login.pending and register.pending: a new attempt clears the last error. */
    method SignInPending()
      modifies this
      ensures loading && error == None && userInfo == old(userInfo)
    {
      loading := true;
      error := None;
    }

    /** updateProfile.pending: unlike a sign-in, the last error stays. */
    method UpdateProfilePending()
      modifies this
      ensures loading && error == old(error) && userInfo == old(userInfo)
    {
      loading := true;
    }

    /** login, register and updateProfile fulfilled: the answer becomes the signed-in user. */
    method Fulfilled(user: User)
      modifies this
      ensures !loading && userInfo == Some(user) && error == old(error)
    {
      loading := false;
      userInfo := Some(user);
    }

    /** login, register and updateProfile rejected: the user stays as it was. */
    method Rejected(message: string)
      modifies this
      ensures !loading && error == Some(message) && userInfo == old(userInfo)
    {
      loading := false;
      error := Some(message);
    }

    /** logout.fulfilled: only the user is cleared. */
    method LogoutFulfilled()
      modifies this
      ensures userInfo == None && loading == old(loading) && error == old(error)
    {
      userInfo := None;
    }
  }
}
