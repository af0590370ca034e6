/** The browser's session store: the signed-in user, the access token it
    was given, and the loading, initialisation and error flags. Every API
    call goes through the API client, so its answers are `Exchange`s that
    the client's interceptors settle, and the client's module token can be
    refreshed or cleared by a call as well as set by the store. */
module AuthStore {

  import opened Wrappers
  import opened ApiClient

  /** The user the store keeps. */
  datatype StoreUser = StoreUser(id: string, email: string, name: string)

  const LoginFailed := "Login failed"
  const RegistrationFailed := "Registration failed"

  /** `error.response?.data?.message || fallback`. */
  function ErrorMessage(e: ApiError, fallback: string): (r: string)
    ensures Truthy(e.message) ==> r == e.message.value
    ensures !Truthy(e.message) ==> r == fallback
  {
    if Truthy(e.message) then e.message.value else fallback
  }

  /** A fresh request as the store's API calls start one. */
  method NewRequest() returns (req: PendingRequest)
    ensures fresh(req) && !req.config.retry
  {
    req := new PendingRequest(RequestConfig(None, false));
  }

  class AuthStore {
    var user: Option<StoreUser>
    var accessToken: Option<string>
    var isLoading: bool
    var isAuthenticated: bool
    var isInitialized: bool
    var error: Option<string>
    const client: ApiClient

    constructor (client: ApiClient)
      ensures this.client == client
      ensures user.None? && accessToken.None? && !isLoading && !isAuthenticated && !isInitialized && error.None?
    {
      this.client := client;
      user := None;
      accessToken := None;
      isLoading := false;
      isAuthenticated := false;
      isInitialized := false;
      error := None;
    }

    /** The shared body of `login` and `register`: post the credentials,
        hand the answered token to the client, then fetch the profile. On
        failure the store records the message and rethrows; the user, the
        store's token and `isAuthenticated` stay as they were. Either call
        can make the client refresh: after a 401 the recorded message is
        the refresh's, and the client's token is the refreshed one, or
        none. */
    method SignIn(tokenEx: Exchange<string>, profileEx: Exchange<StoreUser>, fallback: string)
      returns (r: Result<(), ApiError>)
      modifies this, client
      ensures !isLoading && isInitialized == old(isInitialized)
      ensures r.Success? <==> Outcome(tokenEx).Success? && Outcome(profileEx).Success?
      ensures r.Success? ==>
        && user == Some(Outcome(profileEx).value) && accessToken == Some(Outcome(tokenEx).value)
        && isAuthenticated && error.None?
      ensures r.Failure? ==>
        && user == old(user) && accessToken == old(accessToken) && isAuthenticated == old(isAuthenticated)
        && r.error == (if Outcome(tokenEx).Failure? then Outcome(tokenEx).error else Outcome(profileEx).error)
        && error == Some(ErrorMessage(r.error, fallback))
      ensures Outcome(tokenEx).Failure? ==>
        && client.accessToken == TokenAfter(tokenEx, old(client.accessToken))
        && client.refreshCalls == old(client.refreshCalls) + RefreshCount(tokenEx)
      ensures Outcome(tokenEx).Success? ==>
        && client.accessToken == TokenAfter(profileEx, Some(Outcome(tokenEx).value))
        && client.refreshCalls == old(client.refreshCalls) + RefreshCount(tokenEx) + RefreshCount(profileEx)
    {
      isLoading, error := true, None;
      var req := NewRequest();
      var tokenRes := client.Send(req, tokenEx);
      if tokenRes.Failure? {
        isLoading, error := false, Some(ErrorMessage(tokenRes.error, fallback));
        return Failure(tokenRes.error);
      }
      var token := tokenRes.value;
      client.SetAccessToken(Some(token));
      req := NewRequest();
      var profileRes := client.Send(req, profileEx);
      if profileRes.Failure? {
        isLoading, error := false, Some(ErrorMessage(profileRes.error, fallback));
        return Failure(profileRes.error);
      }
      user, accessToken, isAuthenticated, isLoading, error := Some(profileRes.value), Some(token), true, false, None;
      r := Success(());
    }

    method Login(loginEx: Exchange<string>, profileEx: Exchange<StoreUser>) returns (r: Result<(), ApiError>)
      modifies this, client
      ensures !isLoading && isInitialized == old(isInitialized)
      ensures r.Success? <==> Outcome(loginEx).Success? && Outcome(profileEx).Success?
      ensures r.Success? ==>
        && user == Some(Outcome(profileEx).value) && accessToken == Some(Outcome(loginEx).value)
        && isAuthenticated && error.None?
        && client.accessToken == TokenAfter(profileEx, Some(Outcome(loginEx).value))
      ensures r.Failure? ==>
        && user == old(user) && accessToken == old(accessToken) && isAuthenticated == old(isAuthenticated)
        && error == Some(ErrorMessage(r.error, LoginFailed))
      ensures Outcome(loginEx).Failure? ==> client.accessToken == TokenAfter(loginEx, old(client.accessToken))
    {
      r := SignIn(loginEx, profileEx, LoginFailed);
    }

    method Register(registerEx: Exchange<string>, profileEx: Exchange<StoreUser>) returns (r: Result<(), ApiError>)
      modifies this, client
      ensures !isLoading && isInitialized == old(isInitialized)
      ensures r.Success? <==> Outcome(registerEx).Success? && Outcome(profileEx).Success?
      ensures r.Success? ==>
        && user == Some(Outcome(profileEx).value) && accessToken == Some(Outcome(registerEx).value)
        && isAuthenticated && error.None?
        && client.accessToken == TokenAfter(profileEx, Some(Outcome(registerEx).value))
      ensures r.Failure? ==>
        && user == old(user) && accessToken == old(accessToken) && isAuthenticated == old(isAuthenticated)
        && error == Some(ErrorMessage(r.error, RegistrationFailed))
      ensures Outcome(registerEx).Failure? ==> client.accessToken == TokenAfter(registerEx, old(client.accessToken))
    {
      r := SignIn(registerEx, profileEx, RegistrationFailed);
    }

    /** `clearAuth`. */
    method ClearAuth()
      modifies this, client
      ensures user.None? && accessToken.None? && !isAuthenticated && client.accessToken.None?
      ensures isLoading == old(isLoading) && isInitialized == old(isInitialized) && error == old(error)
      ensures client.refreshCalls == old(client.refreshCalls)
    {
      client.SetAccessToken(None);
      user, accessToken, isAuthenticated := None, None, false;
    }

    /** `logout`: the server's answer, whatever it is, is ignored, though
        a 401 still makes the client refresh on the way. */
    method Logout(logoutEx: Exchange<()>)
      modifies this, client
      ensures user.None? && accessToken.None? && !isAuthenticated && client.accessToken.None?
      ensures isLoading == old(isLoading) && isInitialized == old(isInitialized) && error == old(error)
      ensures client.refreshCalls == old(client.refreshCalls) + RefreshCount(logoutEx)
    {
      var req := NewRequest();
      var _ := client.Send(req, logoutEx);
      ClearAuth();
    }

    /** `refreshAuth`: the refresh call and the profile call both go
        through the client. On any failure the session is cleared and the
        error rethrown. `isLoading` and `error` are never touched. On
        success the store keeps the token the refresh call answered, while
        the client holds the one a 401 on the profile call refreshed to. */
    method RefreshAuth(refreshEx: Exchange<string>, profileEx: Exchange<StoreUser>) returns (r: Result<(), ApiError>)
      modifies this, client
      ensures isLoading == old(isLoading) && isInitialized == old(isInitialized) && error == old(error)
      ensures r.Success? <==> Outcome(refreshEx).Success? && Outcome(profileEx).Success?
      ensures r.Success? ==>
        && user == Some(Outcome(profileEx).value) && accessToken == Some(Outcome(refreshEx).value)
        && isAuthenticated && client.accessToken == TokenAfter(profileEx, Some(Outcome(refreshEx).value))
      ensures r.Failure? ==>
        && user.None? && accessToken.None? && !isAuthenticated && client.accessToken.None?
        && r.error == (if Outcome(refreshEx).Failure? then Outcome(refreshEx).error else Outcome(profileEx).error)
    {
      var req := NewRequest();
      var refreshRes := client.Send(req, refreshEx);
      if refreshRes.Failure? {
        ClearAuth();
        return Failure(refreshRes.error);
      }
      var token := refreshRes.value;
      client.SetAccessToken(Some(token));
      req := NewRequest();
      var profileRes := client.Send(req, profileEx);
      if profileRes.Failure? {
        ClearAuth();
        return Failure(profileRes.error);
      }
      user, accessToken, isAuthenticated := Some(profileRes.value), Some(token), true;
      r := Success(());
    }

    /** `initializeAuth`: try a refresh, swallow its failure, and always end
        loaded and initialised. */
    method InitializeAuth(refreshEx: Exchange<string>, profileEx: Exchange<StoreUser>)
      modifies this, client
      ensures !isLoading && isInitialized
      ensures error == old(error)
      ensures isAuthenticated <==> Outcome(refreshEx).Success? && Outcome(profileEx).Success?
      ensures isAuthenticated ==> user == Some(Outcome(profileEx).value) && accessToken == Some(Outcome(refreshEx).value)
      ensures !isAuthenticated ==> user.None? && accessToken.None? && client.accessToken.None?
    {
      isLoading := true;
      var _ := RefreshAuth(refreshEx, profileEx);
      isLoading, isInitialized := false, true;
    }

    method ClearError()
      modifies this
      ensures error.None?
      ensures user == old(user) && accessToken == old(accessToken) && isLoading == old(isLoading)
      ensures isAuthenticated == old(isAuthenticated) && isInitialized == old(isInitialized)
    {
      error := None;
    }
  }
}
