/** The browser's API client: the in-memory access token, the request
    interceptor that attaches it, and the response interceptor that, on a
    401, refreshes the token once and replays the request. The refresh call
    itself goes out on a client without these interceptors; its outcome is
    an input here. */
module ApiClient {

  import opened Wrappers
  import AuthLib

  /** The parts of an axios request config the interceptors touch:
      `headers.Authorization` and `_retry`. */
  datatype RequestConfig = RequestConfig(authorization: Option<string>, retry: bool)

  /** The request interceptor: a truthy token sets the header, anything
      else leaves the config as it was. */
  function AttachToken(token: Option<string>, config: RequestConfig): (r: RequestConfig)
    ensures r.retry == config.retry
    ensures Truthy(token) ==> r.authorization == Some(AuthLib.BearerPrefix + token.value)
    ensures !Truthy(token) ==> r == config
  {
    if Truthy(token) then config.(authorization := Some(AuthLib.BearerPrefix + token.value)) else config
  }

  /** The header the client attaches is one the server's bearer parsing
      reads the same token back from. */
  lemma AttachedHeaderParses(token: string, config: RequestConfig)
    requires token != ""
    ensures AuthLib.BearerToken(AttachToken(Some(token), config).authorization) == Some(token)
  {
    AuthLib.BearerRoundTrip(token);
  }

  /** A failed call as the store reads it: `error.response?.data?.message`. */
  datatype ApiError = ApiError(message: Option<string>)

  /** axios' default `validateStatus`, which `axios.create` keeps: only a
      2xx status resolves the request. */
  predicate ValidateStatus(status: int) {
    200 <= status < 300
  }

  /** What came back for one request: nothing (a network error or the
      10-second timeout), a resolved answer with the payload the caller
      reads, or a rejected answer with its status and its body's message. */
  datatype Reply<T> = NoReply | Resolved(value: T) | Rejected(status: int, message: Option<string>)

  /** An answer with status `status` as axios hands it on. */
  function ReplyOf<T>(status: int, value: T, message: Option<string>): (r: Reply<T>)
    ensures r.Resolved? <==> ValidateStatus(status)
    ensures r.Resolved? ==> r.value == value
    ensures r.Rejected? ==> r.status == status && r.message == message
    ensures !r.NoReply?
  {
    if ValidateStatus(status) then Resolved(value) else Rejected(status, message)
  }

  /** The error a rejected or missing answer carries. */
  function ReplyError<T>(reply: Reply<T>): ApiError {
    if reply.Rejected? then ApiError(reply.message) else ApiError(None)
  }

  /** The status the interceptor sees: `error.response?.status`. */
  function ErrorStatus<T>(reply: Reply<T>): Option<int> {
    if reply.Rejected? then Some(reply.status) else None
  }

  /** The answer of the refresh endpoint, posted with plain axios: the new
      token, or the failure's `response?.data?.message`. */
  datatype RefreshOutcome = Refreshed(accessToken: string) | RefreshFailed(message: Option<string>)

  /** What the response interceptor does with a failed request. */
  datatype ErrorOutcome =
    | Replay(config: RequestConfig)
    | RejectOriginal
    | RejectRefresh(message: Option<string>)

  /** Everything the network answers to one call through the client: the
      first reply, the refresh endpoint's answer should the interceptor ask
      for one, and the reply to the replayed request should there be one. */
  datatype Exchange<T> = Exchange(first: Reply<T>, refresh: RefreshOutcome, replay: Reply<T>)

  /** The first reply makes the interceptor refresh exactly when it is a
      401. */
  predicate Refreshes<T>(ex: Exchange<T>) {
    ex.first.Rejected? && ex.first.status == 401
  }

  /** What a call through the client settles to. */
  function Outcome<T>(ex: Exchange<T>): (r: Result<T, ApiError>)
    ensures r.Success? <==> ex.first.Resolved? || (Refreshes(ex) && ex.refresh.Refreshed? && ex.replay.Resolved?)
    ensures r.Success? ==> r.value == (if ex.first.Resolved? then ex.first.value else ex.replay.value)
    ensures r.Failure? && !Refreshes(ex) ==> r.error == ReplyError(ex.first)
    ensures r.Failure? && Refreshes(ex) && ex.refresh.RefreshFailed? ==> r.error == ApiError(ex.refresh.message)
    ensures r.Failure? && Refreshes(ex) && ex.refresh.Refreshed? ==> r.error == ReplyError(ex.replay)
  {
    if ex.first.Resolved? then Success(ex.first.value)
    else if !Refreshes(ex) then Failure(ReplyError(ex.first))
    else match ex.refresh
      case RefreshFailed(m) => Failure(ApiError(m))
      case Refreshed(_) => if ex.replay.Resolved? then Success(ex.replay.value) else Failure(ReplyError(ex.replay))
  }

  /** The module token once a call has settled: a refresh replaces it, a
      failed refresh clears it, and otherwise it stays. */
  function TokenAfter<T>(ex: Exchange<T>, token: Option<string>): (r: Option<string>)
    ensures !Refreshes(ex) ==> r == token
    ensures Refreshes(ex) ==> r == (if ex.refresh.Refreshed? then Some(ex.refresh.accessToken) else None)
  {
    if !Refreshes(ex) then token
    else if ex.refresh.Refreshed? then Some(ex.refresh.accessToken)
    else None
  }

  /** How many times a call posts to the refresh endpoint. */
  function RefreshCount<T>(ex: Exchange<T>): (n: nat)
    ensures n <= 1
    ensures n == 1 <==> Refreshes(ex)
  {
    if Refreshes(ex) then 1 else 0
  }

  /** For every call: after a refresh the module token is set exactly when
      the refresh succeeded, a call that succeeds after a refresh leaves the
      refreshed token behind, and a call that loses a held token reports
      the refresh's error. */
  lemma SettledTokenAgrees<T>(ex: Exchange<T>, token: Option<string>)
    ensures RefreshCount(ex) == 1 ==> (TokenAfter(ex, token).Some? <==> ex.refresh.Refreshed?)
    ensures Outcome(ex).Success? && RefreshCount(ex) == 1 ==> TokenAfter(ex, token) == Some(ex.refresh.accessToken)
    ensures token.Some? && TokenAfter(ex, token).None? ==>
      Outcome(ex).Failure? && Outcome(ex).error == ApiError(ex.refresh.message)
  {
  }

  /** A redirect or a "not modified" answer is rejected by
      `validateStatus`, and, not being a 401, is handed on without a
      refresh. */
  lemma NonSuccessWithoutRefresh<T>(status: int, value: T, message: Option<string>, refresh: RefreshOutcome, replay: Reply<T>)
    requires status == 302 || status == 304
    ensures var ex := Exchange(ReplyOf(status, value, message), refresh, replay);
      && Outcome(ex) == Failure(ApiError(message))
      && !Refreshes(ex)
  {
  }

  /** A first 401 whose refresh fails settles to the refresh's error, not
      to the 401's own message. */
  lemma UnauthorizedReportsRefreshError<T>(message: Option<string>, refreshMessage: Option<string>, replay: Reply<T>)
    ensures Outcome(Exchange(Rejected(401, message), RefreshFailed(refreshMessage), replay)) == Failure(ApiError(refreshMessage))
  {
  }

  /** A request in flight; the interceptor rewrites it in place. */
  class PendingRequest {
    var config: RequestConfig

    constructor (config: RequestConfig)
      ensures this.config == config
    {
      this.config := config;
    }
  }

  class ApiClient {
    /** The module-level `accessToken`. */
    var accessToken: Option<string>
    /** Calls made to the refresh endpoint. */
    var refreshCalls: nat

    constructor ()
      ensures accessToken.None? && refreshCalls == 0
    {
      accessToken := None;
      refreshCalls := 0;
    }

    method SetAccessToken(token: Option<string>)
      modifies this
      ensures accessToken == token && refreshCalls == old(refreshCalls)
    {
      accessToken := token;
    }

    /** `getAccessToken` gives back the last token set. */
    method SetThenGet(token: Option<string>) returns (r: Option<string>)
      modifies this
      ensures r == token
    {
      SetAccessToken(token);
      r := GetAccessToken();
    }

    function GetAccessToken(): Option<string>
      reads this
    {
      accessToken
    }

    /** The config a request goes out with. */
    function Outgoing(config: RequestConfig): (r: RequestConfig)
      reads this
      ensures Truthy(accessToken) ==> r.authorization == Some(AuthLib.BearerPrefix + accessToken.value)
      ensures !Truthy(accessToken) ==> r == config
    {
      AttachToken(accessToken, config)
    }

    /** The response interceptor's error handler. `status` is the error
        response's status, `None` when there was no response. */
    method OnResponseError(req: PendingRequest, status: Option<int>, refresh: RefreshOutcome)
      returns (r: ErrorOutcome)
      modifies this, req
      ensures !(status == Some(401) && !old(req.config.retry)) ==>
        r == RejectOriginal && accessToken == old(accessToken) && refreshCalls == old(refreshCalls)
        && req.config == old(req.config)
      ensures status == Some(401) && !old(req.config.retry) ==>
        && refreshCalls == old(refreshCalls) + 1
        && req.config.retry
        && (refresh.Refreshed? ==>
              && accessToken == Some(refresh.accessToken)
              && req.config.authorization == Some(AuthLib.BearerPrefix + refresh.accessToken)
              && r == Replay(AttachToken(accessToken, req.config)))
        && (refresh.RefreshFailed? ==>
              && accessToken.None?
              && r == RejectRefresh(refresh.message))
    {
      if status == Some(401) && !req.config.retry {
        req.config := req.config.(retry := true);
        refreshCalls := refreshCalls + 1;
        match refresh {
          case Refreshed(newAccessToken) =>
            SetAccessToken(Some(newAccessToken));
            req.config := req.config.(authorization := Some(AuthLib.BearerPrefix + newAccessToken));
            return Replay(Outgoing(req.config));
          case RefreshFailed(e) =>
            SetAccessToken(None);
            return RejectRefresh(e);
        }
      }
      return RejectOriginal;
    }

    /** One call through both interceptors. A request is refreshed for at
        most once: the replay is marked `_retry`, so if it fails again,
        even with 401, it is rejected with its own error. */
    method Send<T>(req: PendingRequest, ex: Exchange<T>) returns (r: Result<T, ApiError>)
      requires !req.config.retry
      modifies this, req
      ensures r == Outcome(ex)
      ensures accessToken == TokenAfter(ex, old(accessToken))
      ensures refreshCalls == old(refreshCalls) + RefreshCount(ex)
    {
      if ex.first.Resolved? {
        return Success(ex.first.value);
      }
      var handled := OnResponseError(req, ErrorStatus(ex.first), ex.refresh);
      match handled {
        case RejectOriginal =>
          return Failure(ReplyError(ex.first));
        case RejectRefresh(m) =>
          return Failure(ApiError(m));
        case Replay(_) =>
          if ex.replay.Resolved? {
            return Success(ex.replay.value);
          }
          var again := OnResponseError(req, ErrorStatus(ex.replay), ex.refresh);
          assert again == RejectOriginal;
          return Failure(ReplyError(ex.replay));
      }
    }
  }
}
