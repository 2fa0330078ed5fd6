/** The HTTP client's decision logic: the bounded backend health check, the
    request interceptor's header rules, the response `code` check and the
    classification of failed requests into user notices. Transport is
    abstracted: attempt outcomes, tokens and errors are inputs. */
module Request {
  import opened Optional
  import opened Strings

  const HealthEndpoint: string := "/health"
  /** Health-check attempts before giving up. */
  const MaxAttempts: nat := 30

  // ---------------------------------------------------------------------------
  // Health check

  /** Attempt number `k + 1` reached the backend; attempts beyond the supplied
      outcomes fail. */
  predicate Succeeds(outcomes: seq<bool>, k: nat)
  {
    k < |outcomes| && outcomes[k]
  }

  /** `checkBackendHealth`: try up to 30 times, pausing between attempts but not
      after the last; `ready` iff one of the first 30 attempts succeeded, and the
      attempts stop at the first success. */
  method CheckBackendHealth(outcomes: seq<bool>) returns (ready: bool, attempts: nat, pauses: nat)
    ensures ready <==> exists k :: 0 <= k < MaxAttempts && Succeeds(outcomes, k)
    ensures 1 <= attempts <= MaxAttempts
    ensures ready ==> Succeeds(outcomes, attempts - 1)
    ensures forall k :: 0 <= k < attempts - 1 ==> !Succeeds(outcomes, k)
    ensures !ready ==> attempts == MaxAttempts
    ensures pauses == attempts - 1
  {
    var attempt: nat := 1;
    pauses := 0;
    while attempt <= MaxAttempts
      invariant 1 <= attempt <= MaxAttempts + 1
      invariant pauses == if attempt <= MaxAttempts then attempt - 1 else MaxAttempts - 1
      invariant forall k :: 0 <= k < attempt - 1 ==> !Succeeds(outcomes, k)
      decreases MaxAttempts + 1 - attempt
    {
      if Succeeds(outcomes, attempt - 1) {
        return true, attempt, pauses;
      }
      if attempt < MaxAttempts {
        pauses := pauses + 1;
      }
      attempt := attempt + 1;
    }
    return false, MaxAttempts, pauses;
  }

  // ---------------------------------------------------------------------------
  // Request interceptor

  datatype Config = Config(url: string, headers: map<string, string>)

  datatype Level = Info | Error
  /** A user-visible message and its severity. */
  datatype Notice = Notice(level: Level, text: string)

  const BackendNotReady: Notice := Notice(Error, "后端服务未就绪，请稍后再试")

  /** The error the interceptor rejects with when the backend is not ready. */
  const NotReadyError: string := "Backend not ready"

  /** The interceptor's verdict. An aborted request shows the interceptor's own
      notice, and then the notice the response error handler gives the rejection,
      which reaches it with neither a response nor a request. */
  datatype Intercepted = Proceed(config: Config) | Abort(notices: seq<Notice>, error: HttpError)

  /** The headers added to a request that passed the health check: a bearer
      `Authorization` iff a non-empty token is stored, and `Accept` always. */
  function AddHeaders(config: Config, token: Option<string>): (c: Config)
    ensures c.url == config.url
    ensures "Accept" in c.headers && c.headers["Accept"] == "application/json"
    ensures Truthy(token) ==> "Authorization" in c.headers && c.headers["Authorization"] == "Bearer " + token.value
    ensures !Truthy(token) ==> ("Authorization" in c.headers <==> "Authorization" in config.headers)
    ensures !Truthy(token) && "Authorization" in config.headers ==> c.headers["Authorization"] == config.headers["Authorization"]
    ensures forall k :: k in config.headers && k != "Authorization" && k != "Accept" ==> k in c.headers && c.headers[k] == config.headers[k]
    ensures forall k :: k in c.headers ==> k in config.headers || k == "Authorization" || k == "Accept"
  {
    var h := if Truthy(token) then config.headers["Authorization" := "Bearer " + token.value] else config.headers;
    config.(headers := h["Accept" := "application/json"])
  }

  /** The request interceptor: '/health' requests pass untouched; any other
      request first waits for the health check and is aborted with a notice if the
      backend never became ready, otherwise it proceeds with the added headers. */
  method InterceptRequest(config: Config, token: Option<string>, outcomes: seq<bool>) returns (r: Intercepted)
    ensures config.url == HealthEndpoint ==> r == Proceed(config)
    ensures config.url != HealthEndpoint ==>
      (r.Proceed? <==> exists k :: 0 <= k < MaxAttempts && Succeeds(outcomes, k))
    ensures config.url != HealthEndpoint && r.Proceed? ==> r.config == AddHeaders(config, token)
    ensures r.Abort? ==> r.error == SetupFailed(NotReadyError)
    ensures r.Abort? ==> r.notices == [BackendNotReady, Notice(Error, ConfigTrouble)]
  {
    if config.url == HealthEndpoint {
      return Proceed(config);
    }
    var ready, _, _ := CheckBackendHealth(outcomes);
    if !ready {
      var e := SetupFailed(NotReadyError);
      var f := ClassifyError(e);
      return Abort([BackendNotReady, f.notice], f.error);
    }
    return Proceed(AddHeaders(config, token));
  }

  // ---------------------------------------------------------------------------
  // Response check

  /** A payload's `code` field: missing, a number, or a string. */
  datatype Code = NoCode | NumCode(n: int) | StrCode(s: string)

  datatype Payload = Payload(code: Code, message: Option<string>)

  datatype Checked = Accepted(payload: Payload) | Rejected(notice: Notice, error: string)

  predicate CodeTruthy(c: Code)
  {
    match c
    case NoCode => false
    case NumCode(n) => n != 0
    case StrCode(s) => s != ""
  }

  /** The response interceptor's success path: a payload whose `code` is present,
      truthy and not the number 200 is rejected with its message (or 'Error');
      every other payload is passed through. */
  function CheckResponse(p: Payload): (r: Checked)
    ensures r.Accepted? <==> !CodeTruthy(p.code) || p.code == NumCode(200)
    ensures r.Accepted? ==> r.payload == p
    ensures r.Rejected? ==> r.error == OrElse(p.message, "Error") && r.notice == Notice(Error, r.error)
  {
    if CodeTruthy(p.code) && p.code != NumCode(200) then
      var msg := OrElse(p.message, "Error");
      Rejected(Notice(Error, msg), msg)
    else Accepted(p)
  }

  /** A payload passes exactly when its code is missing, 0, '' or the number 200. */
  lemma CheckResponseAcceptedCodes(p: Payload)
    ensures CheckResponse(p).Accepted? <==> p.code in {NoCode, NumCode(0), StrCode(""), NumCode(200)}
  {
  }

  /** Codes 0, '' and missing pass like 200 does; a textual '200' is rejected. */
  lemma CheckResponseCodes(m: Option<string>)
    ensures CheckResponse(Payload(NoCode, m)).Accepted?
    ensures CheckResponse(Payload(NumCode(0), m)).Accepted?
    ensures CheckResponse(Payload(StrCode(""), m)).Accepted?
    ensures CheckResponse(Payload(StrCode("200"), m)).Rejected?
    ensures CheckResponse(Payload(NumCode(404), m)).Rejected?
  {
  }

  // ---------------------------------------------------------------------------
  // Error classification

  /** A failed request: the server answered with a status; or it was sent but no
      answer came; or it could not even be set up. */
  datatype HttpError =
    | WithResponse(status: int, message: string)
    | NoResponse(message: string)
    | SetupFailed(message: string)

  /** The rejection handed back to the caller with the notice shown. */
  datatype Failure = Failure(notice: Notice, error: HttpError)

  /** Statuses with a dedicated message. */
  const KnownStatuses: set<int> := {400, 401, 403, 404, 500, 502}

  function StatusText(status: int): string
    requires status in KnownStatuses
  {
    match status
    case 400 => "请求参数错误"
    case 401 => "未授权，请登录"
    case 403 => "拒绝访问"
    case 404 => "请求资源不存在"
    case 502 => "网关错误，请检查后端服务"
    case 500 => "服务器内部错误"
  }

  const DefaultPrefix: string := "请求失败: "
  const WaitingForBackend: string := "等待后端启动或网络连接被拒绝"
  const TimedOut: string := "请求超时，请检查网络或稍后再试"
  const NetworkTrouble: string := "网络异常，请检查连接"
  const ConfigTrouble: string := "请求配置错误"

  /** The response interceptor's error path: every failure is rejected with the
      original error; the notice depends on the status, or, without a response,
      on the error message (refused connection before timeout before anything else). */
  function ClassifyError(e: HttpError): (f: Failure)
    ensures f.error == e
    ensures e.WithResponse? && e.status in KnownStatuses ==> f.notice == Notice(Error, StatusText(e.status))
    ensures e.WithResponse? && e.status !in KnownStatuses ==> f.notice == Notice(Error, DefaultPrefix + e.message)
    ensures e.NoResponse? ==>
      (f.notice.level == Info <==> Contains(e.message, "Network Error") || Contains(e.message, "ECONNREFUSED"))
    ensures e.NoResponse? && f.notice.level == Info ==> f.notice.text == WaitingForBackend
    ensures e.NoResponse? && f.notice.level == Error ==>
      f.notice.text == (if Contains(e.message, "timeout") then TimedOut else NetworkTrouble)
    ensures e.SetupFailed? ==> f.notice == Notice(Error, ConfigTrouble)
  {
    var notice :=
      match e
      case WithResponse(status, message) =>
        if status in KnownStatuses then Notice(Error, StatusText(status)) else Notice(Error, DefaultPrefix + message)
      case NoResponse(message) =>
        if Contains(message, "Network Error") || Contains(message, "ECONNREFUSED") then Notice(Info, WaitingForBackend)
        else if Contains(message, "timeout") then Notice(Error, TimedOut)
        else Notice(Error, NetworkTrouble)
      case SetupFailed(_) => Notice(Error, ConfigTrouble);
    Failure(notice, e)
  }

  /** Each dedicated status message names one status, and none of them can be
      mistaken for the default message of an unlisted status. */
  lemma StatusTextsDistinct(a: int, b: int, message: string)
    requires a in KnownStatuses && b in KnownStatuses
    ensures StatusText(a) == StatusText(b) <==> a == b
    ensures ClassifyError(WithResponse(a, message)).notice != ClassifyError(WithResponse(1000, message)).notice
  {
    var d := DefaultPrefix + message;
    assert d[2] == '失';
    assert StatusText(a)[2] != '失';
  }
}
