/** The session and request gateway of `src/api.js`: the three stored
    entries, login, registration, token refresh and the authenticated
    request with its refresh-and-retry protocol. Network responses are
    inputs: each `fetch` the source awaits is one `Response` value. */
module Gateway {
  import opened Wrappers
  import opened Text
  import opened ErrorText
  import opened Profile

  const JwtKey := "jwt_token"
  const RefreshKey := "refresh_token"
  const UserKey := "user_info"
  const SessionKeys := {JwtKey, RefreshKey, UserKey}

  /** The members of a JSON response body that the gateway reads; a member
      the server did not send is None. `errors` holds the values of the
      field-error object, in its enumeration order. */
  datatype Body = Body(
    message: Option<string>,
    error: Option<string>,
    errors: Option<seq<string>>,
    token: Option<string>,
    refreshToken: Option<string>,
    username: Option<string>,
    role: Option<string>)

  /** One settled `fetch`: `body` is None when `response.json()` rejects. */
  datatype Response = Response(status: int, ok: bool, statusText: string, body: Option<Body>)

  /** What an awaited call throws: an `Error` with a message, or the
      rejection of `response.json()` on a successful response that is not
      JSON. */
  datatype Error = Error(message: string) | NotJson

  /** JavaScript truthiness of a string that may be absent. */
  predicate Truthy(v: Option<string>) {
    v.Some? && v.value != ""
  }

  /** `v || fallback`. */
  function Or(v: Option<string>, fallback: string): string {
    if Truthy(v) then v.value else fallback
  }

  /** `localStorage.getItem(key)`: None where the store answers null. */
  function Get(m: map<string, string>, key: string): Option<string> {
    if key in m then Some(m[key]) else None
  }

  /** Every key outside `keys` is as it was. */
  ghost predicate SameOutside(before: map<string, string>, after: map<string, string>, keys: set<string>) {
    forall k :: k !in keys ==> Get(after, k) == Get(before, k)
  }

  /** The effect of `storeTokens(access, refresh)`: each value is written
      only when it is truthy, and nothing else changes. */
  ghost predicate TokensStored(before: map<string, string>, after: map<string, string>,
                               access: Option<string>, refresh: Option<string>) {
    && Get(after, JwtKey) == (if Truthy(access) then access else Get(before, JwtKey))
    && Get(after, RefreshKey) == (if Truthy(refresh) then refresh else Get(before, RefreshKey))
    && SameOutside(before, after, {JwtKey, RefreshKey})
  }

  /** The profile `getUser()` returns for a store: null (None) without a
      truthy `user_info`, a parse failure for text that is not a profile. */
  function UserIn(m: map<string, string>): Result<Option<Profile>, Error> {
    if !Truthy(Get(m, UserKey)) then Success(None)
    else match Parse(m[UserKey])
      case None => Failure(NotJson)
      case Some(p) => Success(Some(p))
  }

  /** What a successful login or registration leaves in the store: with a
      token, the tokens as `storeTokens` writes them and the profile built
      from `username` and `role`; without one, nothing changes. */
  ghost predicate SessionSaved(before: map<string, string>, after: map<string, string>, data: Body) {
    if Truthy(data.token) then
      && Get(after, JwtKey) == data.token
      && Get(after, RefreshKey) == (if Truthy(data.refreshToken) then data.refreshToken else Get(before, RefreshKey))
      && UserIn(after) == Success(Some(Profile(data.username, data.role)))
      && SameOutside(before, after, SessionKeys)
    else after == before
  }

  /** What a successful refresh leaves in the store. */
  ghost predicate TokensRefreshed(before: map<string, string>, after: map<string, string>, data: Body) {
    if Truthy(data.token) then TokensStored(before, after, data.token, data.refreshToken)
    else after == before
  }

  // Error texts.

  const NoRefreshTokenText := "No refresh token available"
  const RefreshRejectedText := "Session expired. Please login again."

  /** The message a failed login throws. An unreadable body gives the
      default error object's "Login failed". */
  function LoginErrorMessage(body: Option<Body>): string {
    match body
    case None => "Login failed"
    case Some(b) => Or(b.message, Or(b.error, "Invalid username or password"))
  }

  /** The message a failed registration throws: the field errors joined
      with ", " when the body has an `errors` object, else `message`, else
      `error`, else "Registration failed". */
  function RegisterErrorMessage(body: Option<Body>): string {
    match body
    case None => "Registration failed"
    case Some(b) =>
      if b.errors.Some? then
        var joined := Join(b.errors.value, ", ");
        if joined != "" then joined else "Validation failed"
      else Or(b.message, Or(b.error, "Registration failed"))
  }

  /** Every field error of a rejected registration reaches the user, and
      the generic "Validation failed" stands in exactly when there is no
      field error text at all. */
  lemma RegisterErrorsAggregated(b: Body)
    requires b.errors.Some?
    ensures forall k :: 0 <= k < |b.errors.value| ==> Contains(RegisterErrorMessage(Some(b)), b.errors.value[k])
    ensures RegisterErrorMessage(Some(b)) == "Validation failed" <==>
      b.errors.value == [] || b.errors.value == [""] || Join(b.errors.value, ", ") == "Validation failed"
  {
    var parts := b.errors.value;
    JoinEmpty(parts, ", ");
    forall k | 0 <= k < |parts| ensures Contains(RegisterErrorMessage(Some(b)), parts[k]) {
      JoinContainsEach(parts, ", ", k);
      if Join(parts, ", ") == "" {
        assert parts[k] == "";
        assert OccursAt("Validation failed", "", 0);
      }
    }
  }

  /** `HTTP <status>: <statusText>`. */
  function HttpText(r: Response): string {
    "HTTP " + IntToString(r.status) + ": " + r.statusText
  }

  /** The text `apiRequest` starts from: the body's `message`, else its
      `error`, else the HTTP status line; an unreadable body gives the
      status line. */
  function BaseMessage(r: Response): string {
    match r.body
    case None => HttpText(r)
    case Some(b) => Or(b.message, Or(b.error, HttpText(r)))
  }

  /** How `apiRequest` ends on a response it does not refresh for. */
  function Outcome(r: Response): Result<Body, Error> {
    if !r.ok then Failure(Error(FormatErrorMessage(BaseMessage(r), r.status)))
    else match r.body
      case None => Failure(NotJson)
      case Some(b) => Success(b)
  }

  /** A failed response whose body names no message or error is reported
      from the HTTP status line: a status of 500 or more becomes the
      server-error text unless the status text itself triggers an earlier
      rule. */
  lemma EmptyErrorBody(r: Response)
    requires !r.ok && r.status >= 500
    requires r.body.None? || (!Truthy(r.body.value.message) && !Truthy(r.body.value.error))
    requires !MessageRuleApplies(HttpText(r))
    requires !Contains(HttpText(r), "Unauthorized") && !Contains(HttpText(r), "expired") && !Contains(HttpText(r), "Forbidden")
    ensures BaseMessage(r) == HttpText(r)
    ensures Outcome(r) == Failure(Error(ServerErrorText))
  {
    StatusRules(HttpText(r), r.status);
  }

  /** A 401 that is not refreshed (the retry's, or one on an
      authentication endpoint) is reported as a session expiry unless its
      text triggers one of the message rules, which take precedence. */
  lemma UnrefreshedUnauthorized(r: Response)
    requires !r.ok && r.status == 401
    requires !MessageRuleApplies(BaseMessage(r))
    ensures Outcome(r) == Failure(Error(SessionExpiredText))
  {
    UnauthorizedIsSessionExpired(BaseMessage(r));
  }

  /** The three conditions under which a response leads to a refresh. */
  predicate NeedsRefresh(endpoint: string, r: Response, token: Option<string>) {
    r.status == 401 && Truthy(token) && !Contains(endpoint, "/auth/")
  }

  /** A refresh settles successfully when it was started with a refresh
      token and the refresh endpoint answers ok with a readable body. */
  predicate RefreshSucceeds(sent: Option<string>, r: Response) {
    Truthy(sent) && r.ok && r.body.Some?
  }

  /** Where `apiRequest` is after its first response. */
  datatype Step =
    | Done(result: Result<Body, Error>)
    | AwaitRefresh(started: bool)

  class Session {
    /** The browser's key-value store, as far as the gateway uses it. */
    var store: map<string, string>
    /** `isRefreshing`: a refresh is outstanding. */
    var refreshing: bool
    /** The number of requests issued to the refresh endpoint. */
    ghost var refreshRequests: nat
    /** The refresh token the outstanding refresh was started with, read
        when it started; None when none was stored, so that the refresh
        has already failed without a request. */
    var pending: Option<string>
    /** How the last refresh settled: the outcome every request awaiting
        it resumes with. */
    ghost var lastSettled: Option<bool>
    /** The 401s that needed a refresh and the settlements of refreshes,
        in the order they happened. */
    ghost var history: seq<Event>
    /** The number of refreshes started by those 401s. */
    ghost var started: nat

    constructor (initial: map<string, string>)
      ensures store == initial && !refreshing && refreshRequests == 0
      ensures history == [] && started == 0 && Replayed()
      ensures pending == None && lastSettled == None
    {
      store := initial;
      refreshing := false;
      refreshRequests := 0;
      pending := None;
      lastSettled := None;
      history := [];
      started := 0;
    }

    /** The flag and the count of started refreshes are what `Replay`
        gives for the recorded history from an idle session. */
    ghost predicate Replayed()
      reads this
    {
      Replay(false, history) == (refreshing, started)
    }

    /** `getToken()`. */
    function Token(): Option<string>
      reads this
    {
      Get(store, JwtKey)
    }

    /** `getRefreshToken()`. */
    function RefreshTokenValue(): Option<string>
      reads this
    {
      Get(store, RefreshKey)
    }

    /** `getUser()`. */
    function User(): Result<Option<Profile>, Error>
      reads this
    {
      UserIn(store)
    }

    /** `isAuthenticated()`: a non-empty access token is stored. */
    predicate IsAuthenticated()
      reads this
      ensures IsAuthenticated() <==> JwtKey in store && store[JwtKey] != ""
    {
      Truthy(Token())
    }

    /** `storeTokens(accessToken, refreshToken)`. */
    method StoreTokens(access: Option<string>, refresh: Option<string>)
      modifies this`store
      ensures TokensStored(old(store), store, access, refresh)
    {
      if Truthy(access) {
        store := store[JwtKey := access.value];
      }
      if Truthy(refresh) {
        store := store[RefreshKey := refresh.value];
      }
    }

    /** `logout()`: the three entries are removed, and nothing else. A
        second call changes nothing. */
    method Logout()
      modifies this`store
      ensures store == old(store) - SessionKeys
      ensures !IsAuthenticated() && RefreshTokenValue() == None && User() == Success(None)
      ensures SessionKeys !! old(store).Keys ==> store == old(store)
    {
      store := store - {JwtKey};
      store := store - {RefreshKey};
      store := store - {UserKey};
    }

    /** The `if (data.token)` block shared by `login` and `register`. */
    method SaveSession(data: Body)
      modifies this`store
      ensures SessionSaved(old(store), store, data)
    {
      if Truthy(data.token) {
        StoreTokens(data.token, data.refreshToken);
        var p := Profile(data.username, data.role);
        store := store[UserKey := Serialize(p)];
        ParseSerialize(p);
        if p == Profile(None, None) {
          assert Serialize(p) != "";
        } else {
          assert Serialize(p)[0] == '{';
        }
      }
    }

    /** `login(username, password)`, given the login endpoint's response. */
    method Login(response: Response) returns (result: Result<Body, Error>)
      modifies this`store
      ensures !response.ok ==> store == old(store) && result == Failure(Error(LoginErrorMessage(response.body)))
      ensures response.ok && response.body.None? ==> store == old(store) && result == Failure(NotJson)
      ensures response.ok && response.body.Some? ==>
        result == Success(response.body.value) && SessionSaved(old(store), store, response.body.value)
    {
      if !response.ok {
        return Failure(Error(LoginErrorMessage(response.body)));
      }
      if response.body.None? {
        return Failure(NotJson);
      }
      SaveSession(response.body.value);
      result := Success(response.body.value);
    }

    /** `register(userData)`, given the register endpoint's response. */
    method Register(response: Response) returns (result: Result<Body, Error>)
      modifies this`store
      ensures !response.ok ==> store == old(store) && result == Failure(Error(RegisterErrorMessage(response.body)))
      ensures response.ok && response.body.None? ==> store == old(store) && result == Failure(NotJson)
      ensures response.ok && response.body.Some? ==>
        result == Success(response.body.value) && SessionSaved(old(store), store, response.body.value)
    {
      if !response.ok {
        return Failure(Error(RegisterErrorMessage(response.body)));
      }
      if response.body.None? {
        return Failure(NotJson);
      }
      SaveSession(response.body.value);
      result := Success(response.body.value);
    }

    /** The part of `refreshToken()` before its first await: the refresh
        token is read, and the request carrying it is issued only when it
        is non-empty. */
    method StartRefresh() returns (sent: Option<string>)
      modifies this`refreshRequests
      ensures sent == RefreshTokenValue()
      ensures refreshRequests == old(refreshRequests) + (if Truthy(sent) then 1 else 0)
    {
      sent := RefreshTokenValue();
      if Truthy(sent) {
        refreshRequests := refreshRequests + 1;
      }
    }

    /** The rest of `refreshToken()`, given the refresh token it started
        with and the response of the refresh endpoint. */
    method FinishRefresh(sent: Option<string>, response: Response) returns (result: Result<Body, Error>)
      modifies this`store
      ensures !Truthy(sent) ==> store == old(store) && result == Failure(Error(NoRefreshTokenText))
      ensures Truthy(sent) && !response.ok ==>
        store == old(store) - SessionKeys && result == Failure(Error(RefreshRejectedText))
      ensures Truthy(sent) && response.ok && response.body.None? ==> store == old(store) && result == Failure(NotJson)
      ensures result.Success? <==> RefreshSucceeds(sent, response)
      ensures RefreshSucceeds(sent, response) ==>
        result == Success(response.body.value) && TokensRefreshed(old(store), store, response.body.value)
    {
      if !Truthy(sent) {
        return Failure(Error(NoRefreshTokenText));
      }
      if !response.ok {
        Logout();
        return Failure(Error(RefreshRejectedText));
      }
      if response.body.None? {
        return Failure(NotJson);
      }
      var data := response.body.value;
      if Truthy(data.token) {
        StoreTokens(data.token, data.refreshToken);
      }
      result := Success(data);
    }

    /** `refreshToken()` called on its own, given the response the refresh
        endpoint would give; `requested` tells whether the request was
        issued. */
    method RefreshToken(response: Response) returns (result: Result<Body, Error>, ghost requested: bool)
      modifies this`store, this`refreshRequests
      ensures requested <==> Truthy(old(RefreshTokenValue()))
      ensures refreshRequests == old(refreshRequests) + (if requested then 1 else 0)
      ensures !requested ==> store == old(store) && result == Failure(Error(NoRefreshTokenText))
      ensures requested && !response.ok ==>
        store == old(store) - SessionKeys && result == Failure(Error(RefreshRejectedText))
      ensures requested && response.ok && response.body.None? ==> store == old(store) && result == Failure(NotJson)
      ensures requested && response.ok && response.body.Some? ==>
        result == Success(response.body.value) && TokensRefreshed(old(store), store, response.body.value)
    {
      var sent := StartRefresh();
      requested := Truthy(sent);
      result := FinishRefresh(sent, response);
    }

    /** `apiRequest` from the arrival of its first response to its first
        await on the refresh. `sent` is the token read when the request was
        issued. A 401 on a request that carried a token to a
        non-authentication endpoint either starts the refresh (when none is
        outstanding) or joins the outstanding one. The check, the setting
        of `refreshing` and the start of `refreshToken()` up to its first
        await (reading the refresh token, issuing the request) happen in
        one step. */
    method Send(endpoint: string, sent: Option<string>, response: Response) returns (step: Step)
      modifies this`refreshing, this`history, this`started, this`pending, this`refreshRequests
      ensures !NeedsRefresh(endpoint, response, sent) ==>
        step == Done(Outcome(response)) && refreshing == old(refreshing) &&
        history == old(history) && started == old(started)
      ensures NeedsRefresh(endpoint, response, sent) ==>
        step == AwaitRefresh(!old(refreshing)) && refreshing &&
        history == old(history) + [Unauthorized401] &&
        started == old(started) + (if old(refreshing) then 0 else 1)
      ensures step == AwaitRefresh(true) ==>
        pending == RefreshTokenValue() &&
        refreshRequests == old(refreshRequests) + (if Truthy(pending) then 1 else 0)
      ensures step != AwaitRefresh(true) ==> pending == old(pending) && refreshRequests == old(refreshRequests)
      ensures old(Replayed()) ==> Replayed() && started <= Settlements(history) + 1
    {
      if response.status == 401 && Truthy(sent) && !Contains(endpoint, "/auth/") {
        var first := !refreshing;
        if first {
          refreshing := true;
          started := started + 1;
          pending := StartRefresh();
        }
        ReplaySnoc(false, history, Unauthorized401);
        history := history + [Unauthorized401];
        step := AwaitRefresh(first);
      } else {
        step := Done(Outcome(response));
      }
      AtMostOneOutstanding(false, history);
    }

    /** The outstanding refresh settles: the rest of `refreshToken()` runs
        on the refresh token it started with, a failure logs out, and
        `refreshing` is cleared in every case. */
    method SettleRefresh(response: Response) returns (ok: bool)
      requires refreshing
      modifies this`store, this`refreshing, this`history, this`pending, this`lastSettled
      ensures !refreshing && pending == None && lastSettled == Some(ok)
      ensures history == old(history) + [RefreshSettled] && started == old(started)
      ensures old(Replayed()) ==> Replayed()
      ensures ok <==> RefreshSucceeds(old(pending), response)
      ensures !ok ==> store == old(store) - SessionKeys
      ensures ok ==> TokensRefreshed(old(store), store, response.body.value)
    {
      var result := FinishRefresh(pending, response);
      if result.Failure? {
        Logout();
        ok := false;
      } else {
        ok := true;
      }
      ReplaySnoc(false, history, RefreshSettled);
      history := history + [RefreshSettled];
      refreshing := false;
      pending := None;
      lastSettled := Some(ok);
    }

    /** `apiRequest` once the refresh it awaits has settled: a failed
        refresh fails the request as a session expiry; otherwise the
        request is retried once if a token is stored, and the retry's
        response is final whatever its status. */
    method Resume(refreshOk: bool, retry: Response) returns (result: Result<Body, Error>, retried: bool)
      requires !refreshing && lastSettled == Some(refreshOk)
      modifies this`store
      ensures retried <==> refreshOk && Truthy(old(Token()))
      ensures retried ==> result == Outcome(retry) && store == old(store)
      ensures !retried ==> result == Failure(Error(SessionExpiredText))
      ensures !refreshOk ==> store == old(store)
      ensures refreshOk && !retried ==> store == old(store) - SessionKeys
    {
      if !refreshOk {
        return Failure(Error(SessionExpiredText)), false;
      }
      var newToken := Token();
      if Truthy(newToken) {
        result, retried := Outcome(retry), true;
      } else {
        Logout();
        result, retried := Failure(Error(SessionExpiredText)), false;
      }
    }

    /** The requests awaiting one refresh resume in turn once it settles,
        one retry response each: all of them are retried, each ending with
        its own retry's outcome, exactly when the refresh succeeded and a
        token is stored; otherwise all of them fail as a session expiry. */
    method ResumeWaiters(refreshOk: bool, retries: seq<Response>)
      returns (results: seq<Result<Body, Error>>, retried: bool)
      requires !refreshing && lastSettled == Some(refreshOk)
      modifies this`store
      ensures |results| == |retries|
      ensures retried <==> refreshOk && Truthy(old(Token()))
      ensures retried ==> store == old(store) && forall i :: 0 <= i < |retries| ==> results[i] == Outcome(retries[i])
      ensures !retried ==> forall i :: 0 <= i < |retries| ==> results[i] == Failure(Error(SessionExpiredText))
      ensures !refreshOk || retries == [] ==> store == old(store)
      ensures refreshOk && !retried && retries != [] ==> store == old(store) - SessionKeys
    {
      retried := refreshOk && Truthy(Token());
      results := [];
      for i := 0 to |retries|
        invariant |results| == i
        invariant retried ==> store == old(store) && Truthy(Token())
        invariant retried ==> forall k :: 0 <= k < i ==> results[k] == Outcome(retries[k])
        invariant !retried ==> forall k :: 0 <= k < i ==> results[k] == Failure(Error(SessionExpiredText))
        invariant !refreshOk || i == 0 ==> store == old(store)
        invariant refreshOk && !retried && i > 0 ==> store == old(store) - SessionKeys
        invariant refreshOk && !retried ==> !Truthy(Token())
      {
        ghost var before := store;
        var r, again := Resume(refreshOk, retries[i]);
        assert again == retried;
        if refreshOk && !retried {
          assert store == before - SessionKeys;
        }
        results := results + [r];
      }
    }

    /** One whole `apiRequest` while no other request's refresh is
        outstanding: the first response, then possibly one refresh and one
        retry. */
    method ApiRequest(endpoint: string, first: Response, refreshResponse: Response, retry: Response)
      returns (result: Result<Body, Error>, refreshed: bool, retried: bool)
      requires !refreshing
      modifies this`store, this`refreshing, this`refreshRequests, this`history, this`started
      modifies this`pending, this`lastSettled
      ensures !refreshing
      ensures old(Replayed()) ==> Replayed()
      ensures refreshed <==> NeedsRefresh(endpoint, first, old(Token()))
      ensures !refreshed ==> result == Outcome(first) && store == old(store) && refreshRequests == old(refreshRequests)
      ensures refreshRequests <= old(refreshRequests) + 1
      ensures refreshed ==> (retried <==> RefreshSucceeds(Get(old(store), RefreshKey), refreshResponse))
      ensures retried ==> refreshed
      ensures refreshed && retried ==> result == Outcome(retry) && TokensRefreshed(old(store), store, refreshResponse.body.value)
      ensures refreshed && !retried ==> result == Failure(Error(SessionExpiredText)) && store == old(store) - SessionKeys
    {
      var sent := Token();
      var step := Send(endpoint, sent, first);
      match step
      case Done(r) =>
        result, refreshed, retried := r, false, false;
      case AwaitRefresh(started) =>
        assert started;
        var ok := SettleRefresh(refreshResponse);
        if ok {
          assert Truthy(Get(store, JwtKey));
        }
        result, retried := Resume(ok, retry);
        refreshed := true;
    }
  }

  // The de-duplication of refreshes, as a sequence of events on the
  // `refreshing` flag.

  datatype Event =
    | Unauthorized401  // a request that needs a refresh receives its 401
    | RefreshSettled   // the outstanding refresh settles

  /** One event: the flag after it, and whether it started a refresh. */
  function Apply(refreshing: bool, e: Event): (bool, nat) {
    match e
    case Unauthorized401 => (true, if refreshing then 0 else 1)
    case RefreshSettled => (false, 0)
  }

  /** The flag after the events, and how many refreshes they started. */
  function Replay(refreshing: bool, events: seq<Event>): (bool, nat)
    decreases |events|
  {
    if events == [] then (refreshing, 0)
    else
      var (flag, started) := Apply(refreshing, events[0]);
      var (last, more) := Replay(flag, events[1..]);
      (last, started + more)
  }

  /** Replaying one more event continues from where the history left the
      flag. */
  lemma {:induction false} ReplaySnoc(refreshing: bool, events: seq<Event>, e: Event)
    ensures var (flag, n) := Replay(refreshing, events);
      Replay(refreshing, events + [e]) == (Apply(flag, e).0, n + Apply(flag, e).1)
    decreases |events|
  {
    if events != [] {
      assert (events + [e])[1..] == events[1..] + [e];
      ReplaySnoc(Apply(refreshing, events[0]).0, events[1..], e);
    }
  }

  /** Between two settlements at most one refresh starts, and none starts
      while one is outstanding. */
  lemma {:induction false} OneRefreshPerWindow(refreshing: bool, events: seq<Event>)
    requires forall i :: 0 <= i < |events| ==> events[i] == Unauthorized401
    ensures Replay(refreshing, events).1 <= 1
    ensures refreshing ==> Replay(refreshing, events).1 == 0
    ensures events != [] ==> Replay(refreshing, events).0
    decreases |events|
  {
    if events != [] {
      OneRefreshPerWindow(true, events[1..]);
    }
  }

  /** N requests that all receive a 401 while no refresh is outstanding
      start exactly one refresh. */
  lemma ConcurrentUnauthorized(n: nat)
    requires n >= 1
    ensures Replay(false, seq(n, _ => Unauthorized401)) == (true, 1)
  {
    var events := seq(n, _ => Unauthorized401);
    OneRefreshPerWindow(true, events[1..]);
    assert Replay(false, events).1 == 1 + Replay(true, events[1..]).1;
  }

  /** Over any history, refreshes started never exceed settlements by more
      than one: at most one refresh is ever outstanding. */
  lemma {:induction false} AtMostOneOutstanding(refreshing: bool, events: seq<Event>)
    ensures Replay(refreshing, events).1 <= Settlements(events) + (if refreshing then 0 else 1)
    decreases |events|
  {
    if events != [] {
      match events[0]
      case Unauthorized401 =>
        AtMostOneOutstanding(true, events[1..]);
      case RefreshSettled =>
        AtMostOneOutstanding(false, events[1..]);
    }
  }

  function Settlements(events: seq<Event>): nat {
    if events == [] then 0
    else (if events[0] == RefreshSettled then 1 else 0) + Settlements(events[1..])
  }
}
