/** The modem's web API as the exporter drives it: decoded response records,
    the request primitive that carries the anti-forgery token, and the fixed
    request sequences of login, logout and the DOCSIS status fetch. */
module Api {
  import opened Wrappers
  import opened Text
  import opened Credentials
  import opened Csrf

  // ---- Decoded response and channel records ----

  datatype LoginResponseSalts = LoginResponseSalts(error: string, salt: string, saltWebUI: string)

  datatype LoginResponseData = LoginResponseData(
    intf: string, user: string, uid: string, defaultPassword: string,
    remoteAddress: string, userAgent: string, httpReferer: string)

  /** `data` is `None` where the JSON left the pointer nil. */
  datatype LoginResponse = LoginResponse(error: string, message: string, data: Option<LoginResponseData>)

  datatype LogoutResponse = LogoutResponse(error: string, message: string)

  datatype ModemStatusResponse = ModemStatusResponse(error: string, message: string, data: Option<ModemStatusData>)

  datatype ModemStatusData = ModemStatusData(
    ofdmUpstream: seq<OfdmUpstreamData>,
    ofdmDownstream: seq<OfdmDownstreamData>,
    downstream: seq<DocsisDownstreamChannel>,
    upstream: seq<DocsisUpstreamChannel>)

  datatype OfdmDownstreamData = OfdmDownstreamData(
    id: string, channelIdOfdm: string, startFrequency: string, plcFrequency: string,
    centralFrequencyOfdm: string, bandwidth: string, powerOfdm: string, snrOfdm: string,
    fftOfdm: string, lockedOfdm: string, channelType: string)

  datatype OfdmUpstreamData = OfdmUpstreamData(
    id: string, channelIdOfdm: string, startFrequency: string, plcFrequency: string,
    centralFrequencyOfdm: string, bandwidth: string, powerOfdm: string,
    fftOfdm: string, lockedOfdm: string, channelType: string)

  datatype DocsisDownstreamChannel = DocsisDownstreamChannel(
    id: string, channelId: string, centralFrequency: string, power: string, snr: string,
    modulation: string, locked: string, channelType: string)

  datatype DocsisUpstreamChannel = DocsisUpstreamChannel(
    id: string, channelIdUp: string, centralFrequency: string, power: string,
    channelType: string, symbolRate: string, lockStatus: string)

  // ---- Requests and scripted replies ----

  datatype Method = Get | Post

  /** A request as it leaves the exporter; `form` is the url-encoded body as key/value pairs. */
  datatype Request = Request(verb: Method, url: string, form: map<string, string>, headers: map<string, string>)

  /** What `json.Unmarshal` leaves in a record, and whether it reported an error. */
  datatype Decoded<T> = Decoded(value: T, valid: bool)

  /** A reply body, given by what it decodes to in each record type the session reads. */
  datatype Body = Body(
    salts: Decoded<LoginResponseSalts>,
    login: Decoded<LoginResponse>,
    status: Decoded<ModemStatusResponse>,
    logout: Decoded<LogoutResponse>)

  /** `NoResponse`: the request could not be built or sent. `Response`: the first
      `Set-Cookie` header value ("" if absent) and the body, `None` when reading it failed. */
  datatype Reply = NoResponse | Response(setCookie: string, body: Option<Body>)

  datatype Exchange = Exchange(request: Request, reply: Reply)

  /** One session: the current anti-forgery token, the exchanges so far, and the
      replies the device will give to the next requests, in order. */
  datatype Session = Session(token: string, log: seq<Exchange>, script: seq<Reply>)

  datatype Station = Station(url: string, username: string, password: string)

  datatype ApiError = TransportError | DecodeError | NotOkError

  datatype Step<T> = Step(session: Session, result: Result<T, ApiError>)

  const LoginPath: string := "/api/v1/session/login"
  const MenuPath: string := "/api/v1/session/menu"
  const LogoutPath: string := "/api/v1/session/logout"
  const StatusPath: string := "/api/v1/modem/exUSTbl,exDSTbl,USTbl,DSTbl?_="
  const RefererValue: string := "http://192.168.0.1"
  const FormContentType: string := "application/x-www-form-urlencoded; charset=UTF-8"
  const SaltRequestPassword: string := "seeksalthash"
  const OkStatus: string := "ok"

  predicate Delivered(reply: Reply) {
    reply.Response? && reply.body.Some?
  }

  /** Some reply that arrived in `log` carried the `Set-Cookie` value `c`. */
  predicate CookieArrived(log: seq<Exchange>, c: string) {
    exists k :: 0 <= k < |log| && log[k].reply.Response? && log[k].reply.setCookie == c
  }

  /** The `Set-Cookie` values of the replies that arrived, in order. */
  function ReceivedCookies(log: seq<Exchange>): (r: seq<string>)
    ensures |r| <= |log|
  {
    if log == [] then []
    else
      var earlier := ReceivedCookies(log[..|log| - 1]);
      match log[|log| - 1].reply
      case NoResponse => earlier
      case Response(cookie, _) => earlier + [cookie]
  }

  /** The harvested cookies are exactly those of the replies that arrived: each comes from
      one, each one contributes, and the last exchange's comes last when its reply arrived. */
  lemma {:induction false} ReceivedCookiesArrived(log: seq<Exchange>)
    ensures forall i :: 0 <= i < |ReceivedCookies(log)| ==> CookieArrived(log, ReceivedCookies(log)[i])
    ensures forall k :: 0 <= k < |log| && log[k].reply.Response? ==> log[k].reply.setCookie in ReceivedCookies(log)
    ensures log != [] && log[|log| - 1].reply.Response? ==>
              var r := ReceivedCookies(log);
              r != [] && r[|r| - 1] == log[|log| - 1].reply.setCookie
    decreases |log|
  {
    if log != [] {
      var prefix := log[..|log| - 1];
      var earlier := ReceivedCookies(prefix);
      ReceivedCookiesArrived(prefix);
      CookiesArriveInExtension(log, |log| - 1, earlier);
    }
  }

  lemma CookiesArriveInExtension(log: seq<Exchange>, n: nat, cs: seq<string>)
    requires n <= |log| && forall i :: 0 <= i < |cs| ==> CookieArrived(log[..n], cs[i])
    ensures forall i :: 0 <= i < |cs| ==> CookieArrived(log, cs[i])
    ensures forall k :: 0 <= k < n ==> log[..n][k] == log[k]
  {
    forall i | 0 <= i < |cs| ensures CookieArrived(log, cs[i]) {
      var k :| 0 <= k < n && log[..n][k].reply.Response? && log[..n][k].reply.setCookie == cs[i];
      assert log[..n][k] == log[k];
    }
  }

  /** The headers every request carries: the fixed referer, the XMLHttpRequest marker,
      the current token, and the form content type on POSTs only. */
  predicate CarriesSessionHeaders(request: Request, token: string) {
    && "Referer" in request.headers && request.headers["Referer"] == RefererValue
    && "X-Requested-With" in request.headers && request.headers["X-Requested-With"] == "XMLHttpRequest"
    && "X-Csrf-Token" in request.headers && request.headers["X-Csrf-Token"] == token
    && ("Content-Type" in request.headers <==> request.verb == Post)
    && (request.verb == Post ==> request.headers["Content-Type"] == FormContentType)
  }

  /** The token bookkeeping of a session that started with `initial`: the current token
      is the harvest of every reply so far, and each request carried the harvest of the
      replies before it. */
  ghost predicate WellThreaded(initial: string, s: Session) {
    && s.token == Harvest(initial, ReceivedCookies(s.log))
    && forall k :: 0 <= k < |s.log| ==>
         CarriesSessionHeaders(s.log[k].request, Harvest(initial, ReceivedCookies(s.log[..k])))
  }

  predicate IsCall(e: Exchange, verb: Method, url: string, form: map<string, string>) {
    e.request.verb == verb && e.request.url == url && e.request.form == form
  }

  function RequestHeaders(verb: Method, token: string): map<string, string> {
    var common := map["Referer" := RefererValue, "X-Requested-With" := "XMLHttpRequest", "X-Csrf-Token" := token];
    if verb == Post then common["Content-Type" := FormContentType] else common
  }

  /** Every request built by `DoRequest` carries the fixed headers and the token it was given. */
  lemma RequestHeadersCarryToken(verb: Method, url: string, form: map<string, string>, token: string)
    ensures CarriesSessionHeaders(Request(verb, url, form, RequestHeaders(verb, token)), token)
  {
  }

  /** The request primitive: send one request with the session headers, take the next
      scripted reply, and harvest the token from its `Set-Cookie` header when a reply
      arrived (even if its body then fails to read). */
  function DoRequest(s: Session, verb: Method, url: string, form: map<string, string>): (r: Step<Body>)
    ensures |r.session.log| == |s.log| + 1 && r.session.log[..|s.log|] == s.log
    ensures var e := r.session.log[|s.log|];
            && IsCall(e, verb, url, form)
            && CarriesSessionHeaders(e.request, s.token)
            && e.reply == (if s.script == [] then NoResponse else s.script[0])
            && (r.result.Success? <==> Delivered(e.reply))
            && (r.result.Success? ==> r.result.value == e.reply.body.value)
            && (r.result.Failure? ==> r.result.error == TransportError)
            && r.session.token == (if e.reply.Response? then UpdateToken(s.token, e.reply.setCookie) else s.token)
    ensures r.session.script == if s.script == [] then [] else s.script[1..]
    ensures forall initial {:trigger WellThreaded(initial, r.session)} ::
              WellThreaded(initial, s) ==> WellThreaded(initial, r.session)
  {
    var reply := if s.script == [] then NoResponse else s.script[0];
    var request := Request(verb, url, form, RequestHeaders(verb, s.token));
    RequestHeadersCarryToken(verb, url, form, s.token);
    var log := s.log + [Exchange(request, reply)];
    var token := if reply.Response? then UpdateToken(s.token, reply.setCookie) else s.token;
    var next := Session(token, log, if s.script == [] then [] else s.script[1..]);
    assert log[..|s.log|] == s.log;
    assert forall initial {:trigger WellThreaded(initial, next)} ::
             WellThreaded(initial, s) ==> WellThreaded(initial, next) by {
      forall initial | WellThreaded(initial, s) ensures WellThreaded(initial, next) {
        ThreadingExtends(initial, s, next);
      }
    }
    match reply
    case Response(_, Some(body)) => Step(next, Success(body))
    case _ => Step(next, Failure(TransportError))
  }

  /** One more exchange, made with the current token and harvested into the next one,
      keeps the session well threaded. */
  lemma ThreadingExtends(initial: string, s: Session, next: Session)
    requires WellThreaded(initial, s)
    requires |next.log| == |s.log| + 1 && next.log[..|s.log|] == s.log
    requires CarriesSessionHeaders(next.log[|s.log|].request, s.token)
    requires next.token == (if next.log[|s.log|].reply.Response?
                            then UpdateToken(s.token, next.log[|s.log|].reply.setCookie) else s.token)
    ensures WellThreaded(initial, next)
  {
    var e := next.log[|s.log|];
    assert next.log[..|next.log| - 1] == s.log;
    if e.reply.Response? {
      HarvestSnoc(initial, ReceivedCookies(s.log), e.reply.setCookie);
    }
    forall k | 0 <= k < |next.log|
      ensures CarriesSessionHeaders(next.log[k].request, Harvest(initial, ReceivedCookies(next.log[..k])))
    {
      ThreadedRequestAt(initial, s, next, k);
    }
  }

  /** Each request of the extended log carried the harvest of the replies before it. */
  lemma ThreadedRequestAt(initial: string, s: Session, next: Session, k: nat)
    requires WellThreaded(initial, s)
    requires |next.log| == |s.log| + 1 && next.log[..|s.log|] == s.log
    requires CarriesSessionHeaders(next.log[|s.log|].request, s.token)
    requires k < |next.log|
    ensures CarriesSessionHeaders(next.log[k].request, Harvest(initial, ReceivedCookies(next.log[..k])))
  {
    if k < |s.log| {
      assert next.log[..k] == s.log[..k];
      assert next.log[k] == s.log[k];
    } else {
      assert next.log[..k] == s.log;
    }
  }

  function SaltRequestForm(username: string): map<string, string> {
    map["username" := username, "password" := SaltRequestPassword, "logout" := "true"]
  }

  function CredentialForm(username: string, password: string): map<string, string> {
    map["username" := username, "password" := password]
  }

  /** The salts reply was read, decoded, and reports `ok`. */
  predicate SaltsAccepted(reply: Reply) {
    Delivered(reply) && reply.body.value.salts.valid && reply.body.value.salts.value.error == OkStatus
  }

  /** The credential reply was read and its `error` field says `ok`, whether or not it decoded cleanly. */
  predicate LoginAccepted(reply: Reply) {
    Delivered(reply) && reply.body.value.login.value.error == OkStatus
  }

  /** The logout reply was read, decoded, and reports `ok`. */
  predicate LogoutAccepted(reply: Reply) {
    Delivered(reply) && reply.body.value.logout.valid && reply.body.value.logout.value.error == OkStatus
  }

  /** The salt handshake: one POST of the reserved credential pair to the login endpoint. */
  function GetLoginSalts(st: Station, s: Session): (r: Step<LoginResponseSalts>)
    ensures |r.session.log| == |s.log| + 1 && r.session.log[..|s.log|] == s.log
    ensures var e := r.session.log[|s.log|];
            && IsCall(e, Post, st.url + LoginPath, SaltRequestForm(st.username))
            && (r.result.Success? <==> SaltsAccepted(e.reply))
            && (r.result.Success? ==> r.result.value == e.reply.body.value.salts.value)
            && (r.result.Failure? ==>
                 r.result.error == (if !Delivered(e.reply) then TransportError
                                    else if !e.reply.body.value.salts.valid then DecodeError
                                    else NotOkError))
    ensures forall initial {:trigger WellThreaded(initial, r.session)} ::
              WellThreaded(initial, s) ==> WellThreaded(initial, r.session)
  {
    var step := DoRequest(s, Post, st.url + LoginPath, SaltRequestForm(st.username));
    match step.result
    case Failure(e) => Step(step.session, Failure(e))
    case Success(body) =>
      if !body.salts.valid then Step(step.session, Failure(DecodeError))
      else if body.salts.value.error != OkStatus then Step(step.session, Failure(NotOkError))
      else Step(step.session, Success(body.salts.value))
  }

  /** The login password derived from the salts a reply carried. */
  function DerivedPassword(pbkdf2: Pbkdf2, password: string, saltsReply: Reply): string
    requires ProducesKeyLength(pbkdf2)
    requires Delivered(saltsReply)
  {
    var salts := saltsReply.body.value.salts.value;
    GetLoginPassword(pbkdf2, password, salts.salt, salts.saltWebUI)
  }

  /** Login: bootstrap GET, salt handshake, credential POST, then the warm-up menu GET,
      stopping at the first failure. */
  function Login(pbkdf2: Pbkdf2, st: Station, s: Session): (r: Step<LoginResponse>)
    requires ProducesKeyLength(pbkdf2)
    ensures |s.log| < |r.session.log| <= |s.log| + 4 && r.session.log[..|s.log|] == s.log
    ensures forall initial {:trigger WellThreaded(initial, r.session)} ::
              WellThreaded(initial, s) ==> WellThreaded(initial, r.session)
  {
    var boot := DoRequest(s, Get, st.url, map[]);
    if boot.result.Failure? then Step(boot.session, Failure(boot.result.error))
    else
      var salts := GetLoginSalts(st, boot.session);
      PrefixTrans(salts.session.log, boot.session.log, s.log);
      if salts.result.Failure? then Step(salts.session, Failure(salts.result.error))
      else
        var auth := Authenticate(st, salts.session,
                                 GetLoginPassword(pbkdf2, st.password, salts.result.value.salt, salts.result.value.saltWebUI));
        PrefixTrans(auth.session.log, salts.session.log, s.log);
        auth
  }

  /** An entry of a prefix is an entry of the longer log. */
  lemma EntryKept(a: seq<Exchange>, b: seq<Exchange>, k: nat)
    requires |b| <= |a| && a[..|b|] == b && k < |b|
    ensures a[k] == b[k]
  {
    assert a[..|b|][k] == a[k];
  }

  /** A prefix of a prefix is a prefix. */
  lemma PrefixTrans(a: seq<Exchange>, b: seq<Exchange>, c: seq<Exchange>)
    requires |c| <= |b| <= |a| && a[..|b|] == b && b[..|c|] == c
    ensures a[..|c|] == c
  {
    assert forall i :: 0 <= i < |c| ==> a[i] == b[i];
  }

  /** The requests a login makes: the bootstrap GET, then the salt POST once the bootstrap
      reply arrived, then the credential POST with the password derived from the salts once
      they were accepted, then the menu GET once the credentials were accepted. */
  lemma LoginCalls(pbkdf2: Pbkdf2, st: Station, s: Session)
    requires ProducesKeyLength(pbkdf2)
    ensures var n := Login(pbkdf2, st, s).session.log[|s.log|..];
            && IsCall(n[0], Get, st.url, map[])
            && (|n| >= 2 ==> Delivered(n[0].reply)
                             && IsCall(n[1], Post, st.url + LoginPath, SaltRequestForm(st.username)))
            && (|n| >= 3 ==> SaltsAccepted(n[1].reply)
                             && IsCall(n[2], Post, st.url + LoginPath,
                                       CredentialForm(st.username, DerivedPassword(pbkdf2, st.password, n[1].reply))))
            && (|n| == 4 ==> LoginAccepted(n[2].reply) && IsCall(n[3], Get, st.url + MenuPath, map[]))
  {
    var boot := DoRequest(s, Get, st.url, map[]);
    if boot.result.Success? {
      var salts := GetLoginSalts(st, boot.session);
      PrefixTrans(salts.session.log, boot.session.log, s.log);
      EntryKept(salts.session.log, boot.session.log, |s.log|);
      if salts.result.Success? {
        var password := GetLoginPassword(pbkdf2, st.password, salts.result.value.salt, salts.result.value.saltWebUI);
        var auth := Authenticate(st, salts.session, password);
        assert Login(pbkdf2, st, s) == auth;
        EntryKept(auth.session.log, salts.session.log, |s.log|);
        EntryKept(auth.session.log, salts.session.log, |s.log| + 1);
        assert DerivedPassword(pbkdf2, st.password, salts.session.log[|s.log| + 1].reply) == password;
      }
    }
  }

  /** A login succeeds exactly when all four requests were made and the menu reply
      arrived; it reports the credential reply. Shorter runs stopped at a failed step. */
  lemma LoginOutcome(pbkdf2: Pbkdf2, st: Station, s: Session)
    requires ProducesKeyLength(pbkdf2)
    ensures var r := Login(pbkdf2, st, s);
            var n := r.session.log[|s.log|..];
            && (r.result.Success? <==> |n| == 4 && Delivered(n[3].reply))
            && (r.result.Success? ==> r.result.value == n[2].reply.body.value.login.value)
            && (|n| == 1 ==> !Delivered(n[0].reply))
            && (|n| == 2 ==> !SaltsAccepted(n[1].reply))
            && (|n| == 3 ==> !LoginAccepted(n[2].reply))
  {
    var boot := DoRequest(s, Get, st.url, map[]);
    if boot.result.Success? {
      var salts := GetLoginSalts(st, boot.session);
      assert salts.session.log[..|s.log|] == s.log;
      if salts.result.Success? {
        var password := GetLoginPassword(pbkdf2, st.password, salts.result.value.salt, salts.result.value.saltWebUI);
        var auth := Authenticate(st, salts.session, password);
      }
    }
  }

  /** The second half of the login: the credential POST, then the warm-up menu GET once
      the credential reply says `ok`. */
  function Authenticate(st: Station, s: Session, password: string): (r: Step<LoginResponse>)
    ensures |s.log| < |r.session.log| <= |s.log| + 2 && r.session.log[..|s.log|] == s.log
    ensures var n := r.session.log[|s.log|..];
            && IsCall(n[0], Post, st.url + LoginPath, CredentialForm(st.username, password))
            && (|n| == 2 <==> LoginAccepted(n[0].reply))
            && (|n| == 2 ==> IsCall(n[1], Get, st.url + MenuPath, map[]))
            && (r.result.Success? <==> |n| == 2 && Delivered(n[1].reply))
            && (r.result.Success? ==> r.result.value == n[0].reply.body.value.login.value)
    ensures forall initial {:trigger WellThreaded(initial, r.session)} ::
              WellThreaded(initial, s) ==> WellThreaded(initial, r.session)
  {
    var login := DoRequest(s, Post, st.url + LoginPath, CredentialForm(st.username, password));
    if login.result.Failure? then Step(login.session, Failure(login.result.error))
    else
      var response := login.result.value.login.value;
      if response.error != OkStatus then Step(login.session, Failure(NotOkError))
      else
        var menu := DoRequest(login.session, Get, st.url + MenuPath, map[]);
        if menu.result.Failure? then Step(menu.session, Failure(menu.result.error))
        else Step(menu.session, Success(response))
  }

  /** Logout: one POST with an empty body; fails on transport, decoding, or a non-`ok` reply. */
  function Logout(st: Station, s: Session): (r: Step<LogoutResponse>)
    ensures |r.session.log| == |s.log| + 1 && r.session.log[..|s.log|] == s.log
    ensures var e := r.session.log[|s.log|];
            && IsCall(e, Post, st.url + LogoutPath, map[])
            && (r.result.Success? <==> LogoutAccepted(e.reply))
            && (r.result.Success? ==> r.result.value == e.reply.body.value.logout.value)
    ensures forall initial {:trigger WellThreaded(initial, r.session)} ::
              WellThreaded(initial, s) ==> WellThreaded(initial, r.session)
  {
    var step := DoRequest(s, Post, st.url + LogoutPath, map[]);
    match step.result
    case Failure(e) => Step(step.session, Failure(e))
    case Success(body) =>
      if !body.logout.valid then Step(step.session, Failure(DecodeError))
      else if body.logout.value.error != OkStatus then Step(step.session, Failure(NotOkError))
      else Step(step.session, Success(body.logout.value))
  }

  /** The DOCSIS status fetch: one GET of the four channel tables with a millisecond
      cache-busting timestamp. Only a missing reply fails; the decoded record is
      returned together with the decoding verdict, and its `error` field is never checked. */
  function GetModemStatus(st: Station, s: Session, nowMillis: int): (r: Step<Decoded<ModemStatusResponse>>)
    ensures |r.session.log| == |s.log| + 1 && r.session.log[..|s.log|] == s.log
    ensures var e := r.session.log[|s.log|];
            && IsCall(e, Get, st.url + StatusPath + FormatInt(nowMillis), map[])
            && (r.result.Success? <==> Delivered(e.reply))
            && (r.result.Success? ==> r.result.value == e.reply.body.value.status)
    ensures forall initial {:trigger WellThreaded(initial, r.session)} ::
              WellThreaded(initial, s) ==> WellThreaded(initial, r.session)
  {
    var step := DoRequest(s, Get, st.url + StatusPath + FormatInt(nowMillis), map[]);
    match step.result
    case Failure(e) => Step(step.session, Failure(e))
    case Success(body) => Step(step.session, Success(body.status))
  }
}
