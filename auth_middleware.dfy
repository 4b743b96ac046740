/** The request middleware of the server: `protect` (where the token comes from and when it
    is turned away), `authorize`, `verifyEmail`, the per-address `rateLimit`, `sanitizeData`,
    `errorHandler` and the success filter of `logActivity`. Signature checking of tokens and
    the user lookup are inputs: the tokens that verify, with their claims, and the users. */
module AuthMiddleware {
  import opened JsRuntime
  import opened Http

  type UserId = string
  type Time = int

  // ---------------------------------------------------------------------------
  // protect: the token
  // ---------------------------------------------------------------------------

  /** `authorization.split(' ')[1]`: the second space-separated word, absent when there is none. */
  function SecondWord(authorization: string): (r: Option<string>)
    ensures r.Some? ==> ' ' !in r.value
  {
    var parts := Split(authorization, ' ');
    if |parts| > 1 then Some(parts[1]) else None
  }

  /** The token `protect` reads: from an `Authorization` header that starts with `Bearer`
      (only then), otherwise from a non-empty `token` cookie. */
  function ExtractToken(authorization: Option<string>, cookie: Option<string>): (r: Option<string>)
    ensures authorization.Some? && StartsWith(authorization.value, "Bearer") ==> r == SecondWord(authorization.value)
    ensures !(authorization.Some? && StartsWith(authorization.value, "Bearer")) ==>
              r == (if cookie.Some? && cookie.value != "" then cookie else None)
  {
    if authorization.Some? && authorization.value != "" && StartsWith(authorization.value, "Bearer") then
      SecondWord(authorization.value)
    else if cookie.Some? && cookie.value != "" then cookie
    else None
  }

  /** `if (!token)`: no token, or an empty one. */
  predicate HasToken(token: Option<string>)
  {
    token.Some? && token.value != ""
  }

  /** The credentials of section 2.1 of RFC 6750, `Bearer` and one space before a token
      without spaces, give that token whatever the cookie holds. */
  lemma BearerCredentials(t: string, cookie: Option<string>)
    requires t != "" && ' ' !in t
    ensures ExtractToken(Some("Bearer " + t), cookie) == Some(t)
  {
    assert "Bearer " + t == "Bearer" + [' '] + t;
    SplitAtSeparator("Bearer", t, ' ');
    assert StartsWith("Bearer " + t, "Bearer");
  }

  /** Unlike the RFC, no space is needed after `Bearer`; without one there is no second word,
      and the cookie is not consulted either, so the request has no token. */
  lemma BearerWithoutSpace(rest: string, cookie: Option<string>)
    requires ' ' !in rest
    ensures !HasToken(ExtractToken(Some("Bearer" + rest), cookie))
  {
    assert ' ' !in "Bearer" + rest;
    SplitWithoutSeparator("Bearer" + rest, ' ');
    assert StartsWith("Bearer" + rest, "Bearer");
  }

  /** The scheme is matched case-sensitively: a `bearer` header falls back to the cookie. */
  lemma LowercaseSchemeUsesCookie(header: string, cookie: string)
    requires StartsWith(header, "bearer") && cookie != ""
    ensures ExtractToken(Some(header), Some(cookie)) == Some(cookie)
  {
    assert header[0] == 'b';
  }

  // ---------------------------------------------------------------------------
  // protect: the decision
  // ---------------------------------------------------------------------------

  /** The claims of a verified token: the user id and the issue time in seconds. */
  datatype Claims = Claims(id: UserId, iat: int)

  /** What the middleware reads of a user; `passwordChangedAt` is in milliseconds. */
  datatype AuthUser = AuthUser(id: UserId, role: string, isEmailVerified: bool, passwordChangedAt: Option<Time>)

  datatype Authentication = Denied(response: Response) | Authenticated(user: AuthUser)

  /** `decoded.iat < user.passwordChangedAt.getTime() / 1000`. */
  predicate ChangedPasswordAfter(iat: int, changedAtMs: Time)
  {
    (iat as real) < (changedAtMs as real) / 1000.0
  }

  /** A token is stale exactly when it was issued, in milliseconds, before the change. */
  lemma ChangedPasswordAfterInMilliseconds(iat: int, changedAtMs: Time)
    ensures ChangedPasswordAfter(iat, changedAtMs) <==> iat * 1000 < changedAtMs
  {
    assert (iat * 1000) as real == (iat as real) * 1000.0;
  }

  /** `protect`. `verified` maps every token whose signature and expiry check out to its
      claims; `users` is the user collection. */
  function Protect(authorization: Option<string>, cookie: Option<string>, verified: map<string, Claims>,
                   users: map<UserId, AuthUser>): (r: Authentication)
    ensures var token := ExtractToken(authorization, cookie);
            r.Authenticated? <==>
              (&& HasToken(token) && token.value in verified && verified[token.value].id in users
               && !(users[verified[token.value].id].passwordChangedAt.Some?
                    && ChangedPasswordAfter(verified[token.value].iat, users[verified[token.value].id].passwordChangedAt.value)))
    ensures r.Authenticated? ==> r.user == users[verified[ExtractToken(authorization, cookie).value].id]
    ensures !HasToken(ExtractToken(authorization, cookie)) ==> r == Denied(Fail(401, "Not authorized to access this route"))
    ensures r.Denied? ==> r.response.status == 401
  {
    var token := ExtractToken(authorization, cookie);
    if !HasToken(token) then Denied(Fail(401, "Not authorized to access this route"))
    else if token.value !in verified then Denied(Fail(401, "Not authorized to access this route"))
    else
      var claims := verified[token.value];
      if claims.id !in users then Denied(Fail(401, "User no longer exists"))
      else
        var user := users[claims.id];
        if user.passwordChangedAt.Some? && ChangedPasswordAfter(claims.iat, user.passwordChangedAt.value) then
          Denied(Fail(401, "User recently changed password. Please log in again"))
        else Authenticated(user)
  }

  /** A password change locks out every token issued before it, wherever the token is sent. */
  lemma PasswordChangeRevokesOlderTokens(authorization: Option<string>, cookie: Option<string>,
                                         verified: map<string, Claims>, users: map<UserId, AuthUser>)
    requires HasToken(ExtractToken(authorization, cookie)) && ExtractToken(authorization, cookie).value in verified
    requires var c := verified[ExtractToken(authorization, cookie).value];
             c.id in users && users[c.id].passwordChangedAt.Some? && c.iat * 1000 < users[c.id].passwordChangedAt.value
    ensures Protect(authorization, cookie, verified, users)
            == Denied(Fail(401, "User recently changed password. Please log in again"))
  {
    var c := verified[ExtractToken(authorization, cookie).value];
    ChangedPasswordAfterInMilliseconds(c.iat, users[c.id].passwordChangedAt.value);
  }

  // ---------------------------------------------------------------------------
  // authorize and verifyEmail
  // ---------------------------------------------------------------------------

  /** `authorize(...roles)` on the authenticated user. */
  function Authorize(roles: seq<string>, user: AuthUser): (d: Decision)
    ensures d == Next <==> user.role in roles
    ensures d != Next ==> d == Reply(Fail(403, "User role " + user.role + " is not authorized to access this route"))
  {
    if user.role !in roles then Reply(Fail(403, "User role " + user.role + " is not authorized to access this route"))
    else Next
  }

  /** `verifyEmail`. */
  function VerifyEmail(user: AuthUser): (d: Decision)
    ensures d == Next <==> user.isEmailVerified
    ensures d != Next ==> d == Reply(Fail(403, "Please verify your email address first"))
  {
    if !user.isEmailVerified then Reply(Fail(403, "Please verify your email address first")) else Next
  }

  /** `protect` followed by `authorize('admin')` lets a request through exactly when its token
      authenticates a user whose role is admin. */
  lemma AdminChain(authorization: Option<string>, cookie: Option<string>, verified: map<string, Claims>,
                   users: map<UserId, AuthUser>)
    ensures var a := Protect(authorization, cookie, verified, users);
            (a.Authenticated? && Authorize(["admin"], a.user) == Next)
            <==> (a.Authenticated? && a.user.role == "admin")
  {
  }

  // ---------------------------------------------------------------------------
  // rateLimit
  // ---------------------------------------------------------------------------

  /** Request times per client address. */
  type Requests = map<string, seq<Time>>

  /** `userRequests.filter(timestamp => now - timestamp < timeWindow)`. */
  function Recent(ts: seq<Time>, now: Time, window: int): (r: seq<Time>)
    ensures |r| <= |ts|
    ensures forall k :: 0 <= k < |r| ==> now - r[k] < window
  {
    if |ts| == 0 then []
    else Recent(ts[..|ts| - 1], now, window) + (if now - ts[|ts| - 1] < window then [ts[|ts| - 1]] else [])
  }

  /** The filter keeps exactly the times inside the window. */
  lemma {:induction false} RecentMembers(ts: seq<Time>, now: Time, window: int, t: Time)
    ensures t in Recent(ts, now, window) <==> t in ts && now - t < window
  {
    if |ts| > 0 {
      RecentMembers(ts[..|ts| - 1], now, window, t);
      assert ts == ts[..|ts| - 1] + [ts[|ts| - 1]];
    }
  }

  /** Filtering works piece by piece, so the kept times stay in their order. */
  lemma {:induction false} RecentAppend(a: seq<Time>, b: seq<Time>, now: Time, window: int)
    ensures Recent(a + b, now, window) == Recent(a, now, window) + Recent(b, now, window)
    decreases |b|
  {
    if |b| == 0 {
      assert a + b == a;
    } else {
      var b0 := b[..|b| - 1];
      assert (a + b)[..|a + b| - 1] == a + b0;
      assert (a + b)[|a + b| - 1] == b[|b| - 1];
      RecentAppend(a, b0, now, window);
    }
  }

  /** A time that is recent later was recent earlier, so the kept list only shrinks as time goes on. */
  lemma {:induction false} RecentLater(ts: seq<Time>, now: Time, later: Time, window: int)
    requires now <= later
    ensures Recent(Recent(ts, now, window), later, window) == Recent(ts, later, window)
    ensures |Recent(ts, later, window)| <= |Recent(ts, now, window)|
  {
    if |ts| > 0 {
      var init := ts[..|ts| - 1];
      var last := ts[|ts| - 1];
      RecentLater(init, now, later, window);
      RecentAppend(Recent(init, now, window), if now - last < window then [last] else [], later, window);
    }
  }

  const TooManyRequests := Fail(429, "Too many requests, please try again later")

  /** The decision of `rateLimit` and the table it leaves. */
  datatype Admission = Admission(decision: Decision, requests: Requests)

  /** `rateLimit(limit, timeWindow)` on one request from `ip` at `now`. */
  function Admit(requests: Requests, ip: string, now: Time, limit: int, window: int): (r: Admission)
    ensures ip !in requests ==> r == Admission(Next, requests[ip := [now]])
    ensures ip in requests ==> (r.decision != Next <==> |Recent(requests[ip], now, window)| >= limit)
    ensures r.decision != Next ==> r.decision == Reply(TooManyRequests) && r.requests == requests
    ensures r.decision == Next && ip in requests ==> r.requests == requests[ip := Recent(requests[ip], now, window) + [now]]
    ensures forall other :: other != ip ==>
              (other in r.requests <==> other in requests) && (other in requests ==> r.requests[other] == requests[other])
  {
    if ip in requests then
      var valid := Recent(requests[ip], now, window);
      if |valid| >= limit then Admission(Reply(TooManyRequests), requests)
      else Admission(Next, requests[ip := valid + [now]])
    else Admission(Next, requests[ip := [now]])
  }

  /** No address has more than `limit` requests inside the window ending at `now`. */
  predicate WithinLimit(requests: Requests, now: Time, limit: int, window: int)
  {
    forall ip :: ip in requests ==> |Recent(requests[ip], now, window)| <= limit
  }

  /** With a limit of at least 1, every request, accepted or not, keeps the table within the
      limit as the clock moves forward. */
  lemma AdmitKeepsWithinLimit(requests: Requests, ip: string, now: Time, later: Time, limit: int, window: int)
    requires limit >= 1 && now <= later && WithinLimit(requests, now, limit, window)
    ensures WithinLimit(Admit(requests, ip, later, limit, window).requests, later, limit, window)
  {
    var r := Admit(requests, ip, later, limit, window).requests;
    forall other | other in r ensures |Recent(r[other], later, window)| <= limit {
      if other == ip {
        if ip in requests && Admit(requests, ip, later, limit, window).decision == Next {
          var valid := Recent(requests[ip], later, window);
          RecentAppend(valid, [later], later, window);
          RecentLater(requests[ip], later, later, window);
        } else if ip in requests {
          RecentLater(requests[ip], now, later, window);
        } else {
          assert r[ip] == [later];
          assert Recent([later], later, window) == Recent([], later, window) + (if 0 < window then [later] else []);
        }
      } else {
        RecentLater(requests[other], now, later, window);
      }
    }
  }

  /** The first request from an address is accepted whatever the limit, even 0. */
  lemma FirstRequestAlwaysAccepted(requests: Requests, ip: string, now: Time, limit: int, window: int)
    requires ip !in requests
    ensures Admit(requests, ip, now, limit, window).decision == Next
  {
  }

  /** The limiter of one `rateLimit(limit, timeWindow)` call, with its table. */
  class RateLimiter {
    const limit: int
    const window: int
    var requests: Requests

    constructor (limit: int, window: int)
      ensures this.limit == limit && this.window == window && requests == map[]
    {
      this.limit := limit;
      this.window := window;
      requests := map[];
    }

    /** The middleware on one request. */
    method Handle(ip: string, now: Time) returns (d: Decision)
      modifies this`requests
      ensures Admission(d, requests) == Admit(old(requests), ip, now, limit, window)
    {
      if ip in requests {
        var userRequests := requests[ip];
        var validRequests := Recent(userRequests, now, window);
        if |validRequests| >= limit {
          return Reply(TooManyRequests);
        }
        validRequests := validRequests + [now];
        requests := requests[ip := validRequests];
      } else {
        requests := requests[ip := [now]];
      }
      d := Next;
    }
  }

  // ---------------------------------------------------------------------------
  // sanitizeData
  // ---------------------------------------------------------------------------

  /** No `<` is followed, anywhere later, by a `>`: nothing `<[^>]*>` could match. */
  predicate NoTag(s: string)
  {
    forall i, j :: 0 <= i < j < |s| && s[i] == '<' ==> s[j] != '>'
  }

  /** The first position of `c`. */
  function FirstIndex(s: string, c: char): (i: nat)
    requires c in s
    ensures i < |s| && s[i] == c && c !in s[..i]
  {
    if s[0] == c then 0 else FirstIndex(s[1..], c) + 1
  }

  lemma NoTagCons(c: char, rest: string)
    requires NoTag(rest) && (c == '<' ==> '>' !in rest)
    ensures NoTag([c] + rest)
  {
    var s := [c] + rest;
    forall i, j | 0 <= i < j < |s| && s[i] == '<' ensures s[j] != '>' {
      if i == 0 {
        assert s[j] == rest[j - 1];
      } else {
        assert s[i] == rest[i - 1] && s[j] == rest[j - 1];
      }
    }
  }

  /** `s.replace(/<[^>]*>/g, '')`: from each `<` that has a `>` after it, everything up to
      the first such `>` is removed; the scan goes on after it. */
  function StripTags(s: string): (r: string)
    ensures |r| <= |s|
    ensures forall c :: c in r ==> c in s
    ensures NoTag(r)
    decreases |s|
  {
    if |s| == 0 then ""
    else if s[0] == '<' && '>' in s[1..] then
      var close := FirstIndex(s[1..], '>') + 1;
      var rest := StripTags(s[close + 1..]);
      assert forall c :: c in rest ==> c in s by {
        forall c | c in rest ensures c in s { assert c in s[close + 1..]; }
      }
      rest
    else
      var rest := StripTags(s[1..]);
      assert forall c :: c in rest ==> c in s by {
        forall c | c in rest ensures c in s { assert c in s[1..]; }
      }
      NoTagCons(s[0], rest);
      [s[0]] + rest
  }

  /** A string with nothing to strip is left as it is. */
  lemma {:induction false} StripTagsOfNoTag(s: string)
    requires NoTag(s)
    ensures StripTags(s) == s
  {
    if |s| > 0 {
      if s[0] == '<' {
        assert '>' !in s[1..] by {
          forall j | 0 <= j < |s| - 1 ensures s[1..][j] != '>' { assert s[1..][j] == s[j + 1]; }
        }
      }
      assert NoTag(s[1..]) by {
        forall i, j | 0 <= i < j < |s| - 1 && s[1..][i] == '<' ensures s[1..][j] != '>' {
          assert s[1..][i] == s[i + 1] && s[1..][j] == s[j + 1];
        }
      }
      StripTagsOfNoTag(s[1..]);
      assert [s[0]] + s[1..] == s;
    }
  }

  lemma NoTagSlice(s: string, a: nat, b: nat)
    requires NoTag(s) && a <= b <= |s|
    ensures NoTag(s[a..b])
  {
    var t := s[a..b];
    forall i, j | 0 <= i < j < |t| && t[i] == '<' ensures t[j] != '>' {
      assert t[i] == s[a + i] && t[j] == s[a + j];
    }
  }

  /** What `sanitizeData` does to one string: tags removed, then white space trimmed. */
  function Sanitize(s: string): (r: string)
    ensures NoTag(r) && IsTrimmed(r)
  {
    var stripped := StripTags(s);
    TrimSlice(stripped);
    NoTagSlice(stripped, TrimOffset(stripped), TrimOffset(stripped) + |Trim(stripped)|);
    Trim(stripped)
  }

  /** Sanitizing twice is sanitizing once. */
  lemma SanitizeIdempotent(s: string)
    ensures Sanitize(Sanitize(s)) == Sanitize(s)
  {
    var t := Sanitize(s);
    StripTagsOfNoTag(t);
    TrimOfTrimmed(t);
  }

  /** The order matters: `"a <b>"` is already trimmed, yet removing its tag leaves a
      trailing space, so trimming first would not be idempotent. */
  lemma TrimFirstIsNotIdempotent()
    ensures IsTrimmed("a <b>")
    ensures StripTags("a <b>") == "a " && !IsTrimmed("a ")
  {
    TagAfterSpaceRemoved();
    assert StripTags("a <b>") == "a" + StripTags(" <b>") by {
      assert "a <b>"[1..] == " <b>";
    }
  }

  lemma TagAfterSpaceRemoved()
    ensures StripTags(" <b>") == " "
  {
    assert StripTags("<b>") == "" by {
      assert FirstIndex("b>", '>') == 1;
      assert "<b>"[3..] == "";
    }
    assert StripTags(" <b>") == " " + StripTags("<b>") by {
      assert " <b>"[1..] == "<b>";
    }
  }

  /** A request field: a string, or any other JSON value, which is left alone. */
  datatype FieldValue = Text(text: string) | NonText(json: string)

  type Fields = map<string, FieldValue>

  function SanitizeValue(v: FieldValue): FieldValue
  {
    match v
    case Text(s) => Text(Sanitize(s))
    case NonText(_) => v
  }

  /** Every string field sanitized, every other field and every key kept. */
  function SanitizedFields(fields: Fields): (r: Fields)
    ensures r.Keys == fields.Keys
    ensures forall k :: k in fields && fields[k].NonText? ==> r[k] == fields[k]
    ensures forall k :: k in fields && fields[k].Text? ==> r[k] == Text(Sanitize(fields[k].text))
  {
    map k | k in fields :: SanitizeValue(fields[k])
  }

  /** Sanitizing the fields twice is sanitizing them once. */
  lemma SanitizedFieldsIdempotent(fields: Fields)
    ensures SanitizedFields(SanitizedFields(fields)) == SanitizedFields(fields)
  {
    var once := SanitizedFields(fields);
    forall k | k in once ensures SanitizedFields(once)[k] == once[k] {
      if fields[k].Text? {
        SanitizeIdempotent(fields[k].text);
      }
    }
  }

  /** `Object.keys(fields).forEach(...)`: each string field rewritten in place. */
  method SanitizeFields(fields: Fields) returns (r: Fields)
    ensures r == SanitizedFields(fields)
  {
    r := fields;
    var todo := fields.Keys;
    while todo != {}
      invariant todo <= fields.Keys && r.Keys == fields.Keys
      invariant forall k :: k in r ==> r[k] == if k in todo then fields[k] else SanitizeValue(fields[k])
      decreases |todo|
    {
      var key :| key in todo;
      r := r[key := SanitizeValue(r[key])];
      todo := todo - {key};
    }
    assert forall k :: k in r ==> r[k] == SanitizedFields(fields)[k];
  }

  /** The parts of a request `sanitizeData` reads and rewrites. */
  class Request {
    var body: Option<Fields>
    var query: Option<Fields>

    constructor (body: Option<Fields>, query: Option<Fields>)
      ensures this.body == body && this.query == query
    {
      this.body := body;
      this.query := query;
    }
  }

  /** `sanitizeData`: the string fields of the body and of the query are sanitized. */
  method SanitizeData(req: Request)
    modifies req
    ensures req.body == if old(req.body).Some? then Some(SanitizedFields(old(req.body).value)) else None
    ensures req.query == if old(req.query).Some? then Some(SanitizedFields(old(req.query).value)) else None
  {
    if req.body.Some? {
      var body := SanitizeFields(req.body.value);
      req.body := Some(body);
    }
    if req.query.Some? {
      var query := SanitizeFields(req.query.value);
      req.query := Some(query);
    }
  }

  // ---------------------------------------------------------------------------
  // errorHandler
  // ---------------------------------------------------------------------------

  /** What the handler reads of an error; `fieldMessages` are the messages of a validation
      error's `errors`, in their order. */
  datatype AppError = AppError(name: string, code: Option<int>, statusCode: Option<int>, message: string,
                               fieldMessages: seq<string>)

  datatype ErrorBody = Message(text: string) | Messages(texts: seq<string>)

  datatype ErrorReply = ErrorReply(status: int, error: ErrorBody)

  /** `errorHandler`: the checks in their order, then `err.statusCode || 500` with
      `err.message || 'Server Error'`. */
  function ErrorHandler(err: AppError): (r: ErrorReply)
    ensures err.name == "ValidationError" ==> r == ErrorReply(400, Messages(err.fieldMessages))
    ensures err.name != "ValidationError" && err.code == Some(11000) ==>
              r == ErrorReply(400, Message("Duplicate field value entered"))
    ensures r.status == 401 <==>
              (err.name != "ValidationError" && err.code != Some(11000)
               && (err.name in {"JsonWebTokenError", "TokenExpiredError"} || err.statusCode == Some(401)))
    ensures err.name !in {"ValidationError", "JsonWebTokenError", "TokenExpiredError"} && err.code != Some(11000) ==>
              r.status == (if err.statusCode.Some? && err.statusCode.value != 0 then err.statusCode.value else 500)
              && r.error == Message(if err.message != "" then err.message else "Server Error")
  {
    if err.name == "ValidationError" then ErrorReply(400, Messages(err.fieldMessages))
    else if err.code == Some(11000) then ErrorReply(400, Message("Duplicate field value entered"))
    else if err.name == "JsonWebTokenError" then ErrorReply(401, Message("Invalid token"))
    else if err.name == "TokenExpiredError" then ErrorReply(401, Message("Token expired"))
    else ErrorReply(if err.statusCode.Some? && err.statusCode.value != 0 then err.statusCode.value else 500,
                    Message(if err.message != "" then err.message else "Server Error"))
  }

  /** The token errors answer 401 with their own messages, unless the error is also a
      validation or duplicate-key error, which are checked first. */
  lemma TokenErrors(err: AppError)
    requires err.name != "ValidationError" && err.code != Some(11000)
    ensures err.name == "JsonWebTokenError" ==> ErrorHandler(err) == ErrorReply(401, Message("Invalid token"))
    ensures err.name == "TokenExpiredError" ==> ErrorHandler(err) == ErrorReply(401, Message("Token expired"))
  {
  }

  // ---------------------------------------------------------------------------
  // logActivity
  // ---------------------------------------------------------------------------

  /** One log record of `logActivity`. */
  datatype Activity = Activity(activityType: string, userId: Option<UserId>, httpMethod: string, path: string,
                               statusCode: int, at: Time)

  /** The records written for a run of responses: those with a 2xx status, in order. */
  function LoggedActivities(sent: seq<Activity>): (r: seq<Activity>)
    ensures |r| <= |sent|
    ensures forall k :: 0 <= k < |r| ==> 200 <= r[k].statusCode < 300
  {
    if |sent| == 0 then []
    else LoggedActivities(sent[..|sent| - 1])
         + (if 200 <= sent[|sent| - 1].statusCode < 300 then [sent[|sent| - 1]] else [])
  }

  /** Every successful response is logged and nothing else is. */
  lemma {:induction false} LoggedActivitiesMembers(sent: seq<Activity>, a: Activity)
    ensures a in LoggedActivities(sent) <==> a in sent && 200 <= a.statusCode < 300
  {
    if |sent| > 0 {
      LoggedActivitiesMembers(sent[..|sent| - 1], a);
      assert sent == sent[..|sent| - 1] + [sent[|sent| - 1]];
    }
  }

  /** One more response adds its record exactly when its status is 2xx. */
  lemma LoggedActivitiesSnoc(sent: seq<Activity>, a: Activity)
    ensures LoggedActivities(sent + [a]) == LoggedActivities(sent) + (if 200 <= a.statusCode < 300 then [a] else [])
  {
    assert (sent + [a])[..|sent|] == sent;
  }

  /** A response wrapped by `logActivity`, with the logger's records. */
  class LoggedResponse {
    var statusCode: int
    /** What the logger has written so far. */
    ghost var log: seq<Activity>
    /** The activities of the responses sent so far, logged or not. */
    ghost var sent: seq<Activity>

    constructor (statusCode: int)
      ensures this.statusCode == statusCode && log == [] && sent == []
    {
      this.statusCode := statusCode;
      log := [];
      sent := [];
    }

    ghost predicate Valid()
      reads this
    {
      log == LoggedActivities(sent)
    }

    /** The replaced `res.send`: logs the activity when the status is 2xx, then sends. */
    method Send(activityType: string, userId: Option<UserId>, httpMethod: string, path: string, now: Time)
      requires Valid()
      modifies this`log, this`sent
      ensures Valid()
      ensures sent == old(sent) + [Activity(activityType, userId, httpMethod, path, statusCode, now)]
      ensures log == old(log) + (if 200 <= statusCode < 300 then [Activity(activityType, userId, httpMethod, path, statusCode, now)] else [])
    {
      var entry := Activity(activityType, userId, httpMethod, path, statusCode, now);
      LoggedActivitiesSnoc(sent, entry);
      if statusCode >= 200 && statusCode < 300 {
        log := log + [entry];
      }
      sent := sent + [entry];
    }
  }
}
