/** Per-session user information (Application/Services/SessionInfoService.cs,
    Application/Models/SessionInfo.cs).

    `SessionInfo` is a mutable object the service fills in place; `Reset`
    swaps in a fresh one. The authentication state, the HTTP context and the
    clock reading are parameters of `InitializeAsync`. */
module SessionInfoService {
  import opened Wrappers
  import opened Text

  /** The .NET `ClaimTypes` URIs the service looks up. */
  const NameIdentifierClaim: string := "http://schemas.xmlsoap.org/ws/2005/05/identity/claims/nameidentifier"
  const NameClaim: string := "http://schemas.xmlsoap.org/ws/2005/05/identity/claims/name"
  const EmailClaim: string := "http://schemas.xmlsoap.org/ws/2005/05/identity/claims/emailaddress"
  const RoleClaim: string := "http://schemas.microsoft.com/ws/2008/06/identity/claims/role"

  const ForwardedForHeader: string := "X-Forwarded-For"
  const ActiveStatus: string := "Active"
  const GuestStatus: string := "Guest"
  const AnonymousUser: string := "Anonymous"

  datatype Claim = Claim(claimType: string, value: string)

  /** `user.Identity`: whether it is authenticated, and its `Name`. */
  datatype Identity = Identity(isAuthenticated: bool, name: Option<string>)

  /** The `ClaimsPrincipal` of the authentication state. */
  datatype Principal = Principal(identity: Option<Identity>, claims: seq<Claim>)

  /** What the service reads of the current `HttpContext`: the request
      headers (each with its values) and the remote address, as text. */
  datatype HttpContext = HttpContext(headers: map<string, seq<string>>, remoteIpAddress: Option<string>)

  /** `FindFirst(type)?.Value`: the value of the first claim whose type
      equals `claimType`, compared as `ClaimsIdentity` does, ignoring case. */
  function FindFirst(claims: seq<Claim>, claimType: string): (r: Option<string>)
    ensures r.None? <==> forall i :: 0 <= i < |claims| ==> !EqualsIgnoreCase(claims[i].claimType, claimType)
    ensures r.Some? ==>
      exists i :: 0 <= i < |claims| && EqualsIgnoreCase(claims[i].claimType, claimType) && claims[i].value == r.value
        && forall j :: 0 <= j < i ==> !EqualsIgnoreCase(claims[j].claimType, claimType)
  {
    if |claims| == 0 then None
    else if EqualsIgnoreCase(claims[0].claimType, claimType) then Some(claims[0].value)
    else
      var r := FindFirst(claims[1..], claimType);
      assert forall j :: 1 <= j < |claims| ==> claims[j] == claims[1..][j - 1];
      r
  }

  /** `FindAll(type).Select(c => c.Value)`: the values of the claims of that
      type, ignoring case, in claim order. */
  function FindAll(claims: seq<Claim>, claimType: string): (r: seq<string>)
    ensures |r| <= |claims|
    ensures forall v :: v in r <==> exists c :: c in claims && c.value == v && EqualsIgnoreCase(c.claimType, claimType)
  {
    if |claims| == 0 then []
    else
      var rest := FindAll(claims[1..], claimType);
      assert forall c :: c in claims <==> c == claims[0] || c in claims[1..];
      (if EqualsIgnoreCase(claims[0].claimType, claimType) then [claims[0].value] else []) + rest
  }

  /** Claims given one after another yield their values one after another. */
  lemma {:induction false} FindAllAppend(a: seq<Claim>, b: seq<Claim>, claimType: string)
    ensures FindAll(a + b, claimType) == FindAll(a, claimType) + FindAll(b, claimType)
  {
    if |a| == 0 {
      assert a + b == b;
    } else {
      assert (a + b)[0] == a[0] && (a + b)[1..] == a[1..] + b;
      var head := if EqualsIgnoreCase(a[0].claimType, claimType) then [a[0].value] else [];
      assert FindAll(a + b, claimType) == head + FindAll(a[1..] + b, claimType);
      assert FindAll(a, claimType) == head + FindAll(a[1..], claimType);
      FindAllAppend(a[1..], b, claimType);
    }
  }

  /** Looking a claim up under a type spelt in another case finds the same
      claim: `FindFirst` depends only on the type up to case. */
  lemma {:induction false} FindFirstIgnoresCase(claims: seq<Claim>, claimType: string, other: string)
    requires EqualsIgnoreCase(claimType, other)
    ensures FindFirst(claims, claimType) == FindFirst(claims, other)
  {
    if |claims| > 0 {
      EqualsIgnoreCaseEquivalence(claims[0].claimType, claimType, other);
      EqualsIgnoreCaseEquivalence(claims[0].claimType, other, claimType);
      FindFirstIgnoresCase(claims[1..], claimType, other);
    }
  }

  /** Trimming a comma-free field leaves it comma-free, with no white space
      at either end. */
  lemma TrimmedFieldClean(field: string)
    requires ',' !in field
    ensures var t := Trim(field);
      ',' !in t && (|t| > 0 ==> !IsWhiteSpace(t[0]) && !IsWhiteSpace(t[|t| - 1]))
  {
    TrimLeavesNoEdge(field);
    TrimKeepsMiddle(field);
    SliceKeepsAbsent(field, ',', Leading(field), Leading(field) + |Trim(field)|);
  }

  /** `GetUserIpAddress`: no context gives no address; a forwarded-for header
      gives the first comma-separated part of its first value, trimmed,
      without looking at the remote address; otherwise the remote address. */
  function UserIpAddress(context: Option<HttpContext>): (r: Option<string>)
    ensures context.None? ==> r.None?
    ensures context.Some? && ForwardedForHeader !in context.value.headers ==> r == context.value.remoteIpAddress
    ensures context.Some? && ForwardedForHeader in context.value.headers ==>
      (r.None? <==> context.value.headers[ForwardedForHeader] == [])
    ensures context.Some? && ForwardedForHeader in context.value.headers && r.Some? ==>
      ',' !in r.value && (|r.value| > 0 ==> !IsWhiteSpace(r.value[0]) && !IsWhiteSpace(r.value[|r.value| - 1]))
    ensures context.Some? && ForwardedForHeader in context.value.headers && |context.value.headers[ForwardedForHeader]| > 0 ==>
      r == Some(Trim(FirstField(context.value.headers[ForwardedForHeader][0], ',')))
  {
    match context
    case None => None
    case Some(http) =>
      if ForwardedForHeader in http.headers then
        var forwardedFor := http.headers[ForwardedForHeader];
        if |forwardedFor| == 0 then None
        else
          var first := FirstField(forwardedFor[0], ',');
          TrimmedFieldClean(first);
          Some(Trim(first))
      else http.remoteIpAddress
  }

  /** A forwarded value without a comma is the client address itself, trimmed,
      whatever the connection's own remote address is. */
  lemma ForwardedSingleValue(http: HttpContext, client: string, more: seq<string>)
    requires ',' !in client
    requires ForwardedForHeader in http.headers && http.headers[ForwardedForHeader] == [client] + more
    ensures UserIpAddress(Some(http)) == Some(Trim(client))
    ensures forall remote :: UserIpAddress(Some(http.(remoteIpAddress := remote))) == Some(Trim(client))
  {
    assert http.headers[ForwardedForHeader][0] == client;
    var first := FirstField(client, ',');
    assert first == client;
  }

  /** The address a proxy chain reports: the client hop before the first
      comma, whatever follows and whatever the remote address is. */
  lemma ForwardedClientWins(http: HttpContext, client: string, rest: string, more: seq<string>)
    requires ',' !in client
    requires ForwardedForHeader in http.headers && http.headers[ForwardedForHeader] == [client + [','] + rest] + more
    ensures UserIpAddress(Some(http)) == Some(Trim(client))
    ensures forall remote :: UserIpAddress(Some(http.(remoteIpAddress := remote))) == Some(Trim(client))
  {
    FirstFieldOf(client, ',', rest);
  }

  /** The fields of a `SessionInfo`, as a value; `sessionStartTime` is in ticks. */
  datatype Info = Info(
    userId: Option<string>, userName: Option<string>, email: Option<string>,
    ipAddress: Option<string>, roles: seq<string>, status: Option<string>,
    sessionStartTime: int, isAuthenticated: bool)

  /** `new SessionInfo()`. */
  const DefaultInfo: Info := Info(None, None, None, None, [], None, 0, false)

  /** What a first `InitializeAsync` makes of `info`. Only an authenticated
      identity sets the user id, e-mail and roles; an anonymous one leaves
      them as they were. */
  function Populate(info: Info, user: Principal, context: Option<HttpContext>, now: int): (r: Info)
    ensures r.sessionStartTime == now && r.ipAddress == UserIpAddress(context)
    ensures r.isAuthenticated <==> user.identity.Some? && user.identity.value.isAuthenticated
    ensures r.status == Some(if r.isAuthenticated then ActiveStatus else GuestStatus)
    ensures r.isAuthenticated ==>
      && r.userId == FindFirst(user.claims, NameIdentifierClaim)
      && r.userName == (if FindFirst(user.claims, NameClaim).Some? then FindFirst(user.claims, NameClaim) else user.identity.value.name)
      && r.email == FindFirst(user.claims, EmailClaim)
      && r.roles == FindAll(user.claims, RoleClaim)
    ensures !r.isAuthenticated ==>
      r.userName == Some(AnonymousUser) && r.userId == info.userId && r.email == info.email && r.roles == info.roles
  {
    var started := info.(sessionStartTime := now, ipAddress := UserIpAddress(context));
    if user.identity.Some? && user.identity.value.isAuthenticated then
      started.(
        isAuthenticated := true,
        userId := FindFirst(user.claims, NameIdentifierClaim),
        userName := match FindFirst(user.claims, NameClaim) case Some(n) => Some(n) case None => user.identity.value.name,
        email := FindFirst(user.claims, EmailClaim),
        roles := FindAll(user.claims, RoleClaim),
        status := Some(ActiveStatus))
    else
      started.(isAuthenticated := false, userName := Some(AnonymousUser), status := Some(GuestStatus))
  }

  /** Populating twice from the same inputs is populating once. */
  lemma PopulateIdempotent(info: Info, user: Principal, context: Option<HttpContext>, now: int)
    ensures Populate(Populate(info, user, context, now), user, context, now) == Populate(info, user, context, now)
  {
  }

  /** After `Reset`, an anonymous session shows nothing of the user who
      signed in before. */
  lemma ResetForgetsUser(user: Principal, context: Option<HttpContext>, now: int)
    requires !(user.identity.Some? && user.identity.value.isAuthenticated)
    ensures var r := Populate(DefaultInfo, user, context, now);
      r.userId.None? && r.email.None? && r.roles == [] && r.userName == Some(AnonymousUser)
  {
  }

  class SessionInfo {
    var userId: Option<string>
    var userName: Option<string>
    var email: Option<string>
    var ipAddress: Option<string>
    var roles: seq<string>
    var status: Option<string>
    var sessionStartTime: int
    var isAuthenticated: bool

    constructor ()
      ensures Fields() == DefaultInfo
    {
      userId, userName, email, ipAddress := None, None, None, None;
      roles, status, sessionStartTime, isAuthenticated := [], None, 0, false;
    }

    function Fields(): Info
      reads this
    {
      Info(userId, userName, email, ipAddress, roles, status, sessionStartTime, isAuthenticated)
    }
  }

  class SessionInfoService {
    var sessionInfo: SessionInfo
    var isPopulated: bool

    constructor ()
      ensures fresh(sessionInfo) && sessionInfo.Fields() == DefaultInfo && !isPopulated
    {
      sessionInfo := new SessionInfo();
      isPopulated := false;
    }

    /** `InitializeAsync`: once populated, a call changes nothing; otherwise
        it fills the current `SessionInfo` in place and marks the service
        populated. */
    method InitializeAsync(user: Principal, context: Option<HttpContext>, now: int)
      modifies this, sessionInfo
      ensures sessionInfo == old(sessionInfo)
      ensures old(isPopulated) ==> isPopulated && sessionInfo.Fields() == old(sessionInfo.Fields())
      ensures !old(isPopulated) ==> isPopulated && sessionInfo.Fields() == Populate(old(sessionInfo.Fields()), user, context, now)
    {
      if isPopulated {
        return;
      }
      var info := sessionInfo;
      info.sessionStartTime := now;
      info.ipAddress := UserIpAddress(context);
      if user.identity.Some? && user.identity.value.isAuthenticated {
        info.isAuthenticated := true;
        info.userId := FindFirst(user.claims, NameIdentifierClaim);
        var name := FindFirst(user.claims, NameClaim);
        info.userName := if name.Some? then name else user.identity.value.name;
        info.email := FindFirst(user.claims, EmailClaim);
        info.roles := FindAll(user.claims, RoleClaim);
        info.status := Some(ActiveStatus);
      } else {
        info.isAuthenticated := false;
        info.userName := Some(AnonymousUser);
        info.status := Some(GuestStatus);
      }
      isPopulated := true;
    }

    /** `Reset`: a fresh default `SessionInfo` and the flag cleared. Whoever
        still holds the previous `SessionInfo` keeps its data. */
    method Reset()
      modifies this
      ensures fresh(sessionInfo) && sessionInfo.Fields() == DefaultInfo && !isPopulated
    {
      sessionInfo := new SessionInfo();
      isPopulated := false;
    }

    /** `UpdateUserStatus`: sets `Status` and nothing else. */
    method UpdateUserStatus(newStatus: string)
      modifies sessionInfo
      ensures sessionInfo.Fields() == old(sessionInfo.Fields()).(status := Some(newStatus))
    {
      sessionInfo.status := Some(newStatus);
    }
  }

  /** Reset followed by initialisation populates a default `SessionInfo` in
      full, whatever the service held before. */
  method ResetThenInitialize(s: SessionInfoService, user: Principal, context: Option<HttpContext>, now: int)
    modifies s
    ensures fresh(s.sessionInfo) && s.isPopulated
    ensures s.sessionInfo.Fields() == Populate(DefaultInfo, user, context, now)
  {
    s.Reset();
    s.InitializeAsync(user, context, now);
  }
}
