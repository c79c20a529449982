/** Refresh-token rotation and logout against a blacklist kept in a cache whose entries expire.

Requests run one after another; within a request time passes between its steps. A token verifies strictly
before its `exp` claim (RFC 7519, section 4.1.4); tokens are told apart by their `jti` claim (section 4.1.7).
 */
module RefreshTokens {
  import opened Common

  datatype Kind = Refresh | Access

  datatype Token = Token(kind: Kind, jti: string, exp: int, user: int)

  // A presented text: a token of this service, or anything that does not decode.
  datatype Cookie = Unreadable | Signed(token: Token)

  // jti to the moment its entry disappears.
  type Cache = map<string, real>

  /** When a request reaches its steps: decoding the cookie, looking up the blacklist, decoding again to revoke,
  reading the clock, storing the entry. A logout uses the first two to read the clock and store the entry for its
  access token. */
  datatype Moments = Moments(parse: real, check: real, reparse: real, clock: real, store: real)

  datatype AccessClaims = AccessClaims(jti: string, exp: int)

  datatype Request =
    | Rotate(cookie: Option<Cookie>, userExists: bool, at: Moments)
    | Logout(access: Option<AccessClaims>, cookie: Option<Cookie>, at: Moments)

  datatype Response = SessionExpired | ServerError | NewPair(user: int) | LoggedOut

  // ----- one request

  predicate Verifies(cookie: Cookie, at: real) {
    cookie.Signed? && cookie.token.kind == Refresh && at < cookie.token.exp as real
  }

  predicate Blacklisted(cache: Cache, jti: string, at: real) {
    jti in cache && at < cache[jti]
  }

  // Seconds left until `exp`, on a clock cut to whole seconds.
  function TimeToLive(exp: int, clock: real): int {
    exp - clock.Floor
  }

  function Listed(cache: Cache, jti: string, exp: int, clock: real, store: real): Cache {
    if TimeToLive(exp, clock) > 0 && jti != "" then cache[jti := store + TimeToLive(exp, clock) as real] else cache
  }

  function Revoked(cache: Cache, cookie: Cookie, at: Moments): Cache {
    if Verifies(cookie, at.reparse) then Listed(cache, cookie.token.jti, cookie.token.exp, at.clock, at.store)
    else cache
  }

  function Respond(cache: Cache, r: Request): (Cache, Response) {
    match r
    case Rotate(cookie, userExists, at) =>
      if cookie.None? || !Verifies(cookie.value, at.parse) then (cache, SessionExpired)
      else if Blacklisted(cache, cookie.value.token.jti, at.check) then (cache, SessionExpired)
      else
        (Revoked(cache, cookie.value, at), if userExists then NewPair(cookie.value.token.user) else ServerError)
    case Logout(access, cookie, at) =>
      var listed :=
        if access.Some? then Listed(cache, access.value.jti, access.value.exp, at.parse, at.check) else cache;
      (if cookie.Some? then Revoked(listed, cookie.value, at) else listed, LoggedOut)
  }

  // ----- runs

  function CacheAfter(cache: Cache, rs: seq<Request>): Cache {
    if rs == [] then cache else Respond(CacheAfter(cache, rs[..|rs| - 1]), rs[|rs| - 1]).0
  }

  function ResponseAt(cache: Cache, rs: seq<Request>, i: nat): Response
    requires i < |rs|
  {
    Respond(CacheAfter(cache, rs[..i]), rs[i]).1
  }

  predicate InOrder(at: Moments) {
    at.parse <= at.check <= at.reparse <= at.clock <= at.store
  }

  ghost predicate Sequential(rs: seq<Request>) {
    && (forall i :: 0 <= i < |rs| ==> InOrder(rs[i].at))
    && forall i, j :: 0 <= i < j < |rs| ==> rs[i].at.store <= rs[j].at.parse
  }

  predicate Presents(r: Request, token: Token) {
    r.cookie == Some(Signed(token))
  }

  // No other token shares the token's id.
  ghost predicate UniqueId(rs: seq<Request>, token: Token) {
    forall i :: 0 <= i < |rs| ==> SharesNoId(rs[i], token)
  }

  predicate SharesNoId(r: Request, token: Token) {
    && (r.cookie.Some? && r.cookie.value.Signed? && r.cookie.value.token.jti == token.jti ==>
          r.cookie.value.token.exp == token.exp)
    && (r.Logout? && r.access.Some? && r.access.value.jti == token.jti ==> r.access.value.exp == token.exp)
  }

  // The request has taken the token out of use: it was not refused, or a logout presented it.
  predicate UsesUp(cache: Cache, r: Request, token: Token) {
    Presents(r, token) && (r.Logout? || Respond(cache, r).1 != SessionExpired)
  }

  /** What a refresh request gets: a refused session unless it presents an unexpired refresh token of this service that
  is not on the blacklist; then a new pair for the token's user, or a server error when that user is gone. */
  lemma RefreshGets(cache: Cache, r: Request)
    requires r.Rotate?
    ensures
      var good :=
        && r.cookie.Some? && r.cookie.value.Signed?
        && var token := r.cookie.value.token;
           && token.kind == Refresh && r.at.parse < token.exp as real
           && !(token.jti in cache && r.at.check < cache[token.jti]);
      Respond(cache, r).1 ==
      if !good then SessionExpired else if r.userExists then NewPair(r.cookie.value.token.user) else ServerError
    ensures Respond(cache, r).1 == SessionExpired ==> Respond(cache, r).0 == cache
  {
  }

  // ----- a used-up token

  // Expired, or blacklisted at least until it expires.
  predicate Burned(cache: Cache, token: Token, now: real) {
    now >= token.exp as real || (token.jti in cache && cache[token.jti] >= token.exp as real)
  }

  lemma ListedBurns(cache: Cache, token: Token, clock: real, store: real)
    requires clock <= store && token.jti != ""
    ensures Burned(Listed(cache, token.jti, token.exp, clock, store), token, store)
  {
  }

  lemma ListedKeeps(cache: Cache, token: Token, jti: string, exp: int, clock: real, store: real, now: real)
    requires clock <= store && (jti == token.jti ==> exp == token.exp)
    requires Burned(cache, token, now)
    ensures Burned(Listed(cache, jti, exp, clock, store), token, now)
  {
  }

  lemma UsesUpBurns(cache: Cache, r: Request, token: Token)
    requires InOrder(r.at) && SharesNoId(r, token) && token.jti != "" && token.kind == Refresh
    requires UsesUp(cache, r, token)
    ensures Burned(Respond(cache, r).0, token, r.at.store)
  {
    ListedBurns(cache, token, r.at.clock, r.at.store);
    if r.Logout? && r.access.Some? {
      var listed := Listed(cache, r.access.value.jti, r.access.value.exp, r.at.parse, r.at.check);
      ListedBurns(listed, token, r.at.clock, r.at.store);
    }
  }

  lemma RespondKeepsBurned(cache: Cache, r: Request, token: Token, now: real)
    requires InOrder(r.at) && SharesNoId(r, token) && now <= r.at.parse
    requires Burned(cache, token, now)
    ensures Burned(Respond(cache, r).0, token, r.at.store)
  {
    hide Listed;
    var listed := cache;
    if r.Logout? && r.access.Some? {
      ListedKeeps(cache, token, r.access.value.jti, r.access.value.exp, r.at.parse, r.at.check, now);
      listed := Listed(cache, r.access.value.jti, r.access.value.exp, r.at.parse, r.at.check);
    }
    if r.cookie.Some? && r.cookie.value.Signed? {
      var shown := r.cookie.value.token;
      ListedKeeps(listed, token, shown.jti, shown.exp, r.at.clock, r.at.store, now);
    }
  }

  // A request that looks the token up before it expires is not taken in by a used-up one.
  lemma BurnedIsRejected(cache: Cache, r: Request, token: Token, now: real)
    requires r.Rotate? && Presents(r, token) && InOrder(r.at) && now <= r.at.parse
    requires Burned(cache, token, now) && r.at.check < token.exp as real
    ensures Respond(cache, r).1 == SessionExpired
  {
  }

  lemma CacheAfterOneMore(cache: Cache, rs: seq<Request>, j: nat)
    requires j < |rs|
    ensures CacheAfter(cache, rs[..j + 1]) == Respond(CacheAfter(cache, rs[..j]), rs[j]).0
  {
    hide Respond;
    assert rs[..j + 1][..j] == rs[..j];
  }

  lemma {:induction false} StaysBurned(cache: Cache, rs: seq<Request>, token: Token, i: nat, j: nat)
    requires Sequential(rs) && UniqueId(rs, token) && i < j < |rs|
    requires Burned(CacheAfter(cache, rs[..i + 1]), token, rs[i].at.store)
    ensures Burned(CacheAfter(cache, rs[..j]), token, rs[j - 1].at.store)
    decreases j
  {
    hide Respond, Burned, SharesNoId, CacheAfter;
    if i + 1 < j {
      StaysBurned(cache, rs, token, i, j - 1);
      CacheAfterOneMore(cache, rs, j - 1);
      assert InOrder(rs[j - 2].at) && InOrder(rs[j - 1].at) && SharesNoId(rs[j - 1], token);
      RespondKeepsBurned(CacheAfter(cache, rs[..j - 1]), rs[j - 1], token, rs[j - 2].at.store);
    }
  }

  /** In a sequential run a refresh token is accepted at most once, and never after a logout that presents it, by
  requests that look it up in the blacklist before it expires. */
  lemma AcceptedAtMostOnce(cache: Cache, rs: seq<Request>, token: Token, i: nat, j: nat)
    requires Sequential(rs) && UniqueId(rs, token) && i < j < |rs| && token.jti != "" && token.kind == Refresh
    requires UsesUp(CacheAfter(cache, rs[..i]), rs[i], token)
    requires rs[j].Rotate? && Presents(rs[j], token)
    requires rs[j].at.parse < token.exp as real ==> rs[j].at.check < token.exp as real
    ensures ResponseAt(cache, rs, j) == SessionExpired
  {
    assert InOrder(rs[i].at) && InOrder(rs[j].at) && SharesNoId(rs[i], token);
    UsesUpBurns(CacheAfter(cache, rs[..i]), rs[i], token);
    CacheAfterOneMore(cache, rs, i);
    StaysBurned(cache, rs, token, i, j);
    if rs[j].at.check < token.exp as real {
      BurnedIsRejected(CacheAfter(cache, rs[..j]), rs[j], token, rs[j - 1].at.store);
    }
  }

  // ----- the access token of a logout

  lemma LogoutBurnsAccess(cache: Cache, r: Request, access: Token)
    requires InOrder(r.at) && r.Logout? && r.access == Some(AccessClaims(access.jti, access.exp)) && access.jti != ""
    requires SharesNoId(r, access)
    ensures Burned(Respond(cache, r).0, access, r.at.store)
  {
    hide Listed, Burned;
    var listed := Listed(cache, access.jti, access.exp, r.at.parse, r.at.check);
    ListedBurns(cache, access, r.at.parse, r.at.check);
    BurnedLater(listed, access, r.at.check, r.at.store);
    if r.cookie.Some? && r.cookie.value.Signed? {
      var shown := r.cookie.value.token;
      ListedKeeps(listed, access, shown.jti, shown.exp, r.at.clock, r.at.store, r.at.store);
    }
  }

  lemma BurnedLater(cache: Cache, token: Token, now: real, later: real)
    requires Burned(cache, token, now) && now <= later
    ensures Burned(cache, token, later)
  {
  }

  /** After a logout the access token it came with is on the blacklist at every moment up to its expiry, whatever
  requests follow. */
  lemma AccessStaysRevoked(cache: Cache, rs: seq<Request>, access: Token, i: nat, j: nat, moment: real)
    requires Sequential(rs) && UniqueId(rs, access) && i < j <= |rs| && access.jti != ""
    requires rs[i].Logout? && rs[i].access == Some(AccessClaims(access.jti, access.exp))
    requires rs[j - 1].at.store <= moment < access.exp as real
    ensures Blacklisted(CacheAfter(cache, rs[..j]), access.jti, moment)
  {
    hide Respond, Listed;
    assert InOrder(rs[i].at) && SharesNoId(rs[i], access);
    CacheAfterOneMore(cache, rs, i);
    LogoutBurnsAccess(CacheAfter(cache, rs[..i]), rs[i], access);
    if i + 1 < j {
      assert rs[..j][..i + 1] == rs[..i + 1];
      BurnedThrough(cache, rs, access, i, j);
    }
  }

  lemma BurnedThrough(cache: Cache, rs: seq<Request>, token: Token, i: nat, j: nat)
    requires Sequential(rs) && UniqueId(rs, token) && i + 1 < j <= |rs|
    requires Burned(CacheAfter(cache, rs[..i + 1]), token, rs[i].at.store)
    ensures Burned(CacheAfter(cache, rs[..j]), token, rs[j - 1].at.store)
  {
    hide Respond, Burned;
    StaysBurned(cache, rs, token, i, j - 1);
    CacheAfterOneMore(cache, rs, j - 1);
    assert InOrder(rs[j - 2].at) && InOrder(rs[j - 1].at) && SharesNoId(rs[j - 1], token);
    RespondKeepsBurned(CacheAfter(cache, rs[..j - 1]), rs[j - 1], token, rs[j - 2].at.store);
  }

  // ----- what a replay gets, exactly

  // The request does not present the token's id.
  predicate LeavesAlone(r: Request, jti: string) {
    && (r.cookie.Some? && r.cookie.value.Signed? ==> r.cookie.value.token.jti != jti)
    && (r.Logout? && r.access.Some? ==> r.access.value.jti != jti)
  }

  // Or it is a refresh that is refused.
  predicate LeavesEntry(cache: Cache, r: Request, jti: string) {
    LeavesAlone(r, jti) || (r.Rotate? && Respond(cache, r).1 == SessionExpired)
  }

  predicate SameEntry(a: Cache, b: Cache, jti: string) {
    (jti in a <==> jti in b) && (jti in a ==> a[jti] == b[jti])
  }

  lemma RespondLeavesEntry(cache: Cache, r: Request, jti: string)
    requires LeavesEntry(cache, r, jti)
    ensures SameEntry(Respond(cache, r).0, cache, jti)
  {
  }

  lemma {:induction false} EntryStays(cache: Cache, rs: seq<Request>, jti: string, i: nat, j: nat)
    requires i < j < |rs| && forall k :: i < k < j ==> LeavesEntry(CacheAfter(cache, rs[..k]), rs[k], jti)
    ensures SameEntry(CacheAfter(cache, rs[..j]), CacheAfter(cache, rs[..i + 1]), jti)
    decreases j
  {
    hide Respond, LeavesEntry, SameEntry, CacheAfter;
    if i + 1 < j {
      var before := CacheAfter(cache, rs[..j - 1]);
      EntryStays(cache, rs, jti, i, j - 1);
      CacheAfterOneMore(cache, rs, j - 1);
      RespondLeavesEntry(before, rs[j - 1], jti);
      SameEntryChain(CacheAfter(cache, rs[..j]), before, CacheAfter(cache, rs[..i + 1]), jti);
    } else {
      SameEntryChain(CacheAfter(cache, rs[..j]), CacheAfter(cache, rs[..j]), CacheAfter(cache, rs[..j]), jti);
    }
  }

  lemma SameEntryChain(a: Cache, b: Cache, c: Cache, jti: string)
    ensures SameEntry(a, a, jti)
    ensures SameEntry(a, b, jti) && SameEntry(b, c, jti) ==> SameEntry(a, c, jti)
  {
  }

  // A token used up before it expires is blacklisted until a moment not before it expires.
  lemma EntryOfUsedUp(cache: Cache, r: Request, token: Token)
    requires InOrder(r.at) && token.jti != "" && token.kind == Refresh && UsesUp(cache, r, token)
    ensures
      var until := r.at.store + TimeToLive(token.exp, r.at.clock) as real;
      && until >= token.exp as real
      && (r.at.store < token.exp as real ==>
            token.jti in Respond(cache, r).0 && Respond(cache, r).0[token.jti] == until)
  {
  }

  /** Presented again, after any requests that do not present it and any refreshes refused in between, a used-up token
  gets through exactly when decoding it precedes its expiry and the look-up in the blacklist comes only after the
  entry is gone. */
  lemma ReplayExactly(cache: Cache, rs: seq<Request>, token: Token, i: nat, j: nat)
    requires Sequential(rs) && i < j < |rs| && token.jti != "" && token.kind == Refresh
    requires UsesUp(CacheAfter(cache, rs[..i]), rs[i], token)
    requires rs[j].Rotate? && Presents(rs[j], token)
    requires forall k :: i < k < j ==> LeavesEntry(CacheAfter(cache, rs[..k]), rs[k], token.jti)
    ensures
      ResponseAt(cache, rs, j) != SessionExpired <==>
        && rs[j].at.parse < token.exp as real
        && rs[j].at.check >= rs[i].at.store + TimeToLive(token.exp, rs[i].at.clock) as real
  {
    assert InOrder(rs[i].at) && InOrder(rs[j].at) && rs[i].at.store <= rs[j].at.parse;
    EntryOfUsedUp(CacheAfter(cache, rs[..i]), rs[i], token);
    CacheAfterOneMore(cache, rs, i);
    EntryStays(cache, rs, token.jti, i, j);
  }

  // The gap is real: a replay decoded just before the expiry and looked up at the expiry is accepted.
  lemma LateLookUpIsAccepted()
    ensures
      var token := Token(Refresh, "id", 100, 7);
      var first := Rotate(Some(Signed(token)), true, Moments(10.0, 10.0, 10.0, 10.0, 10.0));
      var second := Rotate(Some(Signed(token)), true, Moments(99.9, 100.0, 100.0, 100.0, 100.0));
      && ResponseAt(map[], [first, second], 0) == NewPair(7)
      && ResponseAt(map[], [first, second], 1) == NewPair(7)
  {
    var token := Token(Refresh, "id", 100, 7);
    var first := Rotate(Some(Signed(token)), true, Moments(10.0, 10.0, 10.0, 10.0, 10.0));
    var second := Rotate(Some(Signed(token)), true, Moments(99.9, 100.0, 100.0, 100.0, 100.0));
    var rs := [first, second];
    assert rs[..0] == [] && rs[..1] == [first] && rs[..1][..0] == [];
    assert CacheAfter(map[], rs[..1]) == Respond(map[], first).0;
    assert (10.0 as real).Floor == 10;
  }

  // A token with an empty id never enters the blacklist, so it is accepted every time until it expires.
  lemma EmptyIdIsNeverUsedUp(cache: Cache, r: Request, token: Token)
    requires "" !in cache && token.jti == "" && token.kind == Refresh
    ensures "" !in Respond(cache, r).0
    ensures
      r.Rotate? && Presents(r, token) && r.at.parse < token.exp as real ==> Respond(cache, r).1 != SessionExpired
  {
  }

  // ----- the views

  class TokenViews {
    var blacklist: Cache

    constructor ()
      ensures blacklist == map[]
    {
      blacklist := map[];
    }

    method BlacklistAccessTokenJti(jti: string, exp: int, clock: real, store: real)
      modifies this
      ensures blacklist == Listed(old(blacklist), jti, exp, clock, store)
    {
      var ttl := exp - clock.Floor;
      if ttl > 0 && jti != "" {
        blacklist := blacklist[jti := store + ttl as real];
      }
    }

    method BlacklistToken(cookie: Cookie, at: Moments)
      modifies this
      ensures blacklist == Revoked(old(blacklist), cookie, at)
    {
      if Verifies(cookie, at.reparse) {
        var ttl := cookie.token.exp - at.clock.Floor;
        if ttl > 0 && cookie.token.jti != "" {
          blacklist := blacklist[cookie.token.jti := at.store + ttl as real];
        }
      }
    }

    method IsJtiBlacklisted(jti: string, at: real) returns (listed: bool)
      ensures listed == Blacklisted(blacklist, jti, at)
    {
      listed := jti in blacklist && at < blacklist[jti];
    }

    method Refresh(cookie: Option<Cookie>, userExists: bool, at: Moments) returns (response: Response)
      modifies this
      ensures (blacklist, response) == Respond(old(blacklist), Rotate(cookie, userExists, at))
    {
      if cookie.None? {
        return SessionExpired;
      }
      if !Verifies(cookie.value, at.parse) {
        return SessionExpired;
      }
      var token := cookie.value.token;
      var listed := IsJtiBlacklisted(token.jti, at.check);
      if listed {
        return SessionExpired;
      }
      BlacklistToken(cookie.value, at);
      if !userExists {
        return ServerError;
      }
      return NewPair(token.user);
    }

    method LogOut(access: Option<AccessClaims>, cookie: Option<Cookie>, at: Moments) returns (response: Response)
      modifies this
      ensures (blacklist, response) == Respond(old(blacklist), Logout(access, cookie, at))
    {
      if access.Some? {
        BlacklistAccessTokenJti(access.value.jti, access.value.exp, at.parse, at.check);
      }
      if cookie.Some? {
        BlacklistToken(cookie.value, at);
      }
      return LoggedOut;
    }
  }
}
