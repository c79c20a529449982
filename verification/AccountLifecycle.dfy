/** Withdrawal, recovery at login, and the purge of accounts withdrawn more than 14 days ago. */
module AccountLifecycle {
  import opened Common
  import opened KakaoLogin

  // The reasons the service accepts, and any other text.
  datatype Reason = Dissatisfied | Privacy | Other | Unlisted(text: string)

  datatype WithdrawError = InvalidWithdrawReason | AlreadyWithdrawn

  datatype Clocked = Clocked(db: Db, now: int)

  // A failing login is rolled back whatever made it fail.
  datatype Happening =
    | LogIn(account: Account, fails: bool)
    | Leave(user: nat, reason: Reason)
    | Purge
    | Tick(elapsed: nat)

  // ----- one step

  predicate Purgeable(row: UserRow, now: int) {
    !row.active && row.deletedAt.Some? && row.deletedAt.value < now - RECOVERY_WINDOW_DAYS * DAY
  }

  function Remaining(users: map<nat, UserRow>, now: int): map<nat, UserRow> {
    map u | u in users && !Purgeable(users[u], now) :: users[u]
  }

  // Links go with their users.
  function Purged(db: Db, now: int): Db {
    var users := Remaining(db.users, now);
    db.(users := users, links := map pid | pid in db.links && db.links[pid] in users :: db.links[pid])
  }

  function Withdrawal(db: Db, user: nat, reason: Reason, now: int): Result<Db, WithdrawError>
    requires user in db.users
  {
    if reason.Unlisted? then Err(InvalidWithdrawReason)
    else if !db.users[user].active then Err(AlreadyWithdrawn)
    else Ok(db.(users := db.users[user := Withdrawn(db.users[user], now)]))
  }

  ghost function Live(s: Clocked, h: Happening): Clocked {
    match h
    case LogIn(account, fails) => if fails then s else s.(db := Login(s.db, account, s.now).0)
    case Leave(user, reason) =>
      if user !in s.db.users then s
      else
        var r := Withdrawal(s.db, user, reason, s.now);
        if r.Ok? then s.(db := r.value) else s
    case Purge => s.(db := Purged(s.db, s.now))
    case Tick(elapsed) => s.(now := s.now + elapsed)
  }

  ghost function Lives(s: Clocked, hs: seq<Happening>): Clocked
    decreases |hs|
  {
    if hs == [] then s else Lives(Live(s, hs[0]), hs[1..])
  }

  // ----- what every run keeps

  ghost predicate RowConsistent(row: UserRow, now: int) {
    && (row.active <==> row.deletedAt == None)
    && (row.deletedAt.Some? ==> row.deletedAt.value <= now)
  }

  ghost predicate Consistent(s: Clocked) {
    DbOk(s.db) && forall u :: u in s.db.users ==> RowConsistent(s.db.users[u], s.now)
  }

  // Setting a user row and linking a provider id to it.
  function Enrolled(db: Db, user: nat, row: UserRow, providerId: string): Db {
    db.(users := db.users[user := row], links := db.links[providerId := user],
        nextUser := if user < db.nextUser then db.nextUser else user + 1)
  }

  lemma EnrolledOk(db: Db, user: nat, row: UserRow, providerId: string)
    requires DbOk(db) && user <= db.nextUser && NormalizeEmail(row.email) == row.email
    requires if user in db.users then row.email == db.users[user].email else !EmailTaken(db, row.email)
    requires providerId in db.links ==> db.links[providerId] == user
    ensures DbOk(Enrolled(db, user, row, providerId)) && Grows(db, Enrolled(db, user, row, providerId))
  {
    hide NormalizeEmail, EmailTaken, DistinctEmails;
    var next := if user < db.nextUser then db.nextUser else user + 1;
    var d := db.(nextUser := next);
    RaiseNext(db, next);
    SetUserOk(d, user, row);
    var t := d.(users := d.users[user := row]);
    if providerId in db.links {
      assert db.links[providerId := user] == db.links;
      assert Enrolled(db, user, row, providerId) == t;
    } else {
      SetLinkOk(t, providerId, user);
    }
  }

  // Login leaves everything as it is or enrolls one user.
  lemma LoginEnrolls(db: Db, account: Account, now: int)
    requires DbOk(db)
    ensures
      var (t, outcome) := Login(db, account, now);
      if outcome == None then t == db
      else
        var (user, isNew) := outcome.value;
        && user in t.users
        && t == Enrolled(db, user, t.users[user], account.providerId)
        && (account.providerId in db.links ==> db.links[account.providerId] == user)
        && (if isNew then
              user == db.nextUser && t.users[user] == NewUser(account) && !EmailTaken(db, NormalizeEmail(account.email))
            else
              && user in db.users
              && (db.users[user].active || Recoverable(db.users[user], now))
              && t.users[user] == if db.users[user].active then db.users[user] else Recovered(db.users[user]))
  {
    hide NormalizeEmail, DistinctEmails, Recoverable;
  }

  lemma LoginConsistent(db: Db, account: Account, now: int)
    requires Consistent(Clocked(db, now))
    ensures Consistent(Clocked(Login(db, account, now).0, now))
  {
    LoginEnrolls(db, account, now);
    NormalizeIdempotent(account.email);
    hide Login, NormalizeEmail, EmailTaken, DbOk, Grows, Enrolled, Recoverable;
    var (t, outcome) := Login(db, account, now);
    if outcome != None {
      var user := outcome.value.0;
      NormalOf(db, user);
      EnrolledOk(db, user, t.users[user], account.providerId);
      RowsAfterEnrolling(db, user, t.users[user], account.providerId, now);
    }
  }

  lemma RowsAfterEnrolling(db: Db, user: nat, row: UserRow, providerId: string, now: int)
    requires (forall u :: u in db.users ==> RowConsistent(db.users[u], now)) && RowConsistent(row, now)
    ensures
      var t := Enrolled(db, user, row, providerId);
      forall u :: u in t.users ==> RowConsistent(t.users[u], now)
  {
  }

  lemma NormalOf(db: Db, user: nat)
    requires DbOk(db)
    ensures
      if user in db.users then user < db.nextUser && NormalizeEmail(db.users[user].email) == db.users[user].email
      else true
  {
  }

  lemma PurgeOk(db: Db, now: int)
    requires DbOk(db)
    ensures DbOk(Purged(db, now))
  {
    hide NormalizeEmail;
    var t := Purged(db, now);
    assert forall u :: u in t.users ==> u in db.users && t.users[u] == db.users[u];
  }

  lemma WithdrawalOk(db: Db, user: nat, now: int)
    requires DbOk(db) && user in db.users
    ensures DbOk(db.(users := db.users[user := Withdrawn(db.users[user], now)]))
  {
    NormalOf(db, user);
    SetUserOk(db, user, Withdrawn(db.users[user], now));
  }

  lemma LiveConsistent(s: Clocked, h: Happening)
    requires Consistent(s)
    ensures Consistent(Live(s, h))
  {
    hide DbOk, Login;
    match h
    case LogIn(account, fails) => LoginConsistent(s.db, account, s.now);
    case Leave(user, reason) =>
      if user in s.db.users {
        WithdrawalOk(s.db, user, s.now);
      }
    case Purge => PurgeOk(s.db, s.now);
    case Tick(elapsed) =>
  }

  // A user is active exactly when there is no withdrawal date, over every run.
  lemma {:induction false} LivesConsistent(s: Clocked, hs: seq<Happening>)
    requires Consistent(s)
    ensures Consistent(Lives(s, hs))
    decreases |hs|
  {
    hide Consistent, Live;
    if hs != [] {
      LiveConsistent(s, hs[0]);
      LivesConsistent(Live(s, hs[0]), hs[1..]);
    }
  }

  // A withdrawn user is at each instant recoverable or purgeable, and never both; an active one is neither.
  lemma RecoverableOrPurgeable(s: Clocked, hs: seq<Happening>, user: nat)
    requires Consistent(s)
    ensures
      var t := Lives(s, hs);
      user in t.db.users ==>
        var row := t.db.users[user];
        && (row.active <==> row.deletedAt == None)
        && (row.active ==> !Recoverable(row, t.now) && !Purgeable(row, t.now))
        && (!row.active ==>
              var fourteenDays := 14 * 24 * 3600 * 1_000_000;
              && (Recoverable(row, t.now) <==> t.now - row.deletedAt.value <= fourteenDays)
              && (Purgeable(row, t.now) <==> t.now - row.deletedAt.value > fourteenDays))
  {
    LivesConsistent(s, hs);
  }

  // ----- within the window

  // The user is there, linked, and active or withdrawn no earlier than `since`.
  ghost predicate Held(db: Db, user: nat, providerId: string, since: int) {
    && user in db.users
    && providerId in db.links && db.links[providerId] == user
    && (db.users[user].active || (db.users[user].deletedAt.Some? && db.users[user].deletedAt.value >= since))
  }

  lemma LiveHeld(s: Clocked, h: Happening, user: nat, providerId: string, since: int)
    requires Consistent(s) && Held(s.db, user, providerId, since)
    requires since <= s.now && Live(s, h).now <= since + RECOVERY_WINDOW_DAYS * DAY
    ensures Held(Live(s, h).db, user, providerId, since)
  {
    hide Login, NormalizeEmail, DbOk, EmailTaken, Purged, Withdrawal, Held;
    match h
    case LogIn(account, fails) => LoginHeld(s.db, account, s.now, user, providerId, since);
    case Leave(other, reason) =>
      if other in s.db.users {
        WithdrawalHeld(s.db, other, reason, s.now, user, providerId, since);
      }
    case Purge => PurgeHeld(s.db, s.now, user, providerId, since);
    case Tick(elapsed) =>
  }

  lemma LoginHeld(db: Db, account: Account, now: int, user: nat, providerId: string, since: int)
    requires DbOk(db) && Held(db, user, providerId, since)
    ensures Held(Login(db, account, now).0, user, providerId, since)
  {
    hide Login, NormalizeEmail, DbOk, EmailTaken;
    LoginEnrolls(db, account, now);
    NormalOf(db, user);
  }

  lemma WithdrawalHeld(db: Db, other: nat, reason: Reason, now: int, user: nat, providerId: string, since: int)
    requires other in db.users && Held(db, user, providerId, since) && since <= now
    ensures var r := Withdrawal(db, other, reason, now); r.Ok? ==> Held(r.value, user, providerId, since)
  {
  }

  lemma PurgeHeld(db: Db, now: int, user: nat, providerId: string, since: int)
    requires Held(db, user, providerId, since) && now <= since + RECOVERY_WINDOW_DAYS * DAY
    ensures Held(Purged(db, now), user, providerId, since)
  {
  }

  lemma {:induction false} ClockAdvances(s: Clocked, hs: seq<Happening>)
    ensures s.now <= Lives(s, hs).now
    decreases |hs|
  {
    hide Login, Purged, Withdrawal;
    if hs != [] {
      ClockAdvances(Live(s, hs[0]), hs[1..]);
    }
  }

  lemma {:induction false} LivesHeld(s: Clocked, hs: seq<Happening>, user: nat, providerId: string, since: int)
    requires Consistent(s) && Held(s.db, user, providerId, since)
    requires since <= s.now && Lives(s, hs).now <= since + RECOVERY_WINDOW_DAYS * DAY
    ensures Held(Lives(s, hs).db, user, providerId, since)
    decreases |hs|
  {
    if hs != [] {
      ClockAdvances(s, hs[..1]);
      ClockAdvances(Live(s, hs[0]), hs[1..]);
      LiveNow(s, hs[0]);
      LiveConsistent(s, hs[0]);
      hide Consistent, Held, Live;
      LiveHeld(s, hs[0], user, providerId, since);
      LivesHeld(Live(s, hs[0]), hs[1..], user, providerId, since);
    }
  }

  lemma LiveNow(s: Clocked, h: Happening)
    ensures s.now <= Live(s, h).now
  {
  }

  /** Up to 14 days after a withdrawal, whatever purges, logins and withdrawals came in between, a login of the
  account gives the same user, active again. */
  lemma LoginRestores(s: Clocked, hs: seq<Happening>, account: Account, user: nat)
    requires Consistent(s) && user in s.db.users && !s.db.users[user].active
    requires account.providerId in s.db.links && s.db.links[account.providerId] == user
    requires Lives(s, hs).now <= s.db.users[user].deletedAt.value + RECOVERY_WINDOW_DAYS * DAY
    ensures
      var t := Lives(s, hs);
      var (db, outcome) := Login(t.db, account, t.now);
      && outcome == Some((user, false))
      && user in db.users && db.users[user].active && db.users[user].deletedAt == None
  {
    hide Login, Lives, DbOk;
    var since, t := s.db.users[user].deletedAt.value, Lives(s, hs);
    ClockAdvances(s, hs);
    LivesHeld(s, hs, user, account.providerId, since);
    LivesConsistent(s, hs);
    HeldLoginRestores(t.db, account, t.now, user, since);
  }

  lemma HeldLoginRestores(db: Db, account: Account, now: int, user: nat, since: int)
    requires Held(db, user, account.providerId, since) && now <= since + RECOVERY_WINDOW_DAYS * DAY
    requires user in db.users && RowConsistent(db.users[user], now)
    ensures
      var (after, outcome) := Login(db, account, now);
      && outcome == Some((user, false))
      && user in after.users && after.users[user].active && after.users[user].deletedAt == None
  {
    hide NormalizeEmail, EmailTaken;
  }

  // ----- after the window

  // Gone, or as it was.
  ghost predicate Frozen(db: Db, user: nat, row: UserRow) {
    && user < db.nextUser
    && (user in db.users ==> db.users[user] == row)
  }

  lemma LiveFrozen(s: Clocked, h: Happening, user: nat, row: UserRow)
    requires Consistent(s) && Frozen(s.db, user, row) && !row.active && !Recoverable(row, s.now)
    ensures Frozen(Live(s, h).db, user, row) && !Recoverable(row, Live(s, h).now)
    ensures h.LogIn? && Login(s.db, h.account, s.now).1.Some? ==> Login(s.db, h.account, s.now).1.value.0 != user
  {
    hide Login, NormalizeEmail, DbOk, EmailTaken, Purged, Withdrawal, Frozen;
    match h
    case LogIn(account, fails) => LoginFrozen(s.db, account, s.now, user, row);
    case Leave(other, reason) =>
      if other in s.db.users {
        WithdrawalFrozen(s.db, other, reason, s.now, user, row);
      }
    case Purge => PurgeFrozen(s.db, s.now, user, row);
    case Tick(elapsed) =>
  }

  lemma LoginFrozen(db: Db, account: Account, now: int, user: nat, row: UserRow)
    requires DbOk(db) && Frozen(db, user, row) && !row.active && !Recoverable(row, now)
    ensures Frozen(Login(db, account, now).0, user, row)
    ensures Login(db, account, now).1.Some? ==> Login(db, account, now).1.value.0 != user
  {
    hide Login, NormalizeEmail, DbOk, EmailTaken;
    LoginEnrolls(db, account, now);
  }

  lemma WithdrawalFrozen(db: Db, other: nat, reason: Reason, now: int, user: nat, row: UserRow)
    requires other in db.users && Frozen(db, user, row) && !row.active
    ensures var r := Withdrawal(db, other, reason, now); r.Ok? ==> Frozen(r.value, user, row)
  {
  }

  lemma PurgeFrozen(db: Db, now: int, user: nat, row: UserRow)
    requires Frozen(db, user, row)
    ensures Frozen(Purged(db, now), user, row)
  {
  }

  /** Once the window is over, no run brings the account back: its row stays as it is until it is purged, its id
  is never given to anyone, and no login returns it. */
  lemma {:induction false} NeverReactivated(s: Clocked, hs: seq<Happening>, account: Account, user: nat, row: UserRow)
    requires Consistent(s) && Frozen(s.db, user, row) && !row.active && !Recoverable(row, s.now)
    ensures
      var t := Lives(s, hs);
      && Frozen(t.db, user, row)
      && !Recoverable(row, t.now)
      && (Login(t.db, account, t.now).1.Some? ==> Login(t.db, account, t.now).1.value.0 != user)
    decreases |hs|
  {
    if hs == [] {
      LiveFrozen(s, LogIn(account, false), user, row);
    } else {
      LiveConsistent(s, hs[0]);
      LiveFrozen(s, hs[0], user, row);
      hide Consistent, Frozen, Live, Login, Recoverable;
      NeverReactivated(Live(s, hs[0]), hs[1..], account, user, row);
    }
  }

  // The first purge after the window removes the account and every link to it.
  lemma PurgeRemoves(s: Clocked, user: nat)
    requires Consistent(s) && user in s.db.users && !s.db.users[user].active
    requires !Recoverable(s.db.users[user], s.now)
    ensures
      var t := Live(s, Purge);
      && user !in t.db.users
      && (forall pid :: pid in t.db.links ==> t.db.links[pid] != user)
      && forall pid :: pid in s.db.links && s.db.links[pid] in t.db.users ==> pid in t.db.links
  {
  }

  // ----- the service

  class AccountService {
    var users: map<nat, UserRow>
    var links: map<string, nat>
    var nextUser: nat

    ghost function Abs(): Db
      reads this
    {
      Db(users, links, nextUser)
    }

    constructor ()
      ensures Abs() == Db(map[], map[], 0)
    {
      users, links, nextUser := map[], map[], 0;
    }

    // None where the service raises AlreadyWithdrawnError.
    method RecoverOrRaise(user: nat, now: int) returns (recovered: Option<nat>)
      requires user in users
      modifies `users
      ensures recovered == if Recoverable(old(users[user]), now) then Some(user) else None
      ensures users == if recovered.Some? then old(users)[user := Recovered(old(users[user]))] else old(users)
    {
      var row := users[user];
      if row.deletedAt.Some? && now <= row.deletedAt.value + RECOVERY_WINDOW_DAYS * DAY {
        users := users[user := row.(active := true, deletedAt := None)];
        return Some(user);
      }
      return None;
    }

    // The user and whether it is new; None when the login raises, with its transaction rolled back.
    method GetOrCreateUser(account: Account, now: int) returns (r: Option<(nat, bool)>)
      requires DbOk(Abs())
      modifies this
      ensures (Abs(), r) == Login(old(Abs()), account, now)
    {
      hide NormalizeEmail;
      if account.providerId in links {
        var user := links[account.providerId];
        assert links[account.providerId := user] == links;
        assert users[user := users[user]] == users;
        if !users[user].active {
          var recovered := RecoverOrRaise(user, now);
          return if recovered.Some? then Some((user, false)) else None;
        }
        return Some((user, false));
      }
      if !EmailTaken(Db(users, links, nextUser), NormalizeEmail(account.email)) {
        assert UserByEmail(Abs(), account.email) == None;
        var user := nextUser;
        users := users[user := NewUser(account)];
        links := links[account.providerId := user];
        nextUser := nextUser + 1;
        return Some((user, true));
      }
      r := LinkByEmail(account, now);
    }

    // The branch taken when the e-mail is already in use.
    method LinkByEmail(account: Account, now: int) returns (r: Option<(nat, bool)>)
      requires DbOk(Abs()) && account.providerId !in links && EmailTaken(Abs(), NormalizeEmail(account.email))
      modifies this
      ensures (Abs(), r) == Login(old(Abs()), account, now)
    {
      hide NormalizeEmail;
      if !EmailTaken(Db(users, links, nextUser), account.email) {
        return None;
      }
      var user :| user in users && users[user].email == account.email;
      assert UserByEmail(Abs(), account.email) == Some(user);
      assert users[user := users[user]] == users;
      if !users[user].active {
        var recovered := RecoverOrRaise(user, now);
        if recovered.None? {
          return None;
        }
      }
      links := links[account.providerId := user];
      return Some((user, false));
    }

    method WithdrawUser(user: nat, reason: Reason, now: int) returns (r: Result<(), WithdrawError>)
      requires user in users
      modifies `users
      ensures
        var was := Withdrawal(old(Abs()), user, reason, now);
        if was.Ok? then r == Ok(()) && Abs() == was.value else r == Err(was.error) && Abs() == old(Abs())
    {
      if reason.Unlisted? {
        return Err(InvalidWithdrawReason);
      }
      if !users[user].active {
        return Err(AlreadyWithdrawn);
      }
      users := users[user := users[user].(active := false, deletedAt := Some(now))];
      return Ok(());
    }

    // The rows deleted, cascaded ones included, as far as they are modelled here.
    method PurgeWithdrawnUsers(now: int) returns (deleted: nat)
      modifies `users, `links
      ensures Abs() == Purged(old(Abs()), now)
      ensures deleted == |old(users).Keys - users.Keys| + |old(links).Keys - links.Keys|
    {
      var usersBefore, linksBefore := users.Keys, links.Keys;
      users := Remaining(users, now);
      links := map pid | pid in links && links[pid] in users :: links[pid];
      deleted := |usersBefore - users.Keys| + |linksBefore - links.Keys|;
    }
  }
}
