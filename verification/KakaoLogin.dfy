/** Concurrent Kakao logins over a database with unique e-mails and unique provider ids.

Every login runs in its own transaction at READ COMMITTED. A step is one database statement; the schedule
chooses which login moves next and at what time, whether a generated nickname collides, and when a login is
aborted. An insert waits while another transaction holds an uncommitted
row with the same key.
 */
module KakaoLogin {
  import opened Common
  import Patterns

  // ----- e-mail normalisation

  function LastAt(s: string): (k: nat)
    requires '@' in s
    ensures k < |s| && s[k] == '@' && '@' !in s[k + 1..]
  {
    if s[|s| - 1] == '@' then |s| - 1
    else
      assert s == s[..|s| - 1] + [s[|s| - 1]];
      LastAt(s[..|s| - 1])
  }

  function LowerChar(c: char): char {
    if 'A' <= c <= 'Z' then c - 'A' + 'a' else c
  }

  function Lower(s: string): (r: string)
    ensures |r| == |s| && forall i :: 0 <= i < |s| ==> r[i] == LowerChar(s[i])
  {
    seq(|s|, i requires 0 <= i < |s| => LowerChar(s[i]))
  }

  // Surrounding whitespace goes and the domain is lower-cased; a text without `@` is left alone.
  function NormalizeEmail(email: string): string {
    var s := Patterns.Strip(email);
    if '@' !in s then email else s[..LastAt(s) + 1] + Lower(s[LastAt(s) + 1..])
  }

  lemma LastAtUnique(s: string, k: nat)
    requires k < |s| && s[k] == '@' && forall j :: k < j < |s| ==> s[j] != '@'
    ensures '@' in s && LastAt(s) == k
  {
    var l := LastAt(s);
    forall j | l < j < |s|
      ensures s[j] != '@'
    {
      assert s[j] == s[l + 1..][j - l - 1];
    }
  }

  lemma NormalizeTidy(r: string, k: nat)
    requires k < |r| && r[k] == '@' && !Patterns.IsSpace(r[0]) && !Patterns.IsSpace(r[|r| - 1])
    requires forall j :: k < j < |r| ==> r[j] != '@' && LowerChar(r[j]) == r[j]
    ensures NormalizeEmail(r) == r
  {
    hide Patterns.Strip, Patterns.IsSpace, LastAt;
    Patterns.StripTidy(r);
    LastAtUnique(r, k);
    assert Lower(r[k + 1..]) == r[k + 1..];
  }

  lemma LowerFacts(c: char)
    ensures LowerChar(LowerChar(c)) == LowerChar(c)
    ensures c != '@' ==> LowerChar(c) != '@'
    ensures !Patterns.IsSpace(c) ==> !Patterns.IsSpace(LowerChar(c))
  {
  }

  lemma LoweredDomain(s: string, k: nat)
    requires k < |s| && s[k] == '@' && '@' !in s[k + 1..]
    requires !Patterns.IsSpace(s[0]) && !Patterns.IsSpace(s[|s| - 1])
    ensures NormalizeEmail(s[..k + 1] + Lower(s[k + 1..])) == s[..k + 1] + Lower(s[k + 1..])
  {
    hide Patterns.Strip, Patterns.IsSpace, LastAt, LowerChar, NormalizeEmail;
    var r := s[..k + 1] + Lower(s[k + 1..]);
    forall j | k < j < |r|
      ensures r[j] != '@' && LowerChar(r[j]) == r[j]
    {
      assert s[j] == s[k + 1..][j - k - 1];
      LowerFacts(s[j]);
    }
    LowerFacts(s[|s| - 1]);
    NormalizeTidy(r, k);
  }

  lemma NormalizeForm(email: string)
    ensures
      var s := Patterns.Strip(email);
      if '@' !in s then NormalizeEmail(email) == email
      else NormalizeEmail(email) == s[..LastAt(s) + 1] + Lower(s[LastAt(s) + 1..])
  {
    hide Patterns.Strip, Lower;
  }

  lemma NormalizeIdempotent(email: string)
    ensures NormalizeEmail(NormalizeEmail(email)) == NormalizeEmail(email)
  {
    hide Patterns.Strip, Patterns.PartOf, Patterns.IsSpace, LastAt, Lower, NormalizeEmail;
    var s := Patterns.Strip(email);
    NormalizeForm(email);
    if '@' in s {
      Patterns.StripFacts(email);
      LoweredDomain(s, LastAt(s));
    }
  }

  // ----- the database and the logins

  // Times are in microseconds.
  datatype UserRow = UserRow(email: string, active: bool, deletedAt: Option<int>)

  const RECOVERY_WINDOW_DAYS := 14
  const DAY := 86_400_000_000

  function NewUser(account: Account): UserRow {
    UserRow(NormalizeEmail(account.email), true, None)
  }

  function Recovered(row: UserRow): UserRow {
    row.(active := true, deletedAt := None)
  }

  function Withdrawn(row: UserRow, now: int): UserRow {
    row.(active := false, deletedAt := Some(now))
  }

  predicate Recoverable(row: UserRow, now: int) {
    row.deletedAt.Some? && now <= row.deletedAt.value + RECOVERY_WINDOW_DAYS * DAY
  }

  // Committed rows; `links` maps the provider ids to the users they are linked to.
  datatype Db = Db(users: map<nat, UserRow>, links: map<string, nat>, nextUser: nat)

  // What Kakao reports of the person logging in.
  datatype Account = Account(providerId: string, email: string)

  /** Where a login stands: before its first read; about to insert a user; with its user inserted and the link
  still to come; after an integrity error; before the look-up by e-mail; about to link an existing user; with
  nothing left but to commit (`links` and `recovers` tell its uncommitted writes); finished. */
  datatype Phase =
    | Start
    | Inserting
    | UserInserted(user: nat)
    | Conflicted
    | ByEmail
    | Linking(user: nat, recovers: bool)
    | Committing(user: nat, isNew: bool, links: bool, recovers: bool)
    | Returned(user: nat, isNew: bool)
    | Raised

  datatype State = State(db: Db, phases: seq<Phase>)

  datatype Event =
    | Advance(login: nat, nicknameTaken: bool, now: int)
    | Abort(login: nat)
    | Withdraw(user: nat, now: int)
    | Register(email: string)

  predicate HoldsUser(p: Phase) {
    p.UserInserted? || (p.Committing? && p.isNew)
  }

  predicate HoldsLink(p: Phase) {
    p.Committing? && p.links
  }

  predicate EmailTaken(db: Db, email: string) {
    exists u :: u in db.users && db.users[u].email == email
  }

  // The user holding the e-mail, if any.
  ghost function UserByEmail(db: Db, email: string): (r: Option<nat>)
    ensures r.Some? ==> r.value in db.users && db.users[r.value].email == email
    ensures r.None? ==> !EmailTaken(db, email)
  {
    if EmailTaken(db, email) then
      var u :| u in db.users && db.users[u].email == email;
      Some(u)
    else None
  }

  // Another login's uncommitted row with this e-mail.
  ghost predicate EmailPending(accounts: seq<Account>, phases: seq<Phase>, email: string)
    requires |accounts| == |phases|
  {
    exists j :: 0 <= j < |phases| && HoldsUser(phases[j]) && NormalizeEmail(accounts[j].email) == email
  }

  ghost predicate LinkPending(accounts: seq<Account>, phases: seq<Phase>, providerId: string)
    requires |accounts| == |phases|
  {
    exists j :: 0 <= j < |phases| && HoldsLink(phases[j]) && accounts[j].providerId == providerId
  }

  // ----- the statements of a login

  // Both look-ups by provider id; `otherwise` is where the login goes when there is no link.
  function FindLink(db: Db, account: Account, now: int, otherwise: Phase): Phase {
    if account.providerId !in db.links || db.links[account.providerId] !in db.users then otherwise
    else
      var user := db.links[account.providerId];
      if db.users[user].active then Committing(user, false, false, false)
      else if Recoverable(db.users[user], now) then Committing(user, false, false, true)
      else Raised
  }

  ghost function FindEmail(db: Db, account: Account, now: int): Phase {
    var found := UserByEmail(db, account.email);
    if found.None? then Raised
    else if db.users[found.value].active then Linking(found.value, false)
    else if Recoverable(db.users[found.value], now) then Linking(found.value, true)
    else Raised
  }

  // The integrity error of a second link is swallowed for an active user and raised for a recovered one.
  function LinkExisting(db: Db, account: Account, user: nat, recovers: bool, waits: bool): Phase {
    if account.providerId in db.links then
      if recovers then Raised else Committing(user, false, false, false)
    else if waits then Linking(user, recovers)
    else Committing(user, false, true, recovers)
  }

  function Commit(db: Db, account: Account, p: Phase): Db
    requires p.Committing?
  {
    var users :=
      if p.isNew then db.users[p.user := NewUser(account)]
      else if p.recovers && p.user in db.users then db.users[p.user := Recovered(db.users[p.user])]
      else db.users;
    db.(users := users, links := if p.links then db.links[account.providerId := p.user] else db.links)
  }

  ghost function NextPhase(db: Db, accounts: seq<Account>, phases: seq<Phase>, e: Event): Phase
    requires e.Advance? && |accounts| == |phases| && e.login < |phases|
  {
    var account, p := accounts[e.login], phases[e.login];
    match p
    case Start => FindLink(db, account, e.now, Inserting)
    case Inserting =>
      var email := NormalizeEmail(account.email);
      if e.nicknameTaken || EmailTaken(db, email) then Conflicted
      else if EmailPending(accounts, phases, email) then Inserting
      else UserInserted(db.nextUser)
    case UserInserted(user) =>
      if account.providerId in db.links then Conflicted
      else if LinkPending(accounts, phases, account.providerId) then p
      else Committing(user, true, true, false)
    case Conflicted => FindLink(db, account, e.now, ByEmail)
    case ByEmail => FindEmail(db, account, e.now)
    case Linking(user, recovers) =>
      LinkExisting(db, account, user, recovers, LinkPending(accounts, phases, account.providerId))
    case Committing(user, isNew, _, _) => Returned(user, isNew)
    case Returned(_, _) => p
    case Raised => p
  }

  // User ids come from a sequence, so an id is never given out twice.
  function NextDb(db: Db, account: Account, before: Phase, after: Phase): Db {
    if before.Committing? then Commit(db, account, before)
    else if before.Inserting? && after.UserInserted? then db.(nextUser := db.nextUser + 1)
    else db
  }

  ghost function Step(accounts: seq<Account>, s: State, e: Event): (t: State)
    requires |accounts| == |s.phases|
    ensures |t.phases| == |s.phases|
  {
    match e
    case Advance(i, _, _) =>
      if i >= |s.phases| then s
      else
        var after := NextPhase(s.db, accounts, s.phases, e);
        State(NextDb(s.db, accounts[i], s.phases[i], after), s.phases[i := after])
    case Abort(i) =>
      if i >= |s.phases| || s.phases[i].Returned? then s else s.(phases := s.phases[i := Raised])
    case Withdraw(u, now) =>
      if u !in s.db.users || !s.db.users[u].active then s
      else s.(db := s.db.(users := s.db.users[u := Withdrawn(s.db.users[u], now)]))
    case Register(raw) =>
      var email := NormalizeEmail(raw);
      if EmailTaken(s.db, email) || EmailPending(accounts, s.phases, email) then s
      else
        s.(db := s.db.(users := s.db.users[s.db.nextUser := UserRow(email, true, None)],
                       nextUser := s.db.nextUser + 1))
  }

  ghost function Run(accounts: seq<Account>, s: State, events: seq<Event>): (t: State)
    requires |accounts| == |s.phases|
    ensures |t.phases| == |s.phases|
    decreases |events|
  {
    if events == [] then s else Run(accounts, Step(accounts, s, events[0]), events[1..])
  }

  // ----- the invariant

  // A provider id belongs to one person, who keeps one e-mail.
  ghost predicate Fixed(accounts: seq<Account>) {
    forall i, j :: 0 <= i < |accounts| && 0 <= j < |accounts| && accounts[i].providerId == accounts[j].providerId ==>
      accounts[i] == accounts[j]
  }

  ghost predicate DistinctEmails(db: Db) {
    forall u, v :: u in db.users && v in db.users && db.users[u].email == db.users[v].email ==> u == v
  }

  ghost predicate DbOk(db: Db) {
    && DistinctEmails(db)
    && (forall u :: u in db.users ==> u < db.nextUser && NormalizeEmail(db.users[u].email) == db.users[u].email)
    && forall pid :: pid in db.links ==> db.links[pid] in db.users
  }

  // The login has found no link at its first read.
  predicate PastRead(p: Phase) {
    p.Inserting? || p.UserInserted? || p.Conflicted? || p.ByEmail? || p.Linking?
  }

  ghost predicate HoldsEmail(db: Db, user: nat, account: Account) {
    user in db.users && db.users[user].email == NormalizeEmail(account.email)
  }

  // A link that was not there in the beginning goes to the user with the account's e-mail.
  ghost predicate LinkOk(start: map<string, nat>, db: Db, account: Account) {
    && (account.providerId in start ==> account.providerId in db.links)
    && (account.providerId in db.links && account.providerId !in start ==>
          HoldsEmail(db, db.links[account.providerId], account))
  }

  ghost predicate LinkedTo(db: Db, account: Account, user: nat) {
    account.providerId in db.links && db.links[account.providerId] == user
  }

  ghost predicate FreshUser(db: Db, user: nat, account: Account) {
    user !in db.users && user < db.nextUser && !EmailTaken(db, NormalizeEmail(account.email))
  }

  ghost predicate PhaseOk(start: map<string, nat>, db: Db, account: Account, p: Phase) {
    && (PastRead(p) ==> account.providerId !in start)
    && match p
       case UserInserted(user) => FreshUser(db, user, account)
       case Linking(user, _) => HoldsEmail(db, user, account)
       case Committing(user, isNew, links, recovers) =>
         && (if isNew then links && FreshUser(db, user, account) else user in db.users)
         && (if links then account.providerId !in db.links && account.providerId !in start
             else LinkedTo(db, account, user))
         && (links && !isNew ==> HoldsEmail(db, user, account))
       case Returned(user, isNew) => LinkedTo(db, account, user) && (isNew ==> HoldsEmail(db, user, account))
       case _ => true
  }

  // The id of the user a login has created.
  predicate Creates(p: Phase, user: nat) {
    || (p.UserInserted? && p.user == user)
    || (p.Committing? && p.isNew && p.user == user)
    || (p.Returned? && p.isNew && p.user == user)
  }

  ghost predicate PairOk(a: Account, p: Phase, b: Account, q: Phase) {
    && (HoldsUser(p) && HoldsUser(q) ==> NormalizeEmail(a.email) != NormalizeEmail(b.email))
    && (HoldsLink(p) && HoldsLink(q) ==> a.providerId != b.providerId)
    && forall u :: !(Creates(p, u) && Creates(q, u))
  }

  ghost predicate PairsOk(accounts: seq<Account>, phases: seq<Phase>)
    requires |accounts| == |phases|
  {
    forall i, j :: 0 <= i < |phases| && 0 <= j < |phases| && i != j ==>
      PairOk(accounts[i], phases[i], accounts[j], phases[j])
  }

  ghost predicate PhasesOk(accounts: seq<Account>, start: map<string, nat>, s: State)
    requires |accounts| == |s.phases|
  {
    forall i :: 0 <= i < |s.phases| ==>
      LinkOk(start, s.db, accounts[i]) && PhaseOk(start, s.db, accounts[i], s.phases[i])
  }

  ghost predicate Inv(accounts: seq<Account>, start: map<string, nat>, s: State)
    requires |accounts| == |s.phases|
  {
    DbOk(s.db) && PhasesOk(accounts, start, s) && PairsOk(accounts, s.phases)
  }

  // ----- every step keeps the invariant

  // Users keep their e-mails and links their targets.
  ghost predicate Grows(db: Db, t: Db) {
    && db.nextUser <= t.nextUser
    && (forall u :: u in db.users ==> u in t.users && t.users[u].email == db.users[u].email)
    && forall pid :: pid in db.links ==> pid in t.links && t.links[pid] == db.links[pid]
  }

  // What a login holds uncommitted is not yet in the database.
  ghost predicate Clear(t: Db, account: Account, p: Phase) {
    && (HoldsUser(p) ==> p.user !in t.users && !EmailTaken(t, NormalizeEmail(account.email)))
    && (HoldsLink(p) ==> account.providerId !in t.links)
  }

  lemma PhaseKept(start: map<string, nat>, db: Db, t: Db, account: Account, p: Phase)
    requires PhaseOk(start, db, account, p) && Grows(db, t) && Clear(t, account, p)
    ensures PhaseOk(start, t, account, p)
  {
    hide NormalizeEmail, EmailTaken;
  }

  lemma FindLinkOk(start: map<string, nat>, db: Db, account: Account, now: int, otherwise: Phase)
    requires DbOk(db) && LinkOk(start, db, account) && (otherwise.Inserting? || otherwise.ByEmail?)
    ensures PhaseOk(start, db, account, FindLink(db, account, now, otherwise))
  {
    hide NormalizeEmail;
  }

  lemma FindEmailOk(start: map<string, nat>, db: Db, account: Account, now: int)
    requires DbOk(db) && account.providerId !in start
    ensures PhaseOk(start, db, account, FindEmail(db, account, now))
  {
    hide NormalizeEmail, DistinctEmails;
  }

  lemma LinkExistingOk(start: map<string, nat>, db: Db, account: Account, user: nat, recovers: bool, waits: bool)
    requires DbOk(db) && LinkOk(start, db, account) && HoldsEmail(db, user, account)
    requires account.providerId !in start
    ensures PhaseOk(start, db, account, LinkExisting(db, account, user, recovers, waits))
  {
    hide NormalizeEmail;
    if account.providerId in db.links {
      assert db.links[account.providerId] == user;
    }
  }

  lemma InsertsOk(start: map<string, nat>, accounts: seq<Account>, s: State, e: Event)
    requires |accounts| == |s.phases| && e.Advance? && e.login < |s.phases|
    requires s.phases[e.login].Inserting? || s.phases[e.login].UserInserted?
    requires DbOk(s.db) && PhaseOk(start, s.db, accounts[e.login], s.phases[e.login])
    ensures
      var after := NextPhase(s.db, accounts, s.phases, e);
      PhaseOk(start, NextDb(s.db, accounts[e.login], s.phases[e.login], after), accounts[e.login], after)
  {
    hide NormalizeEmail, DistinctEmails, EmailPending, LinkPending;
  }

  // The phase a login moves to is justified by the database it moves in.
  lemma MoverOk(start: map<string, nat>, accounts: seq<Account>, s: State, e: Event)
    requires |accounts| == |s.phases| && e.Advance? && e.login < |s.phases|
    requires !s.phases[e.login].Committing?
    requires DbOk(s.db) && LinkOk(start, s.db, accounts[e.login])
    requires PhaseOk(start, s.db, accounts[e.login], s.phases[e.login])
    ensures
      var after := NextPhase(s.db, accounts, s.phases, e);
      PhaseOk(start, NextDb(s.db, accounts[e.login], s.phases[e.login], after), accounts[e.login], after)
  {
    hide NormalizeEmail, FindLink, FindEmail, LinkExisting, DbOk, LinkOk, Commit;
    var account, p := accounts[e.login], s.phases[e.login];
    match p
    case Start => FindLinkOk(start, s.db, account, e.now, Inserting);
    case Conflicted => FindLinkOk(start, s.db, account, e.now, ByEmail);
    case ByEmail => FindEmailOk(start, s.db, account, e.now);
    case Linking(user, recovers) =>
      LinkExistingOk(start, s.db, account, user, recovers, LinkPending(accounts, s.phases, account.providerId));
    case Inserting => InsertsOk(start, accounts, s, e);
    case UserInserted(_) => InsertsOk(start, accounts, s, e);
    case _ =>
  }

  lemma PhaseClear(start: map<string, nat>, db: Db, account: Account, p: Phase)
    requires PhaseOk(start, db, account, p)
    ensures Clear(db, account, p)
  {
    hide NormalizeEmail;
  }

  // A user row whose e-mail is new, or the same as before, keeps e-mails distinct and normal.
  lemma SetUserOk(db: Db, user: nat, row: UserRow)
    requires DbOk(db) && user < db.nextUser && NormalizeEmail(row.email) == row.email
    requires if user in db.users then row.email == db.users[user].email else !EmailTaken(db, row.email)
    ensures DbOk(db.(users := db.users[user := row])) && Grows(db, db.(users := db.users[user := row]))
  {
    hide NormalizeEmail, DistinctEmails, EmailTaken;
    SetUserDistinct(db, user, row);
  }

  lemma SetUserDistinct(db: Db, user: nat, row: UserRow)
    requires DistinctEmails(db)
    requires if user in db.users then row.email == db.users[user].email else !EmailTaken(db, row.email)
    ensures DistinctEmails(db.(users := db.users[user := row]))
  {
    assert forall u :: u in db.users && db.users[u].email == row.email ==> u == user;
  }

  lemma SetLinkOk(db: Db, providerId: string, user: nat)
    requires DbOk(db) && providerId !in db.links && user in db.users
    ensures DbOk(db.(links := db.links[providerId := user])) && Grows(db, db.(links := db.links[providerId := user]))
  {
    hide NormalizeEmail, DistinctEmails;
    assert DistinctEmails(db.(links := db.links[providerId := user])) by {
      SameUsersDistinct(db, db.(links := db.links[providerId := user]));
    }
  }

  lemma SameUsersDistinct(db: Db, t: Db)
    requires DistinctEmails(db) && t.users == db.users
    ensures DistinctEmails(t)
  {
  }

  lemma CommitOk(start: map<string, nat>, db: Db, account: Account, p: Phase)
    requires p.Committing? && DbOk(db) && PhaseOk(start, db, account, p)
    ensures DbOk(Commit(db, account, p)) && Grows(db, Commit(db, account, p))
    ensures PhaseOk(start, Commit(db, account, p), account, Returned(p.user, p.isNew))
  {
    NormalizeIdempotent(account.email);
    hide NormalizeEmail, EmailTaken, DistinctEmails, Grows;
    if p.isNew {
      SetUserOk(db, p.user, NewUser(account));
    } else if p.recovers {
      SetUserOk(db, p.user, Recovered(db.users[p.user]));
    }
    var t := Commit(db, account, p).(links := db.links);
    if p.links {
      SetLinkOk(t, account.providerId, p.user);
    }
    GrowsTrans(db, t, Commit(db, account, p));
  }

  lemma GrowsTrans(a: Db, b: Db, c: Db)
    requires (b == a || Grows(a, b)) && (c == b || Grows(b, c))
    ensures Grows(a, c)
  {
  }

  lemma CommitLinkOk(start: map<string, nat>, db: Db, account: Account, p: Phase, other: Account)
    requires p.Committing? && PhaseOk(start, db, account, p) && Grows(db, Commit(db, account, p))
    requires LinkOk(start, db, other) && DbOk(db)
    requires other.providerId == account.providerId ==> other == account
    ensures LinkOk(start, Commit(db, account, p), other)
  {
    hide NormalizeEmail, DistinctEmails, EmailTaken;
  }

  lemma CommitClear(db: Db, account: Account, p: Phase, other: Account, q: Phase)
    requires p.Committing? && Clear(db, other, q) && PairOk(account, p, other, q)
    ensures Clear(Commit(db, account, p), other, q)
  {
    hide NormalizeEmail;
    if HoldsUser(q) {
      assert Creates(q, q.user);
      assert HoldsUser(p) ==> Creates(p, p.user);
    }
  }

  // A move by one login leaves the others justified.
  lemma OtherKept(start: map<string, nat>, accounts: seq<Account>, s: State, e: Event, j: nat)
    requires |accounts| == |s.phases| && Fixed(accounts) && Inv(accounts, start, s)
    requires e.Advance? && e.login < |s.phases| && j < |s.phases|
    ensures
      var i := e.login;
      var t := NextDb(s.db, accounts[i], s.phases[i], NextPhase(s.db, accounts, s.phases, e));
      LinkOk(start, t, accounts[j]) && (j != i ==> PhaseOk(start, t, accounts[j], s.phases[j]))
  {
    var i := e.login;
    var after := NextPhase(s.db, accounts, s.phases, e);
    var account, p, other, q := accounts[i], s.phases[i], accounts[j], s.phases[j];
    var t := NextDb(s.db, account, p, after);
    assert PhaseOk(start, s.db, account, p) && PhaseOk(start, s.db, other, q) && LinkOk(start, s.db, other);
    assert i != j ==> PairOk(account, p, other, q);
    assert other.providerId == account.providerId ==> other == account;
    PhaseClear(start, s.db, other, q);
    hide NormalizeEmail, PairOk, PhaseOk, LinkOk, Commit, Clear, DbOk, Grows, NextPhase, Inv, Fixed;
    if p.Committing? {
      CommitOk(start, s.db, account, p);
      CommitLinkOk(start, s.db, account, p, other);
      if i != j {
        CommitClear(s.db, account, p, other, q);
        PhaseKept(start, s.db, t, other, q);
      }
    } else {
      QuietMove(start, s.db, t, other, q);
    }
  }

  lemma QuietMove(start: map<string, nat>, db: Db, t: Db, account: Account, p: Phase)
    requires t.users == db.users && t.links == db.links && db.nextUser <= t.nextUser
    requires LinkOk(start, db, account) && PhaseOk(start, db, account, p)
    ensures LinkOk(start, t, account) && PhaseOk(start, t, account, p)
  {
    hide NormalizeEmail;
  }

  // A login that has created a user knows the id is given out.
  lemma CreatedBelow(start: map<string, nat>, db: Db, account: Account, p: Phase, user: nat)
    requires DbOk(db) && PhaseOk(start, db, account, p) && Creates(p, user)
    ensures user < db.nextUser
  {
    hide NormalizeEmail, EmailTaken, DistinctEmails;
  }

  lemma MoverPair(start: map<string, nat>, accounts: seq<Account>, s: State, e: Event, j: nat)
    requires |accounts| == |s.phases| && DbOk(s.db)
    requires e.Advance? && e.login < |s.phases| && j < |s.phases| && j != e.login
    requires PhaseOk(start, s.db, accounts[j], s.phases[j])
    requires PairOk(accounts[e.login], s.phases[e.login], accounts[j], s.phases[j])
    ensures PairOk(accounts[e.login], NextPhase(s.db, accounts, s.phases, e), accounts[j], s.phases[j])
  {
    hide NormalizeEmail, DbOk, NextPhase, Creates, PhaseOk, HoldsUser, HoldsLink;
    var after, q := NextPhase(s.db, accounts, s.phases, e), s.phases[j];
    forall u
      ensures !(Creates(after, u) && Creates(q, u))
    {
      if Creates(q, u) {
        CreatedBelow(start, s.db, accounts[j], q, u);
        MoveCreates(s.db, accounts, s.phases, e, u);
      }
    }
    MoveHolds(s.db, accounts, s.phases, e, j);
  }

  // A move creates no user but the next one, and holds nothing another login holds.
  lemma MoveCreates(db: Db, accounts: seq<Account>, phases: seq<Phase>, e: Event, user: nat)
    requires |accounts| == |phases| && e.Advance? && e.login < |phases|
    ensures
      Creates(NextPhase(db, accounts, phases, e), user) ==> Creates(phases[e.login], user) || user == db.nextUser
  {
    hide NormalizeEmail, EmailTaken, EmailPending, LinkPending, UserByEmail;
  }

  lemma MoveHolds(db: Db, accounts: seq<Account>, phases: seq<Phase>, e: Event, j: nat)
    requires |accounts| == |phases| && e.Advance? && e.login < |phases| && j < |phases|
    ensures
      var after, i := NextPhase(db, accounts, phases, e), e.login;
      && (HoldsUser(after) && HoldsUser(phases[j]) && !HoldsUser(phases[i]) ==>
            NormalizeEmail(accounts[i].email) != NormalizeEmail(accounts[j].email))
      && (HoldsLink(after) && HoldsLink(phases[j]) && !HoldsLink(phases[i]) ==>
            accounts[i].providerId != accounts[j].providerId)
  {
    hide NormalizeEmail, EmailTaken, UserByEmail;
  }

  lemma LoginOk(start: map<string, nat>, accounts: seq<Account>, s: State, i: nat)
    requires |accounts| == |s.phases| && i < |s.phases| && Inv(accounts, start, s)
    ensures DbOk(s.db) && LinkOk(start, s.db, accounts[i]) && PhaseOk(start, s.db, accounts[i], s.phases[i])
  {
    hide NormalizeEmail, PhaseOk, LinkOk, DbOk, PairsOk;
  }

  lemma AdvanceDbOk(start: map<string, nat>, accounts: seq<Account>, s: State, e: Event)
    requires |accounts| == |s.phases| && Fixed(accounts) && Inv(accounts, start, s)
    requires e.Advance? && e.login < |s.phases|
    ensures
      var after := NextPhase(s.db, accounts, s.phases, e);
      var t := NextDb(s.db, accounts[e.login], s.phases[e.login], after);
      DbOk(t) && PhaseOk(start, t, accounts[e.login], after)
  {
    hide NormalizeEmail, PhaseOk, LinkOk, Commit, DistinctEmails, Inv, Fixed;
    var account, p := accounts[e.login], s.phases[e.login];
    LoginOk(start, accounts, s, e.login);
    if p.Committing? {
      CommitOk(start, s.db, account, p);
    } else {
      MoverOk(start, accounts, s, e);
      SameUsersDistinct(s.db, NextDb(s.db, account, p, NextPhase(s.db, accounts, s.phases, e)));
    }
  }

  lemma PairSymmetric(a: Account, p: Phase, b: Account, q: Phase)
    requires PairOk(a, p, b, q)
    ensures PairOk(b, q, a, p)
  {
  }

  lemma AdvanceInv(start: map<string, nat>, accounts: seq<Account>, s: State, e: Event)
    requires |accounts| == |s.phases| && Fixed(accounts) && Inv(accounts, start, s)
    requires e.Advance? && e.login < |s.phases|
    ensures Inv(accounts, start, Step(accounts, s, e))
  {
    var t, i := Step(accounts, s, e), e.login;
    AdvanceDbOk(start, accounts, s, e);
    forall j | 0 <= j < |s.phases|
      ensures LinkOk(start, t.db, accounts[j]) && PhaseOk(start, t.db, accounts[j], t.phases[j])
    {
      OtherKept(start, accounts, s, e, j);
    }
    assert PairsOk(accounts, t.phases) by {
      hide NormalizeEmail, PhaseOk, LinkOk, DbOk, PairOk, NextPhase, NextDb;
      forall j | 0 <= j < |s.phases| && j != i
        ensures PairOk(accounts[i], t.phases[i], accounts[j], t.phases[j])
        ensures PairOk(accounts[j], t.phases[j], accounts[i], t.phases[i])
      {
        MoverPair(start, accounts, s, e, j);
        PairSymmetric(accounts[i], t.phases[i], accounts[j], t.phases[j]);
      }
    }
  }

  lemma AbortInv(start: map<string, nat>, accounts: seq<Account>, s: State, i: nat)
    requires |accounts| == |s.phases| && Inv(accounts, start, s)
    ensures Inv(accounts, start, Step(accounts, s, Abort(i)))
  {
    hide NormalizeEmail, DbOk, LinkOk;
  }

  // An environment that only adds users with e-mails nobody holds, or changes activity, disturbs no login.
  lemma EnvironmentInv(start: map<string, nat>, accounts: seq<Account>, s: State, user: nat, row: UserRow)
    requires |accounts| == |s.phases| && Inv(accounts, start, s)
    requires NormalizeEmail(row.email) == row.email
    requires user <= s.db.nextUser
    requires
      if user in s.db.users then row.email == s.db.users[user].email
      else user == s.db.nextUser && !EmailTaken(s.db, row.email) && !EmailPending(accounts, s.phases, row.email)
    ensures
      var next := if user == s.db.nextUser then user + 1 else s.db.nextUser;
      Inv(accounts, start, s.(db := s.db.(users := s.db.users[user := row], nextUser := next)))
  {
    hide NormalizeEmail, DbOk, LinkOk, PhaseOk, PairsOk, EmailTaken, EmailPending, Grows;
    var next := if user == s.db.nextUser then user + 1 else s.db.nextUser;
    var d := s.db.(nextUser := next);
    var t := d.(users := d.users[user := row]);
    RaiseNext(s.db, next);
    SetUserOk(d, user, row);
    forall j | 0 <= j < |s.phases|
      ensures LinkOk(start, t, accounts[j]) && PhaseOk(start, t, accounts[j], s.phases[j])
    {
      HeldBelow(start, s.db, accounts[j], s.phases[j]);
      QuietMove(start, s.db, d, accounts[j], s.phases[j]);
      EnvironmentKeeps(start, accounts, s, d, user, row, j);
    }
    assert t == s.db.(users := s.db.users[user := row], nextUser := next);
  }

  lemma HeldBelow(start: map<string, nat>, db: Db, account: Account, p: Phase)
    requires PhaseOk(start, db, account, p)
    ensures HoldsUser(p) ==> p.user < db.nextUser
  {
  }

  lemma RaiseNext(db: Db, next: nat)
    requires DbOk(db) && next >= db.nextUser
    ensures DbOk(db.(nextUser := next)) && (forall e :: EmailTaken(db.(nextUser := next), e) == EmailTaken(db, e))
  {
    hide NormalizeEmail, DistinctEmails;
    SameUsersDistinct(db, db.(nextUser := next));
  }

  lemma EnvironmentKeeps(start: map<string, nat>, accounts: seq<Account>, s: State, d: Db, user: nat, row: UserRow,
                         j: nat)
    requires |accounts| == |s.phases| && j < |s.phases| && d.users == s.db.users && d.links == s.db.links
    requires DbOk(d) && LinkOk(start, d, accounts[j]) && PhaseOk(start, d, accounts[j], s.phases[j])
    requires Grows(d, d.(users := d.users[user := row]))
    requires
      if user in d.users then row.email == d.users[user].email
      else user == s.db.nextUser && !EmailPending(accounts, s.phases, row.email)
    requires HoldsUser(s.phases[j]) ==> s.phases[j].user < s.db.nextUser
    ensures
      var t := d.(users := d.users[user := row]);
      LinkOk(start, t, accounts[j]) && PhaseOk(start, t, accounts[j], s.phases[j])
  {
    hide NormalizeEmail, DistinctEmails, DbOk, PhaseOk, Grows;
    var t := d.(users := d.users[user := row]);
    PhaseClear(start, d, accounts[j], s.phases[j]);
    if HoldsUser(s.phases[j]) {
      assert !EmailTaken(t, NormalizeEmail(accounts[j].email)) by {
        if user in d.users {
          assert d.users[user].email != NormalizeEmail(accounts[j].email);
        } else {
          assert row.email != NormalizeEmail(accounts[j].email);
        }
      }
    }
    PhaseKept(start, d, t, accounts[j], s.phases[j]);
  }

  lemma StepInv(start: map<string, nat>, accounts: seq<Account>, s: State, e: Event)
    requires |accounts| == |s.phases| && Fixed(accounts) && Inv(accounts, start, s)
    ensures Inv(accounts, start, Step(accounts, s, e))
  {
    hide NormalizeEmail, NextPhase, NextDb, Inv, EmailTaken, EmailPending;
    match e
    case Advance(i, _, _) =>
      if i < |s.phases| {
        AdvanceInv(start, accounts, s, e);
      }
    case Abort(i) => AbortInv(start, accounts, s, i);
    case Withdraw(u, now) =>
      if u in s.db.users && s.db.users[u].active {
        UserNormal(start, accounts, s, u);
        EnvironmentInv(start, accounts, s, u, Withdrawn(s.db.users[u], now));
      }
    case Register(raw) =>
      var row := UserRow(NormalizeEmail(raw), true, None);
      if !EmailTaken(s.db, row.email) && !EmailPending(accounts, s.phases, row.email) {
        NextIsFree(start, accounts, s);
        NormalizeIdempotent(raw);
        EnvironmentInv(start, accounts, s, s.db.nextUser, row);
      }
  }

  lemma UserNormal(start: map<string, nat>, accounts: seq<Account>, s: State, u: nat)
    requires |accounts| == |s.phases| && Inv(accounts, start, s) && u in s.db.users
    ensures NormalizeEmail(s.db.users[u].email) == s.db.users[u].email && u < s.db.nextUser
  {
  }

  lemma NextIsFree(start: map<string, nat>, accounts: seq<Account>, s: State)
    requires |accounts| == |s.phases| && Inv(accounts, start, s)
    ensures s.db.nextUser !in s.db.users
  {
  }

  lemma {:induction false} RunInv(start: map<string, nat>, accounts: seq<Account>, s: State, events: seq<Event>)
    requires |accounts| == |s.phases| && Fixed(accounts) && Inv(accounts, start, s)
    ensures Inv(accounts, start, Run(accounts, s, events))
    decreases |events|
  {
    hide Inv, Fixed, Step;
    if events != [] {
      StepInv(start, accounts, s, events[0]);
      RunInv(start, accounts, Step(accounts, s, events[0]), events[1..]);
    }
  }

  function Arriving(db: Db, accounts: seq<Account>): State {
    State(db, seq(|accounts|, i => Start))
  }

  lemma ArrivingInv(db: Db, accounts: seq<Account>)
    requires DbOk(db)
    ensures Inv(accounts, db.links, Arriving(db, accounts))
  {
    hide NormalizeEmail, DbOk;
  }

  /** Whatever the schedule, a login that has returned names the user its provider id is linked to; so logins of
  one Kakao account all name the same user, and at most one of the logins of an e-mail reports a new user. */
  lemma LoginsAgree(db: Db, accounts: seq<Account>, events: seq<Event>, i: nat, j: nat)
    requires Fixed(accounts) && DbOk(db) && i < |accounts| && j < |accounts|
    ensures
      var t := Run(accounts, Arriving(db, accounts), events);
      var p, q := t.phases[i], t.phases[j];
      && (p.Returned? ==> LinkedTo(t.db, accounts[i], p.user) && p.user in t.db.users)
      && (p.Returned? && q.Returned? && accounts[i].providerId == accounts[j].providerId ==> p.user == q.user)
      && (p.Returned? && q.Returned? && p.isNew && q.isNew && i != j ==>
            NormalizeEmail(accounts[i].email) != NormalizeEmail(accounts[j].email))
  {
    ArrivingInv(db, accounts);
    RunInv(db.links, accounts, Arriving(db, accounts), events);
    hide NormalizeEmail, Run, Fixed;
    var t := Run(accounts, Arriving(db, accounts), events);
    var p, q := t.phases[i], t.phases[j];
    assert PhaseOk(db.links, t.db, accounts[i], p) && PhaseOk(db.links, t.db, accounts[j], q);
    if i != j && p.Returned? && p.isNew {
      assert PairOk(accounts[i], p, accounts[j], q);
      assert Creates(p, p.user);
      assert !Creates(q, p.user);
    }
  }

  // ----- a login on its own

  // What a login does to the database and returns when nothing comes in between; None when it raises.
  ghost function Login(db: Db, account: Account, now: int): (r: (Db, Option<(nat, bool)>)) {
    var found :=
      if account.providerId in db.links && db.links[account.providerId] in db.users
      then Some(db.links[account.providerId])
      else UserByEmail(db, account.email);
    if found.None? then
      if EmailTaken(db, NormalizeEmail(account.email)) then (db, None)
      else
        (db.(users := db.users[db.nextUser := NewUser(account)],
             links := db.links[account.providerId := db.nextUser],
             nextUser := db.nextUser + 1),
         Some((db.nextUser, true)))
    else
      var user := found.value;
      var row := db.users[user];
      if !row.active && !Recoverable(row, now) then (db, None)
      else
        (db.(users := db.users[user := if row.active then row else Recovered(row)],
             links := db.links[account.providerId := user]),
         Some((user, false)))
  }

  // The same login taken through the state machine, by itself and without nickname collisions.
  ghost function Alone(account: Account, s: State, now: int, steps: nat): (t: State)
    requires |s.phases| == 1
    ensures |t.phases| == 1
    decreases steps
  {
    if steps == 0 then s else Alone(account, Step([account], s, Advance(0, false, now)), now, steps - 1)
  }

  function OutcomeOf(p: Phase): Option<(nat, bool)> {
    if p.Returned? then Some((p.user, p.isNew)) else None
  }

  ghost function SoloPhase(db: Db, account: Account, p: Phase, now: int): Phase {
    match p
    case Start => FindLink(db, account, now, Inserting)
    case Inserting => if EmailTaken(db, NormalizeEmail(account.email)) then Conflicted else UserInserted(db.nextUser)
    case UserInserted(user) =>
      if account.providerId in db.links then Conflicted else Committing(user, true, true, false)
    case Conflicted => FindLink(db, account, now, ByEmail)
    case ByEmail => FindEmail(db, account, now)
    case Linking(user, recovers) => LinkExisting(db, account, user, recovers, false)
    case Committing(user, isNew, _, _) => Returned(user, isNew)
    case Returned(_, _) => p
    case Raised => p
  }

  // With no other login nothing is pending, so nothing waits.
  lemma AloneStep(db: Db, account: Account, p: Phase, now: int, steps: nat)
    requires steps > 0
    ensures
      var after := SoloPhase(db, account, p, now);
      Alone(account, State(db, [p]), now, steps) ==
      Alone(account, State(NextDb(db, account, p, after), [after]), now, steps - 1)
  {
    hide NormalizeEmail, FindLink, FindEmail, LinkExisting, NextDb, EmailTaken;
    var s := State(db, [p]);
    var after := SoloPhase(db, account, p, now);
    assert NextPhase(db, [account], [p], Advance(0, false, now)) == after;
    assert s.phases[0 := after] == [after];
  }

  lemma AloneDone(db: Db, account: Account, p: Phase, now: int, steps: nat)
    requires p.Returned? || p.Raised?
    ensures Alone(account, State(db, [p]), now, steps) == State(db, [p])
  {
    hide FindLink, FindEmail, LinkExisting, EmailTaken, Step, NormalizeEmail;
    if steps > 0 {
      AloneStep(db, account, p, now, steps);
      AloneDone(db, account, p, now, steps - 1);
    }
  }

  lemma AloneCommits(db: Db, account: Account, p: Phase, now: int, steps: nat)
    requires p.Committing? && steps > 0
    ensures Alone(account, State(db, [p]), now, steps) == State(Commit(db, account, p), [Returned(p.user, p.isNew)])
  {
    hide FindLink, FindEmail, LinkExisting, EmailTaken, Step, NormalizeEmail, Commit, Alone;
    AloneStep(db, account, p, now, steps);
    AloneDone(Commit(db, account, p), account, Returned(p.user, p.isNew), now, steps - 1);
  }

  /** A login that meets no other gives the user linked to its provider id; failing that, links the user with
  its e-mail; failing that, creates one. It raises when that user's recovery window is over, and also when the
  e-mail is held only in its normalised spelling. */
  lemma SoloIsLogin(db: Db, account: Account, now: int)
    requires DbOk(db)
    ensures
      var t := Alone(account, State(db, [Start]), now, 6);
      (t.db, OutcomeOf(t.phases[0])) == Login(db, account, now)
  {
    hide NormalizeEmail, DistinctEmails, Alone, Recoverable;
    var first := SoloPhase(db, account, Start, now);
    AloneStep(db, account, Start, now, 6);
    if first.Committing? {
      AloneCommits(db, account, first, now, 5);
      assert Commit(db, account, first) == Login(db, account, now).0;
    } else if first.Raised? {
      AloneDone(db, account, first, now, 5);
    } else {
      SoloUnlinked(db, account, now);
    }
  }

  lemma SoloUnlinked(db: Db, account: Account, now: int)
    requires DbOk(db) && account.providerId !in db.links
    ensures
      var t := Alone(account, State(db, [Inserting]), now, 5);
      (t.db, OutcomeOf(t.phases[0])) == Login(db, account, now)
  {
    hide NormalizeEmail, DistinctEmails, Alone, Recoverable;
    AloneStep(db, account, Inserting, now, 5);
    if EmailTaken(db, NormalizeEmail(account.email)) {
      AloneStep(db, account, Conflicted, now, 4);
      SoloByEmail(db, account, now);
    } else {
      var next := db.(nextUser := db.nextUser + 1);
      AloneStep(next, account, UserInserted(db.nextUser), now, 4);
      AloneCommits(next, account, Committing(db.nextUser, true, true, false), now, 3);
      assert UserByEmail(db, account.email) == None;
    }
  }

  lemma SoloByEmail(db: Db, account: Account, now: int)
    requires account.providerId !in db.links && EmailTaken(db, NormalizeEmail(account.email))
    ensures
      var t := Alone(account, State(db, [ByEmail]), now, 3);
      (t.db, OutcomeOf(t.phases[0])) == Login(db, account, now)
  {
    hide NormalizeEmail, Alone, Recoverable;
    AloneStep(db, account, ByEmail, now, 3);
    var after := FindEmail(db, account, now);
    if after.Raised? {
      AloneDone(db, account, after, now, 2);
    } else {
      var linked := Committing(after.user, false, true, after.recovers);
      AloneStep(db, account, after, now, 2);
      AloneCommits(db, account, linked, now, 1);
      assert db.users[after.user].active ==> db.users[after.user := db.users[after.user]] == db.users;
      assert Commit(db, account, linked) == Login(db, account, now).0;
    }
  }

  // A login fails in exactly two ways: its user's window is over, or, with no link yet, the e-mail Kakao gives is
  // not normalised and the normalised one belongs to a user, whom the look-up by e-mail then misses.
  lemma LoginRaisesExactly(db: Db, account: Account, now: int)
    requires DbOk(db)
    ensures
      var linked := account.providerId in db.links;
      var byEmail := UserByEmail(db, account.email);
      Login(db, account, now).1 == None <==>
        || (linked && !db.users[db.links[account.providerId]].active &&
              !Recoverable(db.users[db.links[account.providerId]], now))
        || (!linked && byEmail.Some? && !db.users[byEmail.value].active &&
              !Recoverable(db.users[byEmail.value], now))
        || (!linked && NormalizeEmail(account.email) != account.email &&
              EmailTaken(db, NormalizeEmail(account.email)))
  {
    hide DistinctEmails, Recoverable, NormalizeEmail;
    if UserByEmail(db, account.email).Some? {
      assert NormalizeEmail(account.email) == account.email;
    }
  }

  lemma NormalizeStripped(s: string, k: nat)
    requires k < |s| && s[k] == '@' && !Patterns.IsSpace(s[0]) && !Patterns.IsSpace(s[|s| - 1])
    requires forall j :: k < j < |s| ==> s[j] != '@'
    ensures NormalizeEmail(s) == s[..k + 1] + Lower(s[k + 1..])
  {
    hide Patterns.Strip, Patterns.IsSpace, LastAt, Lower, NormalizeEmail;
    Patterns.StripTidy(s);
    LastAtUnique(s, k);
    NormalizeForm(s);
  }

  lemma MixedCaseDomain()
    ensures NormalizeEmail("a@B") == "a@b"
  {
    hide NormalizeEmail, LowerChar;
    var s := "a@B";
    NormalizeStripped(s, 1);
    assert s[..2] == "a@" && s[2..] == "B";
    LowerOfB();
  }

  lemma LowerOfB()
    ensures Lower("B") == "b"
  {
  }

  lemma PlainDomain()
    ensures NormalizeEmail("a@b") == "a@b"
  {
    NormalizeTidy("a@b", 1);
    hide NormalizeEmail, Patterns.IsSpace;
  }

  /** Where a login goes from linking an existing user. When the provider id has just been linked by someone else, a
  login that was to recover the user fails as a whole, and any other returns the user; a link not yet committed is
  waited for; otherwise the link, and with it any recovery, is left to the commit. */
  lemma LinkingGoesTo(db: Db, accounts: seq<Account>, phases: seq<Phase>, e: Event)
    requires e.Advance? && |accounts| == |phases| && e.login < |phases| && phases[e.login].Linking?
    ensures
      var account, p := accounts[e.login], phases[e.login];
      var waits := exists j ::
        0 <= j < |phases| && HoldsLink(phases[j]) && accounts[j].providerId == account.providerId;
      NextPhase(db, accounts, phases, e) ==
      if account.providerId in db.links && p.recovers then Raised
      else if account.providerId in db.links then Committing(p.user, false, false, false)
      else if waits then p
      else Committing(p.user, false, true, p.recovers)
  {
  }

  // The smallest such failure: the one user's e-mail is given with a capital in its domain.
  lemma MixedCaseLoginFails(now: int)
    ensures
      var db := Db(map[0 := UserRow("a@b", true, None)], map[], 1);
      var account := Account("k", "a@B");
      DbOk(db) && Login(db, account, now) == (db, None)
  {
    MixedCaseDomain();
    PlainDomain();
    hide NormalizeEmail;
    var db := Db(map[0 := UserRow("a@b", true, None)], map[], 1);
    assert db.users[0].email == "a@b" && "a@b"[2] != "a@B"[2];
    assert forall u :: u in db.users ==> u == 0;
    assert EmailTaken(db, NormalizeEmail("a@B"));
    assert UserByEmail(db, "a@B") == None;
  }
}
