/** One-time tokens and the session allowlist (app/auth/tokens.py, app/auth/sessions.py and the
    transaction bodies of app/api/auth_routes.py).

    Hashing is injective and random ids are fresh; a token is named by its hash.  Every transaction
    is one step with one clock reading. */
module AuthState {
  import opened Common

  type Hash = string
  type Email = string
  type UserId = nat
  type Jti = string

  datatype Purpose = Invite | PasswordReset

  datatype Token = Token(purpose: Purpose, email: Email, user: Option<UserId>, expires: int, usedAt: Option<int>)

  datatype Session = Session(user: UserId, expires: int, revokedAt: Option<int>)

  datatype User = User(email: Email, password: string)

  datatype Db = Db(tokens: map<Hash, Token>, sessions: map<Jti, Session>, users: map<UserId, User>, nextUser: UserId)

  // ---- the statements as functions ---------------------------------------------------------------

  predicate Unused(db: Db, h: Hash, p: Purpose, e: Email) {
    h in db.tokens && db.tokens[h].usedAt.None? && db.tokens[h].purpose == p && db.tokens[h].email == e
  }

  function SupersedeTokens(db: Db, p: Purpose, e: Email, now: int): Db {
    db.(tokens := map h | h in db.tokens :: if Unused(db, h, p, e) then db.tokens[h].(usedAt := Some(now))
        else db.tokens[h])
  }

  /** The INSERT; None when the primary key exists, which rolls the transaction back. */
  function InsertToken(db: Db, h: Hash, t: Token): Option<Db> {
    if h in db.tokens then None else Some(db.(tokens := db.tokens[h := t]))
  }

  function CreateToken(db: Db, h: Hash, p: Purpose, e: Email, user: Option<UserId>, ttl: int, now: int): Db {
    var inserted := InsertToken(SupersedeTokens(db, p, e, now), h, Token(p, e, user, now + ttl, None));
    if inserted.Some? then inserted.value else db
  }

  predicate Spendable(db: Db, h: Hash, p: Purpose, now: int) {
    h in db.tokens && db.tokens[h].purpose == p && db.tokens[h].usedAt.None? && db.tokens[h].expires > now
  }

  function Spend(db: Db, h: Hash, now: int): Db
    requires h in db.tokens
  {
    db.(tokens := db.tokens[h := db.tokens[h].(usedAt := Some(now))])
  }

  predicate HasEmail(users: map<UserId, User>, e: Email) {
    exists u :: u in users && users[u].email == e
  }

  predicate EmailTaken(db: Db, e: Email) {
    HasEmail(db.users, e)
  }

  predicate IsActive(db: Db, j: Jti, now: int) {
    j in db.sessions && db.sessions[j].revokedAt.None? && db.sessions[j].expires > now
  }

  function RevokeUser(db: Db, u: UserId, now: int): Db {
    db.(sessions := map j | j in db.sessions ::
          if db.sessions[j].user == u && db.sessions[j].revokedAt.None?
              then db.sessions[j].(revokedAt := Some(now)) else db.sessions[j])
  }

  function RevokeOne(db: Db, j: Jti, now: int): Db {
    if j in db.sessions && db.sessions[j].revokedAt.None?
    then db.(sessions := db.sessions[j := db.sessions[j].(revokedAt := Some(now))]) else db
  }

  function IssueSession(db: Db, j: Jti, u: UserId, expires: int): Db {
    if j in db.sessions then db else db.(sessions := db.sessions[j := Session(u, expires, None)])
  }

  function Purge(db: Db, now: int): Db {
    db.(sessions := map j | j in db.sessions && db.sessions[j].expires >= now :: db.sessions[j])
  }

  // ---- transactions --------------------------------------------------------------------------------

  predicate Accepts(db: Db, h: Hash, now: int) {
    Spendable(db, h, Invite, now) && !EmailTaken(db, db.tokens[h].email)
  }

  function AcceptInvite(db: Db, h: Hash, password: string, now: int): Db {
    if Accepts(db, h, now)
    then Spend(db, h, now).(users := db.users[db.nextUser := User(db.tokens[h].email, password)],
        nextUser := db.nextUser + 1)
    else db
  }

  predicate Resets(db: Db, h: Hash, now: int) {
    Spendable(db, h, PasswordReset, now)
  }

  function SetPassword(db: Db, u: UserId, password: string): Db {
    if u in db.users then db.(users := db.users[u := db.users[u].(password := password)]) else db
  }

  function ConfirmReset(db: Db, h: Hash, password: string, now: int): Db {
    if Resets(db, h, now) then
      var spent := Spend(db, h, now);
      if db.tokens[h].user.Some?
      then RevokeUser(SetPassword(spent, db.tokens[h].user.value, password), db.tokens[h].user.value, now)
      else spent
    else db
  }

  function InviteUser(db: Db, h: Hash, e: Email, ttl: int, now: int): Db {
    if EmailTaken(db, e) then db else CreateToken(db, h, Invite, e, None, ttl, now)
  }

  /** `account` is the one found under the address asked about, if any. */
  function RequestReset(db: Db, h: Hash, account: Option<UserId>, ttl: int, now: int): Db {
    if account.Some? && account.value in db.users
    then CreateToken(db, h, PasswordReset, db.users[account.value].email, account, ttl, now) else db
  }

  // ---- the code ------------------------------------------------------------------------------------

  class Store {
    var tokens: map<Hash, Token>
    var sessions: map<Jti, Session>
    var users: map<UserId, User>
    var nextUser: UserId

    function State(): Db
      reads this
    {
      Db(tokens, sessions, users, nextUser)
    }

    constructor (db: Db)
      ensures State() == db
    {
      tokens, sessions, users, nextUser := db.tokens, db.sessions, db.users, db.nextUser;
    }

    /** The caller's transaction is rolled back when the INSERT fails, the UPDATE with it. */
    method CreateOnetimeToken(h: Hash, p: Purpose, e: Email, user: Option<UserId>, ttl: int,
        now: int) returns (ok: bool)
      modifies this`tokens
      ensures State() == CreateToken(old(State()), h, p, e, user, ttl, now) && ok == (h !in old(tokens))
      ensures !ok ==> tokens == old(tokens)
      ensures ok ==> tokens.Keys == old(tokens).Keys + {h} && tokens[h] == Token(p, e, user, now + ttl, None)
      ensures ok ==> forall k :: k in old(tokens) ==>
                var was := old(tokens)[k];
                tokens[k] == if was.usedAt.None? && was.purpose == p && was.email == e
                             then was.(usedAt := Some(now)) else was
    {
      var saved := tokens;
      tokens := map k | k in tokens ::
        if tokens[k].usedAt.None? && tokens[k].purpose == p && tokens[k].email == e
            then tokens[k].(usedAt := Some(now)) else tokens[k];
      assert tokens == SupersedeTokens(old(State()), p, e, now).tokens;
      ok := h !in tokens;
      if ok { tokens := tokens[h := Token(p, e, user, now + ttl, None)]; } else { tokens := saved; }
    }

    method ConsumeToken(h: Hash, p: Purpose, now: int) returns (payload: Option<Token>)
      modifies this`tokens
      ensures payload.Some? <==>
              && h in old(tokens) && old(tokens)[h].purpose == p && old(tokens)[h].usedAt.None?
              && now < old(tokens)[h].expires
      ensures payload.Some? ==>
              payload.value == old(tokens)[h] && tokens == old(tokens)[h := old(tokens)[h].(usedAt := Some(now))]
      ensures payload.Some? <==> Spendable(old(State()), h, p, now)
      ensures payload.Some? ==> State() == Spend(old(State()), h, now)
      ensures payload.None? ==> State() == old(State())
    {
      if h !in tokens || tokens[h].purpose != p || tokens[h].usedAt.Some? || tokens[h].expires <= now { return None; }
      payload := Some(tokens[h]);
      tokens := tokens[h := tokens[h].(usedAt := Some(now))];
    }

    /** 400 and 409 both leave the transaction by an exception: nothing is kept. */
    method Accept(h: Hash, password: string, now: int) returns (user: Option<UserId>)
      modifies this
      ensures State() == AcceptInvite(old(State()), h, password, now)
      ensures user.Some? <==>
              && h in old(tokens) && old(tokens)[h].purpose == Invite && old(tokens)[h].usedAt.None?
              && now < old(tokens)[h].expires
              && forall u :: u in old(users) ==> old(users)[u].email != old(tokens)[h].email
      ensures user.Some? ==>
              && user.value == old(nextUser) && nextUser == old(nextUser) + 1 && sessions == old(sessions)
              && users == old(users)[old(nextUser) := User(old(tokens)[h].email, password)]
              && tokens == old(tokens)[h := old(tokens)[h].(usedAt := Some(now))]
      ensures user.None? ==> State() == old(State())
    {
      var saved := tokens;
      var payload := ConsumeToken(h, Invite, now);
      if payload.None? { return None; }
      if EmailTaken(State(), payload.value.email) {
        tokens := saved;
        return None;
      }
      user := Some(nextUser);
      users := users[nextUser := User(payload.value.email, password)];
      nextUser := nextUser + 1;
    }

    method RevokeUserSessions(u: UserId, now: int) returns (n: nat)
      modifies this`sessions
      ensures State() == RevokeUser(old(State()), u, now)
      ensures sessions.Keys == old(sessions).Keys
      ensures forall j :: j in old(sessions) ==>
                var was := old(sessions)[j];
                sessions[j] == if was.user == u && was.revokedAt.None? then was.(revokedAt := Some(now)) else was
      ensures n == |set j | j in old(sessions) && old(sessions)[j].user == u && old(sessions)[j].revokedAt.None?|
    {
      n := |set j | j in sessions && sessions[j].user == u && sessions[j].revokedAt.None?|;
      sessions := map j | j in sessions ::
        if sessions[j].user == u && sessions[j].revokedAt.None? then sessions[j].(revokedAt := Some(now))
            else sessions[j];
    }

    method Reset(h: Hash, password: string, now: int) returns (ok: bool)
      modifies this
      ensures State() == ConfirmReset(old(State()), h, password, now)
      ensures ok <==>
              && h in old(tokens) && old(tokens)[h].purpose == PasswordReset && old(tokens)[h].usedAt.None?
              && now < old(tokens)[h].expires
      ensures !ok ==> State() == old(State())
      ensures ok ==>
              var account := old(tokens)[h].user;
              && tokens == old(tokens)[h := old(tokens)[h].(usedAt := Some(now))] && nextUser == old(nextUser)
              && users == (if account.Some? && account.value in old(users)
                           then old(users)[account.value := User(old(users)[account.value].email, password)]
                           else old(users))
              && sessions.Keys == old(sessions).Keys
              && forall j :: j in old(sessions) ==>
                   var was := old(sessions)[j];
                   sessions[j] == if account == Some(was.user) && was.revokedAt.None?
                                  then was.(revokedAt := Some(now)) else was
    {
      var payload := ConsumeToken(h, PasswordReset, now);
      if payload.None? { return false; }
      if payload.value.user.Some? {
        var u := payload.value.user.value;
        if u in users { users := users[u := users[u].(password := password)]; }
        var n := RevokeUserSessions(u, now);
      }
      ok := true;
    }

    method Issue(j: Jti, u: UserId, expires: int)
      modifies this`sessions
      ensures State() == IssueSession(old(State()), j, u, expires)
      ensures sessions == if j in old(sessions) then old(sessions)
                          else old(sessions)[j := Session(u, expires, None)]
    {
      if j !in sessions { sessions := sessions[j := Session(u, expires, None)]; }
    }

    method SessionIsActive(j: Jti, now: int) returns (active: bool)
      ensures active <==> j in sessions && sessions[j].revokedAt.None? && now < sessions[j].expires
      ensures active == IsActive(State(), j, now)
    {
      active := j in sessions && sessions[j].revokedAt.None? && sessions[j].expires > now;
    }

    method RevokeSession(j: Jti, now: int)
      modifies this`sessions
      ensures State() == RevokeOne(old(State()), j, now)
      ensures sessions == if j in old(sessions) && old(sessions)[j].revokedAt.None?
                          then old(sessions)[j := old(sessions)[j].(revokedAt := Some(now))] else old(sessions)
    {
      if j in sessions && sessions[j].revokedAt.None? {
        sessions := sessions[j := sessions[j].(revokedAt := Some(now))];
      }
    }

    method PurgeExpiredSessions(now: int) returns (n: nat)
      modifies this`sessions
      ensures State() == Purge(old(State()), now)
      ensures forall j :: j in sessions <==> j in old(sessions) && now <= old(sessions)[j].expires
      ensures forall j :: j in sessions ==> sessions[j] == old(sessions)[j]
      ensures n == |set j | j in old(sessions) && old(sessions)[j].expires < now|
    {
      n := |set j | j in sessions && sessions[j].expires < now|;
      sessions := map j | j in sessions && sessions[j].expires >= now :: sessions[j];
    }
  }

  // ---- runs ----------------------------------------------------------------------------------------

  datatype Action =
    | Wait(time: nat)
    | InviteSomeone(h: Hash, e: Email, ttl: int)
    | AskReset(h: Hash, account: Option<UserId>, ttl: int)
    | AcceptIt(h: Hash, password: string)
    | BeginReset(h: Hash, password: string)
    | CommitReset(h: Hash)
    | AbortReset(h: Hash)
    | CheckPassword(u: UserId, password: string)
    | Register(c: nat, j: Jti, expires: int)
    | Logout(j: Jti)
    | SignOut(u: UserId)
    | PurgeNow

  /** A login whose password check has succeeded: the user's row as that check read it, and the
      check's place among all checks.  Accepting an invitation counts as one. */
  datatype Login = Login(user: UserId, read: string, serial: nat)

  /** The transaction of `confirm_password_reset` after its last statement and before its commit: whose
      sessions it revokes, the new password, and the session ids its revocation could see.  It holds the
      row locks of its token and of its user; everybody else still reads the old rows. */
  datatype OpenReset = OpenReset(user: Option<UserId>, password: string, seen: set<Jti>)

  /** The tables, the clock, the session ids ever issued, how often each token was redeemed, the
      logins that have not registered their session yet, the login each session came from, and the
      resets that have not been committed. */
  datatype World = World(db: Db, now: int, issued: set<Jti>, spends: multiset<Hash>,
                         pending: map<nat, Login>, nextCheck: nat, origin: map<Jti, Login>,
                         resetting: map<Hash, OpenReset>)

  /** The token can be redeemed and nobody holds a row the transaction needs. */
  predicate CanBegin(w: World, h: Hash) {
    && Resets(w.db, h, w.now) && h !in w.resetting
    && forall k :: k in w.resetting ==> w.resetting[k].user.None? || w.resetting[k].user != w.db.tokens[h].user
  }

  /** What the commit of a reset shows. */
  function FinishReset(db: Db, h: Hash, r: OpenReset, now: int): Db {
    var spent := if h in db.tokens then Spend(db, h, now) else db;
    if r.user.Some? then RevokeSeen(SetPassword(spent, r.user.value, r.password), r.user.value, r.seen, now) else spent
  }

  function RevokeSeen(db: Db, u: UserId, seen: set<Jti>, now: int): Db {
    db.(sessions := map j | j in db.sessions ::
          if db.sessions[j].user == u && j in seen && db.sessions[j].revokedAt.None?
          then db.sessions[j].(revokedAt := Some(now)) else db.sessions[j])
  }

  /** A creation for the address waits for an open reset that holds its live token. */
  predicate Blocked(w: World, account: Option<UserId>) {
    account.Some? && account.value in w.db.users &&
    exists k :: k in w.resetting && k in w.db.tokens && w.db.tokens[k].email == w.db.users[account.value].email
  }

  function Passed(w: World, u: UserId, read: string): World {
    w.(pending := w.pending[w.nextCheck := Login(u, read, w.nextCheck)], nextCheck := w.nextCheck + 1)
  }

  predicate ChecksOut(db: Db, u: UserId, password: string) {
    u in db.users && db.users[u].password == password
  }

  function Next(w: World, a: Action): World {
    var db, now := w.db, w.now;
    match a
    case Wait(time) => w.(now := now + time)
    case InviteSomeone(h, e, ttl) => w.(db := InviteUser(db, h, e, ttl, now))
    case AskReset(h, account, ttl) => if Blocked(w, account) then w
        else w.(db := RequestReset(db, h, account, ttl, now))
    case AcceptIt(h, password) =>
      if Accepts(db, h, now)
      then Passed(w, db.nextUser, password).(db := AcceptInvite(db, h, password, now),
          spends := w.spends + multiset{h}) else w
    case BeginReset(h, password) =>
      if CanBegin(w, h) then w.(resetting := w.resetting[h := OpenReset(db.tokens[h].user, password, w.issued)]) else w
    case CommitReset(h) =>
      if h in w.resetting
      then w.(db := FinishReset(db, h, w.resetting[h], now), spends := w.spends + multiset{h},
          resetting := w.resetting - {h})
      else w
    case AbortReset(h) => w.(resetting := w.resetting - {h})
    case CheckPassword(u, password) => if ChecksOut(db, u, password) then Passed(w, u, password) else w
    case Register(c, j, expires) =>
      if c in w.pending
      then w.(db := IssueSession(db, j, w.pending[c].user, expires), issued := w.issued + {j},
              pending := w.pending - {c}, origin := w.origin[j := w.pending[c]])
      else w
    case Logout(j) => w.(db := RevokeOne(db, j, now))
    case SignOut(u) => w.(db := RevokeUser(db, u, now))
    case PurgeNow => w.(db := Purge(db, now))
  }

  const EMPTY := World(Db(map[], map[], map[], 0), 0, {}, multiset{}, map[], 0, map[], map[])

  /** Session ids are fresh. */
  predicate Legal(w: World, a: Action) {
    a.Register? ==> a.j !in w.issued
  }

  function RunFrom(w: World, actions: seq<Action>): World
    decreases |actions|
  {
    if actions == [] then w else Next(RunFrom(w, actions[..|actions| - 1]), actions[|actions| - 1])
  }

  predicate LegalRun(w: World, actions: seq<Action>)
    decreases |actions|
  {
    actions != [] ==>
      LegalRun(w, actions[..|actions| - 1]) && Legal(RunFrom(w, actions[..|actions| - 1]), actions[|actions| - 1])
  }

  // ---- tokens --------------------------------------------------------------------------------------

  /** At most one unused token for each purpose and address. */
  predicate OneLive(db: Db) {
    forall h, k :: h in db.tokens && k in db.tokens && Live(db, h, k) ==> h == k
  }

  predicate Live(db: Db, h: Hash, k: Hash)
    requires h in db.tokens && k in db.tokens
  {
    && db.tokens[h].usedAt.None? && db.tokens[k].usedAt.None?
    && db.tokens[h].purpose == db.tokens[k].purpose && db.tokens[h].email == db.tokens[k].email
  }

  /** A token is redeemed at most once, and a redeemed token is used. */
  predicate SpendsCounted(w: World) {
    forall h :: h in w.spends ==> w.spends[h] == 1 && h in w.db.tokens && w.db.tokens[h].usedAt.Some?
  }

  lemma CreateKeepsOneLive(db: Db, h: Hash, p: Purpose, e: Email, user: Option<UserId>, ttl: int, now: int)
    requires OneLive(db)
    ensures OneLive(CreateToken(db, h, p, e, user, ttl, now))
  {
    var after := CreateToken(db, h, p, e, user, ttl, now);
    if h !in db.tokens {
      forall a, b | a in after.tokens && b in after.tokens && Live(after, a, b) ensures a == b {
        if a != h && b != h { assert Live(db, a, b); }
      }
    }
  }

  lemma StepKeepsOneLive(w: World, a: Action)
    requires OneLive(w.db)
    ensures OneLive(Next(w, a).db)
  {
    var after := Next(w, a).db;
    match a
    case InviteSomeone(h, e, ttl) => CreateKeepsOneLive(w.db, h, Invite, e, None, ttl, w.now);
    case AskReset(h, account, ttl) =>
      if account.Some? && account.value in w.db.users {
        CreateKeepsOneLive(w.db, h, PasswordReset, w.db.users[account.value].email, account, ttl, w.now);
      }
    case _ =>
      UsedStaysUsed(w, a);
      forall h, k | h in after.tokens && k in after.tokens && Live(after, h, k) ensures h == k {
        assert Live(w.db, h, k);
      }
  }

  /** Other steps add no token and make none unused. */
  lemma UsedStaysUsed(w: World, a: Action)
    requires !a.InviteSomeone? && !a.AskReset?
    ensures Next(w, a).db.tokens.Keys == w.db.tokens.Keys
    ensures forall h :: h in w.db.tokens ==>
              var was, after := w.db.tokens[h], Next(w, a).db.tokens[h];
              after == was || after == was.(usedAt := Some(w.now))
  {
  }

  /** An open reset holds an unused reset token of its user. */
  predicate ResetsHold(w: World) {
    forall h :: h in w.resetting ==> ResetHolds(w, h)
  }

  predicate ResetHolds(w: World, h: Hash)
    requires h in w.resetting
  {
    && h in w.db.tokens && w.db.tokens[h].usedAt.None? && w.db.tokens[h].purpose == PasswordReset
    && w.db.tokens[h].user == w.resetting[h].user
  }

  lemma CreateKeepsToken(db: Db, h: Hash, p: Purpose, e: Email, user: Option<UserId>, ttl: int, now: int, k: Hash)
    requires k in db.tokens
    ensures var after := CreateToken(db, h, p, e, user, ttl, now);
            && k in after.tokens && (db.tokens[k].usedAt.Some? ==> after.tokens[k] == db.tokens[k])
            && (db.tokens[k].purpose != p || db.tokens[k].email != e ==> after.tokens[k] == db.tokens[k])
  {
  }

  lemma StepKeepsUsed(w: World, a: Action, k: Hash)
    requires k in w.db.tokens && w.db.tokens[k].usedAt.Some?
    ensures k in Next(w, a).db.tokens && Next(w, a).db.tokens[k].usedAt.Some?
  {
    match a
    case InviteSomeone(h, e, ttl) => CreateKeepsToken(w.db, h, Invite, e, None, ttl, w.now, k);
    case AskReset(h, account, ttl) =>
      if account.Some? && account.value in w.db.users {
        CreateKeepsToken(w.db, h, PasswordReset, w.db.users[account.value].email, account, ttl, w.now, k);
      }
    case _ =>
  }

  lemma StepKeepsHeldToken(w: World, a: Action, k: Hash)
    requires ResetsHold(w) && k in w.resetting && k in Next(w, a).resetting
    ensures ResetHolds(Next(w, a), k)
  {
    assert ResetHolds(w, k);
    match a
    case InviteSomeone(h, e, ttl) => CreateKeepsToken(w.db, h, Invite, e, None, ttl, w.now, k);
    case AskReset(h, account, ttl) =>
      if !Blocked(w, account) && account.Some? && account.value in w.db.users {
        CreateKeepsToken(w.db, h, PasswordReset, w.db.users[account.value].email, account, ttl, w.now, k);
      }
    case _ =>
  }

  lemma StepKeepsResetsHold(w: World, a: Action)
    requires ResetsHold(w)
    ensures ResetsHold(Next(w, a))
  {
    forall k | k in Next(w, a).resetting ensures ResetHolds(Next(w, a), k) {
      if k in w.resetting { StepKeepsHeldToken(w, a, k); }
    }
  }

  lemma StepSpends(w: World, a: Action, k: Hash)
    requires ResetsHold(w)
    ensures Next(w, a).spends[k] == w.spends[k] || (Next(w, a).spends[k] == w.spends[k] + 1 && k in w.db.tokens &&
        w.db.tokens[k].usedAt.None?)
    ensures Next(w, a).spends[k] > w.spends[k] ==> k in Next(w, a).db.tokens && Next(w, a).db.tokens[k].usedAt.Some?
  {
    if a.CommitReset? && a.h in w.resetting { assert ResetHolds(w, a.h); }
  }

  lemma StepKeepsSpends(w: World, a: Action)
    requires SpendsCounted(w) && ResetsHold(w)
    ensures SpendsCounted(Next(w, a))
  {
    forall k | k in Next(w, a).spends
      ensures Next(w, a).spends[k] == 1 && k in Next(w, a).db.tokens && Next(w, a).db.tokens[k].usedAt.Some?
    {
      StepSpends(w, a, k);
      if k in w.spends { StepKeepsUsed(w, a, k); }
    }
  }

  /** Over every run there is at most one live link for each purpose and address, and no token is
      ever redeemed twice. */
  lemma {:induction false} TokensAreSingleUse(actions: seq<Action>)
    ensures OneLive(RunFrom(EMPTY, actions).db) && SpendsCounted(RunFrom(EMPTY, actions)) &&
        ResetsHold(RunFrom(EMPTY, actions))
    ensures forall h :: RunFrom(EMPTY, actions).spends[h] <= 1
  {
    if actions != [] {
      var init, a := actions[..|actions| - 1], actions[|actions| - 1];
      TokensAreSingleUse(init);
      StepKeepsOneLive(RunFrom(EMPTY, init), a);
      StepKeepsSpends(RunFrom(EMPTY, init), a);
      StepKeepsResetsHold(RunFrom(EMPTY, init), a);
    }
  }

  /** Who gets a link: an invitation needs an address nobody has, a reset link an account. */
  lemma LinkIsMadeIff(db: Db, h: Hash, e: Email, account: Option<UserId>, ttl: int, now: int)
    requires h !in db.tokens
    ensures var invited := InviteUser(db, h, e, ttl, now);
            if forall u :: u in db.users ==> db.users[u].email != e
            then h in invited.tokens && invited.tokens[h] == Token(Invite, e, None, now + ttl, None) else invited == db
    ensures var asked := RequestReset(db, h, account, ttl, now);
            if account.Some? && account.value in db.users
            then h in asked.tokens &&
              asked.tokens[h] == Token(PasswordReset, db.users[account.value].email, account, now + ttl, None)
            else asked == db
  {
  }

  /** A reset begins exactly if its token is an unused, unexpired reset token and no other reset of its user
      is open. */
  lemma ResetBeginsIff(w: World, h: Hash, password: string)
    requires h !in w.resetting
    ensures h in Next(w, BeginReset(h, password)).resetting <==>
            && h in w.db.tokens && w.db.tokens[h].purpose == PasswordReset && w.db.tokens[h].usedAt.None?
            && w.now < w.db.tokens[h].expires
            && forall k :: k in w.resetting && w.db.tokens[h].user.Some? ==> w.resetting[k].user != w.db.tokens[h].user
    ensures Next(w, BeginReset(h, password)).db == w.db
  {
  }

  /** A login gets past the check exactly with the password the user's row holds. */
  lemma LoginPassesIff(w: World, u: UserId, password: string)
    requires w.nextCheck !in w.pending
    ensures var after := Next(w, CheckPassword(u, password));
            && (w.nextCheck in after.pending <==> u in w.db.users && w.db.users[u].password == password)
            && (after != w ==> after.pending[w.nextCheck] == Login(u, password, w.nextCheck))
  {
  }

  // ---- redeemed before it expires --------------------------------------------------------------------

  /** At step `m` of the run the token is there, unused, for this purpose, and has not expired. */
  predicate RedeemableAt(actions: seq<Action>, m: nat, h: Hash, p: Purpose)
    requires m < |actions|
  {
    var w := RunFrom(EMPTY, actions[..m]);
    && h in w.db.tokens && w.db.tokens[h].purpose == p && w.db.tokens[h].usedAt.None?
    && w.now < w.db.tokens[h].expires
  }

  /** The reset that step `m` began is still open at step `n`. */
  predicate OpenBetween(actions: seq<Action>, m: nat, n: nat, h: Hash)
    requires m < n <= |actions|
  {
    actions[m].BeginReset? && actions[m].h == h &&
    forall k :: m < k < n ==> actions[k] != CommitReset(h) && actions[k] != AbortReset(h)
  }

  /** Step `m` accepts the invitation, or begins a reset that step `n` commits. */
  ghost predicate Redeems(actions: seq<Action>, m: nat, h: Hash) {
    && m < |actions|
    && ((actions[m].AcceptIt? && actions[m].h == h && RedeemableAt(actions, m, h, Invite)) ||
        (RedeemableAt(actions, m, h, PasswordReset) &&
         exists n :: m < n < |actions| && actions[n] == CommitReset(h) && OpenBetween(actions, m, n, h)))
  }

  lemma OpensByBeginning(w: World, a: Action, h: Hash)
    requires h in Next(w, a).resetting
    ensures h in w.resetting ==> a != CommitReset(h) && a != AbortReset(h)
    ensures h !in w.resetting ==>
              && a.BeginReset? && a.h == h && h in w.db.tokens && w.db.tokens[h].purpose == PasswordReset
              && w.db.tokens[h].usedAt.None? && w.now < w.db.tokens[h].expires
  {
  }

  lemma SpendsByRedeeming(w: World, a: Action, h: Hash)
    requires Next(w, a).spends[h] > w.spends[h]
    ensures (a == CommitReset(h) && h in w.resetting) ||
            (a.AcceptIt? && a.h == h && h in w.db.tokens && w.db.tokens[h].purpose == Invite &&
             w.db.tokens[h].usedAt.None? && w.now < w.db.tokens[h].expires)
  {
  }

  lemma StillBetween(actions: seq<Action>, m: nat, h: Hash)
    requires actions != [] && m < |actions| - 1 && OpenBetween(actions[..|actions| - 1], m, |actions| - 1, h)
    ensures OpenBetween(actions, m, |actions| - 1, h)
    ensures actions[|actions| - 1] != CommitReset(h) && actions[|actions| - 1] != AbortReset(h) ==>
              OpenBetween(actions, m, |actions|, h)
    ensures RedeemableAt(actions[..|actions| - 1], m, h, PasswordReset) <==>
            RedeemableAt(actions, m, h, PasswordReset)
  {
    assert actions[..|actions| - 1][..m] == actions[..m];
    forall k | m < k < |actions| - 1
      ensures actions[k] != CommitReset(h) && actions[k] != AbortReset(h)
    {
      assert actions[..|actions| - 1][k] == actions[k];
    }
  }

  /** Every open reset was begun in time, and has been open since. */
  lemma {:induction false} BegunInTime(actions: seq<Action>, h: Hash) returns (m: nat)
    requires h in RunFrom(EMPTY, actions).resetting
    ensures m < |actions| && RedeemableAt(actions, m, h, PasswordReset) && OpenBetween(actions, m, |actions|, h)
  {
    var init, a := actions[..|actions| - 1], actions[|actions| - 1];
    OpensByBeginning(RunFrom(EMPTY, init), a, h);
    if h in RunFrom(EMPTY, init).resetting {
      m := BegunInTime(init, h);
      StillBetween(actions, m, h);
    } else {
      m := |init|;
    }
  }

  /** Whatever was redeemed in a run was redeemed before it expired: the acceptance, or the beginning of
      the reset that was then committed, found the token unused and its expiry still to come. */
  lemma {:induction false} RedeemedInTime(actions: seq<Action>, h: Hash) returns (m: nat)
    requires RunFrom(EMPTY, actions).spends[h] > 0
    ensures Redeems(actions, m, h)
  {
    var init, a := actions[..|actions| - 1], actions[|actions| - 1];
    if RunFrom(EMPTY, init).spends[h] > 0 {
      m := RedeemedInTime(init, h);
      RedeemsStill(actions, m, h);
    } else {
      SpendsByRedeeming(RunFrom(EMPTY, init), a, h);
      if a.AcceptIt? {
        m := |init|;
      } else {
        m := BegunInTime(init, h);
        StillBetween(actions, m, h);
      }
    }
  }

  lemma RedeemsStill(actions: seq<Action>, m: nat, h: Hash)
    requires actions != [] && Redeems(actions[..|actions| - 1], m, h)
    ensures Redeems(actions, m, h)
  {
    var init := actions[..|actions| - 1];
    assert init[..m] == actions[..m];
    if n :| m < n < |init| && init[n] == CommitReset(h) && OpenBetween(init, m, n, h) {
      assert actions[n] == CommitReset(h) && OpenBetween(actions, m, n, h);
    }
  }

  /** Redeeming an invitation spends it exactly when the address is free; a refused acceptance leaves
      it as redeemable as before, and a successful one leaves the address taken. */
  lemma RefusedInviteStaysUnspent(db: Db, h: Hash, password: string, now: int)
    requires h in db.tokens && db.tokens[h].purpose == Invite && db.tokens[h].usedAt.None?
    requires now < db.tokens[h].expires
    ensures var after := AcceptInvite(db, h, password, now);
            && (Spendable(after, h, Invite, now) <==>
                  exists u :: u in db.users && db.users[u].email == db.tokens[h].email)
            && (EmailTaken(db, db.tokens[h].email) ==> after == db)
            && exists u :: u in after.users && after.users[u].email == db.tokens[h].email
  {
    var after := AcceptInvite(db, h, password, now);
    if !EmailTaken(db, db.tokens[h].email) { assert after.users[db.nextUser].email == db.tokens[h].email; }
  }

  // ---- sessions ------------------------------------------------------------------------------------

  predicate SessionsIssued(w: World) {
    forall j :: j in w.db.sessions ==> j in w.issued
  }

  predicate Ended(w: World, j: Jti) {
    j in w.issued && !IsActive(w.db, j, w.now)
  }

  lemma EndedStepStays(w: World, a: Action, j: Jti)
    requires Ended(w, j) && Legal(w, a)
    ensures Ended(Next(w, a), j)
  {
  }

  /** A session that has ended, by logout, sign-out, reset or expiry, is never active again. */
  lemma {:induction false} EndedStaysEnded(w: World, actions: seq<Action>, j: Jti)
    requires Ended(w, j) && LegalRun(w, actions)
    ensures Ended(RunFrom(w, actions), j)
    decreases |actions|
  {
    if actions != [] {
      EndedStaysEnded(w, actions[..|actions| - 1], j);
      EndedStepStays(RunFrom(w, actions[..|actions| - 1]), actions[|actions| - 1], j);
    }
  }

  /** With nobody in between a reset is the transaction as one step. */
  lemma ResetAloneIsOneStep(w: World, h: Hash, password: string)
    requires SessionsIssued(w) && CanBegin(w, h)
    ensures Next(Next(w, BeginReset(h, password)), CommitReset(h)).db == ConfirmReset(w.db, h, password, w.now)
  {
    var user := w.db.tokens[h].user;
    if user.Some? {
      var changed := SetPassword(Spend(w.db, h, w.now), user.value, password);
      assert RevokeSeen(changed, user.value, w.issued, w.now).sessions == RevokeUser(changed, user.value,
          w.now).sessions;
    }
  }

  /** The commit of a reset ends every session of its user that the revocation could see, for good, and
      leaves all others alone. */
  lemma ResetEndsSessions(w: World, h: Hash, j: Jti, later: seq<Action>)
    requires SessionsIssued(w) && h in w.resetting && j in w.db.sessions && LegalRun(Next(w, CommitReset(h)), later)
    ensures w.resetting[h].user == Some(w.db.sessions[j].user) && j in w.resetting[h].seen ==>
              Ended(RunFrom(Next(w, CommitReset(h)), later), j)
    ensures w.resetting[h].user != Some(w.db.sessions[j].user) || j !in w.resetting[h].seen ==>
              Next(w, CommitReset(h)).db.sessions[j] == w.db.sessions[j]
  {
    if w.resetting[h].user == Some(w.db.sessions[j].user) && j in w.resetting[h].seen {
      EndedStaysEnded(Next(w, CommitReset(h)), later, j);
    }
  }

  lemma StepIssues(w: World, a: Action)
    requires SessionsIssued(w)
    ensures SessionsIssued(Next(w, a)) && w.issued <= Next(w, a).issued
  {
  }

  lemma {:induction false} RunsIssue(actions: seq<Action>)
    ensures SessionsIssued(RunFrom(EMPTY, actions))
  {
    if actions != [] {
      RunsIssue(actions[..|actions| - 1]);
      StepIssues(RunFrom(EMPTY, actions[..|actions| - 1]), actions[|actions| - 1]);
    }
  }

  /** The two worlds agree on everything but sessions that have expired. */
  ghost predicate SameButExpired(w: World, v: World) {
    SameTables(w, v) && SessionsIssued(w) && SessionsIssued(v) && forall j :: SameSession(w, v, j)
  }

  predicate SameTables(w: World, v: World) {
    && w.now == v.now && w.issued == v.issued && w.spends == v.spends
    && w.pending == v.pending && w.nextCheck == v.nextCheck && w.origin == v.origin && w.resetting == v.resetting
    && w.db.tokens == v.db.tokens && w.db.users == v.db.users && w.db.nextUser == v.db.nextUser
  }

  predicate SameSession(w: World, v: World, j: Jti) {
    || (Unexpired(w, j) && Unexpired(v, j) && w.db.sessions[j] == v.db.sessions[j])
    || (!Unexpired(w, j) && !Unexpired(v, j))
  }

  predicate Unexpired(w: World, j: Jti) {
    j in w.db.sessions && w.db.sessions[j].expires >= w.now
  }

  lemma StepKeepsSame(w: World, v: World, a: Action)
    requires SameButExpired(w, v) && Legal(w, a)
    ensures SameButExpired(Next(w, a), Next(v, a)) && Legal(v, a)
  {
    StepKeepsTables(w, v, a);
    forall j ensures SameSession(Next(w, a), Next(v, a), j) {
      assert SameSession(w, v, j);
      StepKeepsSession(w, v, a, j);
    }
  }

  lemma StepKeepsTables(w: World, v: World, a: Action)
    requires SameTables(w, v) && SessionsIssued(w) && SessionsIssued(v)
    ensures SameTables(Next(w, a), Next(v, a)) && SessionsIssued(Next(w, a)) && SessionsIssued(Next(v, a))
  {
    StepIssues(w, a);
    StepIssues(v, a);
    match a
    case InviteSomeone(_, _, _) => CreatingKeepsTables(w, v, a);
    case AskReset(_, _, _) => CreatingKeepsTables(w, v, a);
    case AcceptIt(h, password) => AcceptingKeepsTables(w, v, h, password);
    case BeginReset(h, password) => BeginningKeepsTables(w, v, h, password);
    case CommitReset(h) => ResettingKeepsTables(w, v, h);
    case _ =>
  }

  lemma BeginningKeepsTables(w: World, v: World, h: Hash, password: string)
    requires SameTables(w, v)
    ensures SameTables(Next(w, BeginReset(h, password)), Next(v, BeginReset(h, password)))
  {
    assert CanBegin(w, h) == CanBegin(v, h);
  }

  lemma ResettingKeepsTables(w: World, v: World, h: Hash)
    requires SameTables(w, v)
    ensures SameTables(Next(w, CommitReset(h)), Next(v, CommitReset(h)))
  {
  }

  lemma CreatingKeepsTables(w: World, v: World, a: Action)
    requires SameTables(w, v) && (a.InviteSomeone? || a.AskReset?)
    ensures SameTables(Next(w, a), Next(v, a))
  {
    if a.InviteSomeone? {
      CreateIgnoresSessions(w.db, v.db, a.h, Invite, a.e, None, a.ttl, w.now);
    } else if a.account.Some? && a.account.value in w.db.users {
      assert Blocked(w, a.account) == Blocked(v, a.account);
      CreateIgnoresSessions(w.db, v.db, a.h, PasswordReset, w.db.users[a.account.value].email, a.account, a.ttl, w.now);
    }
  }

  lemma AcceptingKeepsTables(w: World, v: World, h: Hash, password: string)
    requires SameTables(w, v)
    ensures SameTables(Next(w, AcceptIt(h, password)), Next(v, AcceptIt(h, password)))
  {
    assert Accepts(w.db, h, w.now) == Accepts(v.db, h, v.now);
  }

  lemma CreateIgnoresSessions(db: Db, other: Db, h: Hash, p: Purpose, e: Email, user: Option<UserId>, ttl: int,
      now: int)
    requires db.tokens == other.tokens
    ensures CreateToken(db, h, p, e, user, ttl, now) ==
            other.(tokens := CreateToken(other, h, p, e, user, ttl, now).tokens, sessions := db.sessions,
                users := db.users, nextUser := db.nextUser)
    ensures CreateToken(other, h, p, e, user, ttl, now).(tokens := other.tokens) == other
  {
    assert SupersedeTokens(db, p, e, now).tokens == SupersedeTokens(other, p, e, now).tokens;
  }

  /** What a step makes of one session depends on that session alone. */
  function Moved(s: Option<Session>, a: Action, j: Jti, subject: Option<UserId>, now: int): Option<Session> {
    match a
    case Register(_, k, expires) =>
      if k == j && s.None? && subject.Some? then Some(Session(subject.value, expires, None)) else s
    case Logout(k) => if k == j then Revoked(s, now) else s
    case SignOut(u) => if s.Some? && s.value.user == u then Revoked(s, now) else s
    case CommitReset(_) => if s.Some? && subject == Some(s.value.user) then Revoked(s, now) else s
    case PurgeNow => if s.Some? && s.value.expires < now then None else s
    case _ => s
  }

  function Revoked(s: Option<Session>, now: int): Option<Session> {
    if s.Some? && s.value.revokedAt.None? then Some(s.value.(revokedAt := Some(now))) else s
  }

  function RowOf(db: Db, j: Jti): Option<Session> {
    if j in db.sessions then Some(db.sessions[j]) else None
  }

  /** The user whose sessions the step revokes, session `j` being one it could see, or whose session it
      registers. */
  function Subject(w: World, a: Action, j: Jti): Option<UserId> {
    match a
    case CommitReset(h) => if h in w.resetting && j in w.resetting[h].seen then w.resetting[h].user else None
    case Register(c, _, _) => if c in w.pending then Some(w.pending[c].user) else None
    case _ => None
  }

  lemma StepMovesSession(w: World, a: Action, j: Jti)
    ensures RowOf(Next(w, a).db, j) == Moved(RowOf(w.db, j), a, j, Subject(w, a, j), w.now)
  {
  }

  lemma StepKeepsSession(w: World, v: World, a: Action, j: Jti)
    requires SameTables(w, v) && SessionsIssued(w) && SessionsIssued(v) && SameSession(w, v, j) && Legal(w, a)
    ensures SameSession(Next(w, a), Next(v, a), j)
  {
    StepMovesSession(w, a, j);
    StepMovesSession(v, a, j);
    TimePasses(w, a);
    TimePasses(v, a);
    SameRowsMoveAlike(RowOf(w.db, j), RowOf(v.db, j), a, j, Subject(w, a, j), w.now, Next(w, a).now,
                      a.Register? && a.j == j);
  }

  lemma TimePasses(w: World, a: Action)
    ensures Next(w, a).now == if a.Wait? then w.now + a.time else w.now
  {
  }

  predicate SameRow(s: Option<Session>, t: Option<Session>, now: int) {
    s == t || ((s.None? || s.value.expires < now) && (t.None? || t.value.expires < now))
  }

  lemma SameRowsMoveAlike(s: Option<Session>, t: Option<Session>, a: Action, j: Jti, subject: Option<UserId>,
      now: int, now': int,
                          registers: bool)
    requires SameRow(s, t, now) && now <= now'
    requires registers <==> a.Register? && a.j == j
    requires registers ==> s.None? && t.None?
    ensures SameRow(Moved(s, a, j, subject, now), Moved(t, a, j, subject, now), now')
  {
  }

  /** Purging is invisible: at the end of any later run every `session_is_active` answer, and every
      other table, is what it would have been without the purge. */
  lemma {:induction false} PurgingIsInvisible(w: World, actions: seq<Action>, j: Jti)
    requires SessionsIssued(w) && LegalRun(w, actions)
    ensures var with, without := RunFrom(Next(w, PurgeNow), actions), RunFrom(w, actions);
            && SameButExpired(without, with)
            && IsActive(with.db, j, with.now) == IsActive(without.db, j, without.now)
    decreases |actions|
  {
    if actions == [] {
      forall k ensures SameSession(w, Next(w, PurgeNow), k) { }
      assert SameSession(w, Next(w, PurgeNow), j);
    } else {
      var init, last := actions[..|actions| - 1], actions[|actions| - 1];
      PurgingIsInvisible(w, init, j);
      StepKeepsSame(RunFrom(w, init), RunFrom(Next(w, PurgeNow), init), last);
      assert SameSession(RunFrom(w, actions), RunFrom(Next(w, PurgeNow), actions), j);
    }
  }
}
