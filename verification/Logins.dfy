/** Logins that overlap a password reset (app/api/auth_routes.py): `login` reads the user's row, checks the
    password, and registers its session in a later statement; `confirm_password_reset` revokes sessions in
    one statement and shows that and the new password only when it commits. */
module Logins {
  import opened Common
  import opened AuthState

  // ---- what every run keeps ------------------------------------------------------------------------

  /** Logins carry their place, sessions come from a login of their user, and user ids are fresh. */
  ghost predicate LoginsSound(w: World) {
    && SessionsIssued(w)
    && (forall c :: c in w.pending ==> c < w.nextCheck && w.pending[c].serial == c)
    && (forall j :: j in w.db.sessions ==> HasOrigin(w, j))
    && (forall j :: j in w.origin ==> j in w.issued)
    && (forall u :: u in w.db.users ==> u < w.db.nextUser)
    && (forall h :: h in w.resetting ==> w.resetting[h].seen <= w.issued)
  }

  predicate HasOrigin(w: World, j: Jti)
    requires j in w.db.sessions
  {
    j in w.origin && w.origin[j].user == w.db.sessions[j].user && w.origin[j].serial < w.nextCheck
  }

  lemma StepKeepsOrigins(w: World, a: Action, j: Jti)
    requires LoginsSound(w) && Legal(w, a) && j in Next(w, a).db.sessions
    ensures HasOrigin(Next(w, a), j)
  {
    StepMovesSession(w, a, j);
    assert j in w.db.sessions || a.Register?;
    if j in w.db.sessions { assert HasOrigin(w, j); }
  }

  lemma StepKeepsUsers(w: World, a: Action)
    requires forall u :: u in w.db.users ==> u < w.db.nextUser
    ensures forall u :: u in Next(w, a).db.users ==> u < Next(w, a).db.nextUser
    ensures w.db.nextUser <= Next(w, a).db.nextUser
  {
  }

  lemma StepKeepsLoginsSound(w: World, a: Action)
    requires LoginsSound(w) && Legal(w, a)
    ensures LoginsSound(Next(w, a))
  {
    StepIssues(w, a);
    StepKeepsUsers(w, a);
    forall j | j in Next(w, a).db.sessions ensures HasOrigin(Next(w, a), j) { StepKeepsOrigins(w, a, j); }
  }

  lemma {:induction false} RunKeepsLoginsSound(w: World, actions: seq<Action>)
    requires LoginsSound(w) && LegalRun(w, actions)
    ensures LoginsSound(RunFrom(w, actions))
    decreases |actions|
  {
    if actions != [] {
      RunKeepsLoginsSound(w, actions[..|actions| - 1]);
      StepKeepsLoginsSound(RunFrom(w, actions[..|actions| - 1]), actions[|actions| - 1]);
    }
  }

  lemma RunsKeepLoginsSound(actions: seq<Action>)
    requires LegalRun(EMPTY, actions)
    ensures LoginsSound(RunFrom(EMPTY, actions))
  {
    RunKeepsLoginsSound(EMPTY, actions);
  }

  // ---- where sessions come from --------------------------------------------------------------------

  /** The login was checked before world `w`. */
  predicate CheckedBefore(w: World, login: Login) {
    login.serial < w.nextCheck
  }

  /** A login that goes back to before `w` is one that was pending there. */
  predicate KnownLogin(w: World, login: Login) {
    CheckedBefore(w, login) ==> login.serial in w.pending && w.pending[login.serial] == login
  }

  /** A session of a world reached from `w`: one of `w`'s, or one registered since by a known login. */
  predicate KnownSession(w: World, v: World, j: Jti)
    requires j in v.db.sessions
  {
    if j in w.issued then j in w.db.sessions && v.db.sessions[j].user == w.db.sessions[j].user
    else j in v.origin && v.origin[j].user == v.db.sessions[j].user && KnownLogin(w, v.origin[j])
  }

  /** How a world `v` that is reached from `w` relates to it. */
  ghost predicate Since(w: World, v: World) {
    && SessionsIssued(v) && w.nextCheck <= v.nextCheck && w.issued <= v.issued
    && (forall c :: c in v.pending ==> v.pending[c].serial == c && KnownLogin(w, v.pending[c]))
    && (forall j :: j in v.db.sessions ==> KnownSession(w, v, j))
  }

  lemma StepKeepsKnownSession(w: World, v: World, a: Action, j: Jti)
    requires Since(w, v) && Legal(v, a) && j in Next(v, a).db.sessions
    ensures KnownSession(w, Next(v, a), j)
  {
    StepMovesSession(v, a, j);
    if j in v.db.sessions { assert KnownSession(w, v, j); }
  }

  lemma StepKeepsSince(w: World, v: World, a: Action)
    requires Since(w, v) && Legal(v, a)
    ensures Since(w, Next(v, a))
  {
    StepIssues(v, a);
    forall j | j in Next(v, a).db.sessions ensures KnownSession(w, Next(v, a), j) { StepKeepsKnownSession(w, v, a, j); }
  }

  lemma {:induction false} RunKeepsSince(w: World, v: World, later: seq<Action>)
    requires Since(w, v) && LegalRun(v, later)
    ensures Since(w, RunFrom(v, later))
    decreases |later|
  {
    if later != [] {
      RunKeepsSince(w, v, later[..|later| - 1]);
      StepKeepsSince(w, RunFrom(v, later[..|later| - 1]), later[|later| - 1]);
    }
  }

  lemma SinceItself(w: World)
    requires LoginsSound(w)
    ensures Since(w, w)
  {
  }

  // ---- a reset and what happens inside it ------------------------------------------------------------

  /** The reset is open and about user `u`. */
  predicate OpenFor(w: World, h: Hash, u: UserId) {
    h in w.resetting && w.resetting[h].user == Some(u)
  }

  predicate BeginsFor(w: World, h: Hash, u: UserId) {
    CanBegin(w, h) && w.db.tokens[h].user == Some(u)
  }

  /** Between the revocation and the commit. */
  predicate StaysOpen(mid: seq<Action>, h: Hash) {
    forall i :: 0 <= i < |mid| ==> mid[i] != CommitReset(h) && mid[i] != AbortReset(h)
  }

  lemma {:induction false} StillOpen(v: World, mid: seq<Action>, h: Hash)
    requires h in v.resetting && StaysOpen(mid, h)
    ensures var c := RunFrom(v, mid); h in c.resetting && c.resetting[h] == v.resetting[h]
    decreases |mid|
  {
    if mid != [] {
      StillOpen(v, mid[..|mid| - 1], h);
      StepKeepsOpen(RunFrom(v, mid[..|mid| - 1]), mid[|mid| - 1], h);
    }
  }

  lemma StepKeepsOpen(w: World, a: Action, h: Hash)
    requires h in w.resetting && a != CommitReset(h) && a != AbortReset(h)
    ensures h in Next(w, a).resetting && Next(w, a).resetting[h] == w.resetting[h]
  {
  }

  /** No continuation of the commit has an active session of `u` that comes from a check made before
      it. */
  ghost predicate ResetIsComplete(c: World, h: Hash, u: UserId) {
    forall later: seq<Action>, j :: !StaleSession(c, h, u, later, j)
  }

  predicate StaleSession(c: World, h: Hash, u: UserId, later: seq<Action>, j: Jti) {
    LegalRun(Next(c, CommitReset(h)), later) &&
    var end := RunFrom(Next(c, CommitReset(h)), later);
    && IsActive(end.db, j, end.now) && end.db.sessions[j].user == u
    && j in end.origin && CheckedBefore(c, end.origin[j])
  }

  /** A session of `u` that the revocation could not see: registered since. */
  predicate Unseen(c: World, h: Hash, u: UserId, j: Jti) {
    && h in c.resetting && IsActive(c.db, j, c.now) && c.db.sessions[j].user == u && j !in c.resetting[h].seen
  }

  lemma FreshId(issued: set<Jti>) returns (j: Jti)
    ensures j !in issued
  {
    var n := LongerThanAll(issued);
    j := seq(n, _ => 'x');
  }

  lemma LongerThanAll(s: set<Jti>) returns (n: nat)
    ensures forall x :: x in s ==> |x| < n
    decreases s
  {
    n := 0;
    if s != {} {
      var x :| x in s;
      var m := LongerThanAll(s - {x});
      n := if |x| < m then m else |x| + 1;
      assert forall y :: y in s ==> y == x || y in s - {x};
    }
  }

  lemma OneStepRun(v: World, a: Action)
    ensures RunFrom(v, [a]) == Next(v, a)
    ensures LegalRun(v, [a]) <==> Legal(v, a)
  {
    assert [a][..0] == [];
  }

  /** A login that checked the old password before the commit and registers its session after it is not
      caught. */
  lemma LateLoginSurvivesReset(c: World, h: Hash, u: UserId, l: nat) returns (later: seq<Action>, j: Jti)
    requires LoginsSound(c) && OpenFor(c, h, u) && l in c.pending && c.pending[l].user == u
    ensures StaleSession(c, h, u, later, j)
    ensures RunFrom(Next(c, CommitReset(h)), later).origin[j] == c.pending[l]
  {
    j := FreshId(c.issued);
    var v := Next(c, CommitReset(h));
    later := [Register(l, j, c.now + 1)];
    OneStepRun(v, later[0]);
    assert j !in v.db.sessions;
  }

  /** Nor is one that registered between the revocation and the commit. */
  lemma UnseenSurvivesReset(c: World, h: Hash, u: UserId, j: Jti)
    requires LoginsSound(c) && Unseen(c, h, u, j)
    ensures StaleSession(c, h, u, [], j)
  {
    assert HasOrigin(c, j);
    StepMovesSession(c, CommitReset(h), j);
  }

  lemma CommitKeepsSince(c: World, h: Hash)
    requires LoginsSound(c)
    ensures Since(c, Next(c, CommitReset(h)))
  {
    SinceItself(c);
    StepKeepsSince(c, c, CommitReset(h));
  }

  lemma StaleIsUnseenOrPending(c: World, h: Hash, u: UserId, later: seq<Action>, j: Jti)
    requires LoginsSound(c) && OpenFor(c, h, u) && StaleSession(c, h, u, later, j)
    ensures Unseen(c, h, u, j) || exists l :: l in c.pending && c.pending[l].user == u
  {
    var after := Next(c, CommitReset(h));
    var end := RunFrom(after, later);
    CommitKeepsSince(c, h);
    RunKeepsSince(c, after, later);
    assert KnownSession(c, end, j);
    if j in c.issued {
      if Ended(after, j) { EndedStaysEnded(after, later, j); }
      StepMovesSession(c, CommitReset(h), j);
    } else {
      assert end.origin[j].serial in c.pending;
    }
  }

  /** "Any token issued before the reset is dead", for whatever happened before the commit: no session can
      come from a check made before it exactly when no login of the user is waiting to register as it
      commits and no active session of the user has been registered behind the revocation's back. */
  lemma CommitIsCompleteIff(c: World, h: Hash, u: UserId)
    requires LoginsSound(c) && OpenFor(c, h, u)
    ensures ResetIsComplete(c, h, u) <==>
            (!exists l :: l in c.pending && c.pending[l].user == u) && !exists j :: Unseen(c, h, u, j)
  {
    if l :| l in c.pending && c.pending[l].user == u {
      var later, j := LateLoginSurvivesReset(c, h, u, l);
      assert StaleSession(c, h, u, later, j);
    } else if j :| Unseen(c, h, u, j) {
      UnseenSurvivesReset(c, h, u, j);
    } else {
      forall later: seq<Action>, j ensures !StaleSession(c, h, u, later, j) {
        if StaleSession(c, h, u, later, j) { StaleIsUnseenOrPending(c, h, u, later, j); }
      }
    }
  }

  // ---- seen from the revocation ----------------------------------------------------------------------

  /** The step is a check of the user's password that passes. */
  predicate Passes(v: World, a: Action, u: UserId) {
    var v' := Next(v, a);
    v'.nextCheck > v.nextCheck && v.nextCheck in v'.pending && v'.pending[v.nextCheck].user == u
  }

  /** No login of the user passes its check. */
  predicate NoneChecks(v: World, mid: seq<Action>, u: UserId)
    decreases |mid|
  {
    mid != [] ==> NoneChecks(v, mid[..|mid| - 1], u) && !Passes(RunFrom(v, mid[..|mid| - 1]), mid[|mid| - 1], u)
  }

  /** All logins of the user go back to before `w`. */
  ghost predicate NoNewLogin(w: World, u: UserId, v: World) {
    && w.nextCheck <= v.nextCheck
    && (forall c :: c in v.pending && v.pending[c].user == u ==> CheckedBefore(w, v.pending[c]))
    && (forall j :: j in v.origin && v.origin[j].user == u && j !in w.issued ==> CheckedBefore(w, v.origin[j]))
  }

  lemma StepAddsNoLogin(w: World, u: UserId, v: World, a: Action)
    requires NoNewLogin(w, u, v) && !Passes(v, a, u)
    ensures NoNewLogin(w, u, Next(v, a))
  {
    var v' := Next(v, a);
    forall c | c in v'.pending && v'.pending[c].user == u ensures CheckedBefore(w, v'.pending[c]) {
      assert c == v.nextCheck ==> v'.nextCheck == v.nextCheck;
    }
  }

  lemma {:induction false} RunAddsNoLogin(w: World, u: UserId, v: World, mid: seq<Action>)
    requires NoNewLogin(w, u, v) && NoneChecks(v, mid, u)
    ensures NoNewLogin(w, u, RunFrom(v, mid))
    decreases |mid|
  {
    if mid != [] {
      RunAddsNoLogin(w, u, v, mid[..|mid| - 1]);
      StepAddsNoLogin(w, u, RunFrom(v, mid[..|mid| - 1]), mid[|mid| - 1]);
    }
  }

  /** What may happen between the revocation and the commit without a check of the user's password. */
  predicate QuietInside(v: World, mid: seq<Action>, h: Hash, u: UserId) {
    LegalRun(v, mid) && StaysOpen(mid, h) && NoneChecks(v, mid, u)
  }

  lemma QuietIsComplete(w: World, h: Hash, password: string, u: UserId, mid: seq<Action>)
    requires LoginsSound(w) && BeginsFor(w, h, u) && !exists l :: l in w.pending && w.pending[l].user == u
    requires QuietInside(Next(w, BeginReset(h, password)), mid, h, u)
    ensures ResetIsComplete(RunFrom(Next(w, BeginReset(h, password)), mid), h, u)
  {
    var v := Next(w, BeginReset(h, password));
    var c := RunFrom(v, mid);
    StepKeepsLoginsSound(w, BeginReset(h, password));
    RunKeepsLoginsSound(v, mid);
    StillOpen(v, mid, h);
    SinceItself(w);
    StepKeepsSince(w, w, BeginReset(h, password));
    RunKeepsSince(w, v, mid);
    RunAddsNoLogin(w, u, v, mid);
    forall l | l in c.pending ensures c.pending[l].user != u { assert KnownLogin(w, c.pending[l]); }
    forall j ensures !Unseen(c, h, u, j) {
      if j in c.db.sessions { assert KnownSession(w, c, j); }
    }
    CommitIsCompleteIff(c, h, u);
  }

  /** Seen from the revocation: whatever else happens before the commit, as long as no login of the user
      passes its check in between, the reset is complete exactly when none was waiting to register. */
  lemma ResetIsCompleteIff(w: World, h: Hash, password: string, u: UserId)
    requires LoginsSound(w) && BeginsFor(w, h, u)
    ensures (!exists l :: l in w.pending && w.pending[l].user == u) <==>
            forall mid: seq<Action> :: QuietInside(Next(w, BeginReset(h, password)), mid, h, u) ==>
              ResetIsComplete(RunFrom(Next(w, BeginReset(h, password)), mid), h, u)
  {
    var v := Next(w, BeginReset(h, password));
    if exists l :: l in w.pending && w.pending[l].user == u {
      StepKeepsLoginsSound(w, BeginReset(h, password));
      CommitIsCompleteIff(v, h, u);
      assert RunFrom(v, []) == v && QuietInside(v, [], h, u);
    } else {
      forall mid: seq<Action> | QuietInside(v, mid, h, u) ensures ResetIsComplete(RunFrom(v, mid), h, u) {
        QuietIsComplete(w, h, password, u, mid);
      }
    }
  }

  /** And a login that checks the old password and registers inside the reset always gets past it, though
      none is pending at either end. */
  lemma InsideLoginSurvives(w: World, h: Hash, password: string, u: UserId) returns (mid: seq<Action>)
    requires LoginsSound(w) && BeginsFor(w, h, u) && u in w.db.users
    ensures var v := Next(w, BeginReset(h, password)); var c := RunFrom(v, mid);
            && LegalRun(v, mid) && StaysOpen(mid, h) && c.pending == w.pending && !ResetIsComplete(c, h, u)
  {
    var v := Next(w, BeginReset(h, password));
    var j := FreshId(w.issued);
    mid := [CheckPassword(u, w.db.users[u].password), Register(w.nextCheck, j, w.now + 1)];
    StepKeepsLoginsSound(w, BeginReset(h, password));
    InsideLogin(v, u, j);
    StillOpen(v, mid, h);
    RunKeepsLoginsSound(v, mid);
    assert Unseen(RunFrom(v, mid), h, u, j);
    CommitIsCompleteIff(RunFrom(v, mid), h, u);
  }

  lemma InsideLogin(v: World, u: UserId, j: Jti)
    requires LoginsSound(v) && u in v.db.users && j !in v.issued
    ensures var mid := [CheckPassword(u, v.db.users[u].password), Register(v.nextCheck, j, v.now + 1)];
            && LegalRun(v, mid)
            && var c := RunFrom(v, mid);
               c.pending == v.pending && IsActive(c.db, j, c.now) && c.db.sessions[j].user == u
  {
    var check, register := CheckPassword(u, v.db.users[u].password), Register(v.nextCheck, j, v.now + 1);
    assert [check, register][..1] == [check];
    OneStepRun(v, check);
    var checked := Next(v, check);
    assert checked.pending == v.pending[v.nextCheck := Login(u, v.db.users[u].password, v.nextCheck)];
    assert RunFrom(v, [check, register]) == Next(checked, register);
    assert v.nextCheck !in v.pending;
    assert Next(checked, register).pending == v.pending;
  }

  /** After the commit, whatever follows: an active session of the user was registered after the
      revocation, by a login checked after it or pending as it ran. */
  lemma ActiveAfterReset(w: World, h: Hash, password: string, u: UserId, mid: seq<Action>, later: seq<Action>, j: Jti)
    requires LoginsSound(w) && BeginsFor(w, h, u)
    requires LegalRun(Next(w, BeginReset(h, password)), mid) && StaysOpen(mid, h)
    requires LegalRun(Next(RunFrom(Next(w, BeginReset(h, password)), mid), CommitReset(h)), later)
    requires var end := RunFrom(Next(RunFrom(Next(w, BeginReset(h, password)), mid), CommitReset(h)), later);
             IsActive(end.db, j, end.now) && end.db.sessions[j].user == u
    ensures var end := RunFrom(Next(RunFrom(Next(w, BeginReset(h, password)), mid), CommitReset(h)), later);
            j !in w.issued && j in end.origin && end.origin[j].user == u && KnownLogin(w, end.origin[j])
  {
    var v := Next(w, BeginReset(h, password));
    var c := RunFrom(v, mid);
    var after := Next(c, CommitReset(h));
    StillOpen(v, mid, h);
    SinceItself(w);
    StepKeepsSince(w, w, BeginReset(h, password));
    RunKeepsSince(w, v, mid);
    StepKeepsSince(w, c, CommitReset(h));
    RunKeepsSince(w, after, later);
    assert KnownSession(w, RunFrom(after, later), j);
    if j in w.issued {
      StepMovesSession(c, CommitReset(h), j);
      if j in c.db.sessions { assert KnownSession(w, c, j); }
      EndedStaysEnded(after, later, j);
    }
  }

  // ---- which password it was -----------------------------------------------------------------------

  /** The step commits a reset of `u`. */
  predicate ResetOf(v: World, a: Action, u: UserId) {
    a.CommitReset? && OpenFor(v, a.h, u)
  }

  /** No further reset of `u`. */
  predicate QuietRun(v: World, later: seq<Action>, u: UserId)
    decreases |later|
  {
    later != [] ==>
      QuietRun(v, later[..|later| - 1], u) && !ResetOf(RunFrom(v, later[..|later| - 1]), later[|later| - 1], u)
  }

  /** Logins of `u` checked since `w` read `password`, which is still the one stored. */
  ghost predicate ReadsNew(w: World, u: UserId, password: string, v: World) {
    && w.nextCheck <= v.nextCheck && u < v.db.nextUser && u in v.db.users && v.db.users[u].password == password
    && (forall c :: c in v.pending ==> ReadIt(w, u, password, v.pending[c]) && v.pending[c].serial == c)
    && (forall j :: j in v.origin && j !in w.issued ==> ReadIt(w, u, password, v.origin[j]))
  }

  predicate ReadIt(w: World, u: UserId, password: string, login: Login) {
    login.user == u && !CheckedBefore(w, login) ==> login.read == password
  }

  lemma StepKeepsPassword(v: World, a: Action, u: UserId)
    requires u in v.db.users && u < v.db.nextUser && !ResetOf(v, a, u)
    ensures u in Next(v, a).db.users && Next(v, a).db.users[u].password == v.db.users[u].password &&
        u < Next(v, a).db.nextUser
  {
  }

  lemma StepKeepsReadsNew(w: World, u: UserId, password: string, v: World, a: Action)
    requires ReadsNew(w, u, password, v) && !ResetOf(v, a, u)
    ensures ReadsNew(w, u, password, Next(v, a))
  {
    StepKeepsPassword(v, a, u);
  }

  lemma {:induction false} RunKeepsReadsNew(w: World, u: UserId, password: string, v: World, later: seq<Action>)
    requires ReadsNew(w, u, password, v) && QuietRun(v, later, u)
    ensures ReadsNew(w, u, password, RunFrom(v, later))
    decreases |later|
  {
    if later != [] {
      RunKeepsReadsNew(w, u, password, v, later[..|later| - 1]);
      StepKeepsReadsNew(w, u, password, RunFrom(v, later[..|later| - 1]), later[|later| - 1]);
    }
  }

  /** Until the next reset, a session from a check made after this commit comes from a check of the new
      password. */
  lemma SessionsReadTheNewPassword(c: World, h: Hash, u: UserId, later: seq<Action>, j: Jti)
    requires LoginsSound(c) && OpenFor(c, h, u) && u in c.db.users && QuietRun(Next(c, CommitReset(h)), later, u)
    requires var end := RunFrom(Next(c, CommitReset(h)), later);
             j in end.origin && j !in c.issued && end.origin[j].user == u && !CheckedBefore(c, end.origin[j])
    ensures RunFrom(Next(c, CommitReset(h)), later).origin[j].read == c.resetting[h].password
  {
    assert ReadsNew(c, u, c.resetting[h].password, Next(c, CommitReset(h)));
    RunKeepsReadsNew(c, u, c.resetting[h].password, Next(c, CommitReset(h)), later);
  }
}
