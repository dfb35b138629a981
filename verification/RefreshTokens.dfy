/** gateway/routes/auth.py: refresh-token rotation.  Handlers are serial transactions; tokens are fresh and
    hashing them is injective, so a stored row is found by its token. */
module RefreshTokens {
  datatype Row = Row(user: nat, expires: real, revoked: bool)

  /** The token table and the next fresh token, with what an observer notes: the refreshes that succeeded, in
      order, and for each user the tokens issued before the last detected reuse and the logins since. */
  datatype State = State(
    rows: map<nat, Row>, next: nat, succeeded: seq<nat>, barrier: map<nat, nat>, logins: map<nat, nat>)
  {
    function Barrier(user: nat): nat { if user in barrier then barrier[user] else 0 }
    function Logins(user: nat): nat { if user in logins then logins[user] else 0 }

    /** The user's tokens that are not revoked. */
    function Live(user: nat): set<nat> {
      set t | t in rows && rows[t].user == user && !rows[t].revoked
    }
  }

  const INITIAL := State(map[], 0, [], map[], map[])

  datatype Request =
    | Login(user: nat, authentic: bool, active: bool, expires: real)
    | Refresh(token: nat, now: real, active: bool, expires: real)
    | Logout(token: nat)

  datatype Response = Issued(token: nat) | Unauthorized | Forbidden | Invalid | Reused | Expired | LoggedOut

  /** The bulk update that revokes a user's whole family. */
  function RevokeFamily(rows: map<nat, Row>, user: nat): map<nat, Row> {
    map t | t in rows :: if rows[t].user == user then rows[t].(revoked := true) else rows[t]
  }

  /** `_issue_tokens`. */
  function Issue(s: State, user: nat, expires: real): State {
    s.(rows := s.rows[s.next := Row(user, expires, false)], next := s.next + 1)
  }

  function Respond(s: State, q: Request): Response {
    match q
    case Login(_, authentic, active, _) =>
      if !authentic then Unauthorized else if !active then Forbidden else Issued(s.next)
    case Refresh(token, now, active, _) =>
      if token !in s.rows then Invalid
      else if s.rows[token].revoked then Reused
      else if s.rows[token].expires < now then Expired
      else if !active then Invalid
      else Issued(s.next)
    case Logout(_) => LoggedOut
  }

  function Serve(s: State, q: Request): State {
    match (q, Respond(s, q))
    case (Login(user, _, _, expires), Issued(_)) =>
      Issue(s, user, expires).(logins := s.logins[user := s.Logins(user) + 1])
    case (Refresh(token, _, _, expires), Issued(_)) =>
      var row := s.rows[token];
      Issue(s.(rows := s.rows[token := row.(revoked := true)]), row.user, expires).(succeeded := s.succeeded + [token])
    case (Refresh(token, _, _, _), Reused) =>
      var user := s.rows[token].user;
      s.(rows := RevokeFamily(s.rows, user), barrier := s.barrier[user := s.next], logins := s.logins[user := 0])
    case (Logout(token), _) =>
      if token in s.rows then s.(rows := s.rows[token := s.rows[token].(revoked := true)]) else s
    case _ => s
  }

  // ---- Invariant ----

  ghost predicate Inv(s: State) {
    && (forall t | t in s.rows :: t < s.next)
    && (forall i | 0 <= i < |s.succeeded| :: s.succeeded[i] in s.rows && s.rows[s.succeeded[i]].revoked)
    && (forall i, j | 0 <= i < j < |s.succeeded| :: s.succeeded[i] != s.succeeded[j])
    && (forall user: nat :: s.Barrier(user) <= s.next)
    && (forall t | t in s.rows && t < s.Barrier(s.rows[t].user) :: s.rows[t].revoked)
    && (forall user: nat :: |s.Live(user)| <= s.Logins(user))
  }

  lemma Smaller(a: set<nat>, b: set<nat>)
    requires a <= b
    ensures |a| <= |b|
  {
    assert b == a + (b - a);
  }

  /** How one request changes the live tokens of a user. */
  lemma {:induction false} LiveStep(s: State, q: Request, user: nat)
    requires Inv(s)
    ensures |Serve(s, q).Live(user)| <= Serve(s, q).Logins(user)
  {
    hide Serve, Inv, Respond;
    match q
    case Login(_, _, _, _) => LiveAfterLogin(s, q, user);
    case Refresh(_, _, _, _) => LiveAfterRefresh(s, q, user);
    case Logout(_) => LiveAfterLogout(s, q, user);
  }

  lemma {:induction false} LiveAfterLogin(s: State, q: Request, user: nat)
    requires Inv(s) && q.Login?
    ensures |Serve(s, q).Live(user)| <= Serve(s, q).Logins(user)
  {
    assert |s.Live(user)| <= s.Logins(user) && s.next !in s.rows;
    hide Inv;
    if Respond(s, q).Issued? { LiveAfterIssue(s, q.user, q.expires, user); }
  }

  /** A fresh token is one more live token of its user. */
  lemma {:induction false} LiveAfterIssue(s: State, owner: nat, expires: real, user: nat)
    requires s.next !in s.rows
    ensures Issue(s, owner, expires).Live(user) == s.Live(user) + if owner == user then {s.next} else {}
    ensures s.next !in s.Live(user)
  {
  }

  lemma {:induction false} LiveAfterRefresh(s: State, q: Request, user: nat)
    requires Inv(s) && q.Refresh?
    ensures |Serve(s, q).Live(user)| <= Serve(s, q).Logins(user)
  {
    assert |s.Live(user)| <= s.Logins(user);
    if Respond(s, q).Issued? {
      LiveAfterRotation(s, q, user);
    } else if Respond(s, q).Reused? {
      LiveAfterReuse(s, q, user);
    }
  }

  lemma {:induction false} LiveAfterRotation(s: State, q: Request, user: nat)
    requires q.Refresh? && Respond(s, q).Issued? && s.next !in s.rows
    ensures |Serve(s, q).Live(user)| == |s.Live(user)|
  {
    var live, live', mine := s.Live(user), Serve(s, q).Live(user), s.rows[q.token].user == user;
    if mine {
      assert q.token in live && s.next !in live;
      assert live' == (live - {q.token}) + {s.next};
    } else {
      assert live' == live;
    }
  }

  lemma {:induction false} LiveAfterReuse(s: State, q: Request, user: nat)
    requires q.Refresh? && Respond(s, q).Reused?
    ensures Serve(s, q).Live(user) == if s.rows[q.token].user == user then {} else s.Live(user)
  {
    var rows' := RevokeFamily(s.rows, s.rows[q.token].user);
    assert Serve(s, q).rows == rows';
  }

  lemma {:induction false} LiveAfterLogout(s: State, q: Request, user: nat)
    requires Inv(s) && q.Logout?
    ensures |Serve(s, q).Live(user)| <= Serve(s, q).Logins(user)
  {
    var live, live' := s.Live(user), Serve(s, q).Live(user);
    assert |live| <= s.Logins(user);
    assert live' <= live;
    Smaller(live', live);
  }

  lemma {:induction false} InvStep(s: State, q: Request)
    requires Inv(s)
    ensures Inv(Serve(s, q))
  {
    var s' := Serve(s, q);
    forall user: nat
      ensures |s'.Live(user)| <= s'.Logins(user)
      ensures s'.Barrier(user) <= s'.next
    {
      LiveStep(s, q, user);
      assert s.Barrier(user) <= s.next;
    }
    forall t | t in s'.rows && t < s'.Barrier(s'.rows[t].user) ensures s'.rows[t].revoked {
      assert s.Barrier(s'.rows[t].user) <= s.next;
    }
  }

  function Run(s: State, requests: seq<Request>): State {
    if requests == [] then s else Serve(Run(s, requests[..|requests| - 1]), requests[|requests| - 1])
  }

  lemma {:induction false} InvRun(requests: seq<Request>)
    ensures Inv(Run(INITIAL, requests))
  {
    if requests == [] {
      assert forall user: nat :: INITIAL.Live(user) == {};
    } else {
      InvRun(requests[..|requests| - 1]);
      InvStep(Run(INITIAL, requests[..|requests| - 1]), requests[|requests| - 1]);
    }
  }

  /** Barriers only rise. */
  lemma {:induction false} BarrierRises(s: State, requests: seq<Request>, user: nat)
    requires Inv(s)
    ensures Inv(Run(s, requests)) && Run(s, requests).Barrier(user) >= s.Barrier(user)
  {
    if requests != [] {
      var before := Run(s, requests[..|requests| - 1]);
      BarrierRises(s, requests[..|requests| - 1], user);
      InvStep(before, requests[|requests| - 1]);
    }
  }

  /** Rows are never removed and never change hands. */
  lemma {:induction false} RowsStay(s: State, requests: seq<Request>, t: nat)
    requires Inv(s) && t in s.rows
    ensures t in Run(s, requests).rows && Run(s, requests).rows[t].user == s.rows[t].user
  {
    if requests != [] {
      RowsStay(s, requests[..|requests| - 1], t);
      BarrierRises(s, requests[..|requests| - 1], 0);
    }
  }

  /** After a detected reuse, whatever happens next, no token of that user that existed then succeeds again. */
  lemma FamilyIsDead(requests: seq<Request>, reuse: Request, later: seq<Request>, token: nat,
                     now: real, active: bool, expires: real)
    requires var s := Run(INITIAL, requests); reuse.Refresh? && Respond(s, reuse) == Reused
    requires var s := Run(INITIAL, requests); token in s.rows && s.rows[token].user == s.rows[reuse.token].user
    ensures var s' := Run(Serve(Run(INITIAL, requests), reuse), later);
            Respond(s', Refresh(token, now, active, expires)) == Reused
  {
    var s := Run(INITIAL, requests);
    InvRun(requests);
    var dead := Serve(s, reuse);
    InvStep(s, reuse);
    assert token < s.next == dead.Barrier(s.rows[token].user);
    BarrierRises(dead, later, s.rows[token].user);
    RowsStay(dead, later, token);
  }

  // ---- Why a token is revoked ----

  /** The request revokes the token: it rotates it, logs it out, or presents a revoked token of the same user. */
  predicate Revokes(before: State, q: Request, t: nat) {
    && t in before.rows
    && match q
       case Login(_, _, _, _) => false
       case Logout(token) => token == t
       case Refresh(token, now, active, _) =>
         && token in before.rows
         && if before.rows[token].revoked then before.rows[token].user == before.rows[t].user
            else token == t && before.rows[t].expires >= now && active
  }

  lemma {:induction false} RevokedStep(s: State, q: Request, t: nat)
    requires Inv(s) && t in Serve(s, q).rows
    ensures Serve(s, q).rows[t].revoked <==> Revokes(s, q, t) || (t in s.rows && s.rows[t].revoked)
  {
  }

  lemma RowKept(s: State, q: Request, t: nat)
    requires t in s.rows
    ensures t in Serve(s, q).rows
  {
  }

  /** The `i`-th request of the run revokes the token. */
  ghost predicate RevokedAt(requests: seq<Request>, i: nat, t: nat)
    requires i < |requests|
  {
    Revokes(Run(INITIAL, requests[..i]), requests[i], t)
  }

  lemma RunSnoc(s: State, requests: seq<Request>, n: nat)
    requires n < |requests|
    ensures Run(s, requests[..n + 1]) == Serve(Run(s, requests[..n]), requests[n])
  {
    assert requests[..n + 1][..n] == requests[..n];
  }

  lemma {:induction false} StillThere(requests: seq<Request>, i: nat, n: nat, t: nat)
    requires i <= n <= |requests| && t in Run(INITIAL, requests[..i]).rows
    ensures t in Run(INITIAL, requests[..n]).rows
    decreases n
  {
    hide Run, Serve;
    if i < n {
      StillThere(requests, i, n - 1, t);
      RunSnoc(INITIAL, requests, n - 1);
      RowKept(Run(INITIAL, requests[..n - 1]), requests[n - 1], t);
    }
  }

  /** The same for every prefix of a run. */
  lemma {:induction false} RevokedUpTo(requests: seq<Request>, n: nat, t: nat)
    requires n <= |requests| && t in Run(INITIAL, requests[..n]).rows
    ensures Run(INITIAL, requests[..n]).rows[t].revoked <==>
            exists i: nat :: i < n && RevokedAt(requests, i, t)
  {
    if n > 0 {
      var s := Run(INITIAL, requests[..n - 1]);
      InvRun(requests[..n - 1]);
      RunSnoc(INITIAL, requests, n - 1);
      hide Run, Serve, Inv;
      RevokedStep(s, requests[n - 1], t);
      if t in s.rows {
        RevokedUpTo(requests, n - 1, t);
      } else {
        forall i: nat | i < n ensures !RevokedAt(requests, i, t) {
          if t in Run(INITIAL, requests[..i]).rows { StillThere(requests, i, n - 1, t); }
        }
      }
      assert RevokedAt(requests, n - 1, t) <==> Revokes(s, requests[n - 1], t);
    }
  }

  /** In every run a token is revoked if and only if some request of the run revoked it: nothing else makes a
      client's token unusable before it expires, and nothing makes a revoked one usable again. */
  lemma RevokedIff(requests: seq<Request>, t: nat)
    requires t in Run(INITIAL, requests).rows
    ensures Run(INITIAL, requests).rows[t].revoked <==>
            exists i: nat :: i < |requests| && RevokedAt(requests, i, t)
  {
    assert requests[..|requests|] == requests;
    RevokedUpTo(requests, |requests|, t);
  }

  // ---- Single use, and how many tokens are live ----

  /** The `i`-th request of the run is a refresh with the token that succeeds. */
  ghost predicate RotatesAt(requests: seq<Request>, i: nat, t: nat)
    requires i < |requests|
  {
    requests[i].Refresh? && requests[i].token == t && Respond(Run(INITIAL, requests[..i]), requests[i]).Issued?
  }

  lemma RotatedOnce(requests: seq<Request>, i: nat, j: nat, t: nat)
    requires i < j < |requests| && RotatesAt(requests, i, t)
    ensures !RotatesAt(requests, j, t)
  {
    assert RevokedAt(requests, i, t);
    StillThere(requests, i, j, t);
    RevokedUpTo(requests, j, t);
  }

  /** The user's logins among the first `n` requests since the last detected reuse of one of the user's tokens. */
  ghost function LoginsSince(requests: seq<Request>, n: nat, user: nat): nat
    requires n <= |requests|
  {
    if n == 0 then 0
    else
      var earlier, s, q := LoginsSince(requests, n - 1, user), Run(INITIAL, requests[..n - 1]), requests[n - 1];
      match q
      case Login(u, authentic, active, _) => if u == user && authentic && active then earlier + 1 else earlier
      case Refresh(token, _, _, _) =>
        if token in s.rows && s.rows[token].revoked && s.rows[token].user == user then 0 else earlier
      case Logout(_) => earlier
  }

  lemma LoginsStep(s: State, q: Request, user: nat)
    ensures Serve(s, q).Logins(user) ==
            match q
            case Login(u, authentic, active, _) => s.Logins(user) + if u == user && authentic && active then 1 else 0
            case Refresh(token, _, _, _) =>
              if token in s.rows && s.rows[token].revoked && s.rows[token].user == user then 0 else s.Logins(user)
            case Logout(_) => s.Logins(user)
  {
  }

  lemma {:induction false} LoginsObserved(requests: seq<Request>, n: nat, user: nat)
    requires n <= |requests|
    ensures Run(INITIAL, requests[..n]).Logins(user) == LoginsSince(requests, n, user)
  {
    if n > 0 {
      LoginsObserved(requests, n - 1, user);
      RunSnoc(INITIAL, requests, n - 1);
      hide Serve, Run;
      LoginsStep(Run(INITIAL, requests[..n - 1]), requests[n - 1], user);
    } else {
      assert requests[..0] == [];
    }
  }

  /** Over every run: no refresh token succeeds twice, and a user never has more live tokens than logins since
      the last detected reuse. */
  lemma RotationSafe(requests: seq<Request>, user: nat)
    ensures forall i: nat, j: nat, t: nat | i < j < |requests| && RotatesAt(requests, i, t) ::
              !RotatesAt(requests, j, t)
    ensures |Run(INITIAL, requests).Live(user)| <= LoginsSince(requests, |requests|, user)
  {
    forall i: nat, j: nat, t: nat | i < j < |requests| && RotatesAt(requests, i, t) ensures !RotatesAt(requests, j, t) {
      RotatedOnce(requests, i, j, t);
    }
    InvRun(requests);
    LoginsObserved(requests, |requests|, user);
    assert requests[..|requests|] == requests;
  }

  // ---- The handlers ----

  class AuthService {
    var s: State

    constructor ()
      ensures s == INITIAL && Inv(s)
    {
      s := INITIAL;
      InvRun([]);
    }

    /** `login`. */
    method LoginUser(user: nat, authentic: bool, active: bool, expires: real) returns (r: Response)
      requires Inv(s)
      modifies this
      ensures Inv(s)
      ensures r == Respond(old(s), Login(user, authentic, active, expires))
      ensures s == Serve(old(s), Login(user, authentic, active, expires))
      ensures r.Issued? <==> authentic && active
      ensures !authentic ==> r == Unauthorized
      ensures authentic && !active ==> r == Forbidden
      ensures r.Issued? ==> r.token !in old(s.rows) && s.rows == old(s.rows)[r.token := Row(user, expires, false)]
      ensures !r.Issued? ==> s == old(s)
    {
      InvStep(s, Login(user, authentic, active, expires));
      if !authentic { return Unauthorized; }
      if !active { return Forbidden; }
      r := Issued(s.next);
      s := Issue(s, user, expires).(logins := s.logins[user := s.Logins(user) + 1]);
    }

    /** `refresh`. */
    method RefreshToken(token: nat, now: real, active: bool, expires: real) returns (r: Response)
      requires Inv(s)
      modifies this
      ensures Inv(s)
      ensures r == Respond(old(s), Refresh(token, now, active, expires))
      ensures s == Serve(old(s), Refresh(token, now, active, expires))
      ensures token !in old(s.rows) ==> r == Invalid && s == old(s)
      ensures token in old(s.rows) ==>
                var stored := old(s.rows)[token];
                if stored.revoked then
                  && r == Reused && s.rows.Keys == old(s.rows).Keys
                  && forall t | t in s.rows ::
                       var row := old(s.rows)[t];
                       s.rows[t] == if row.user == stored.user then Row(row.user, row.expires, true) else row
                else if stored.expires < now then r == Expired && s == old(s)
                else if !active then r == Invalid && s == old(s)
                else
                  && r.Issued? && r.token !in old(s.rows)
                  && s.rows == old(s.rows)[token := Row(stored.user, stored.expires, true)]
                                          [r.token := Row(stored.user, expires, false)]
    {
      InvStep(s, Refresh(token, now, active, expires));
      if token !in s.rows { return Invalid; }
      var stored := s.rows[token];
      if stored.revoked {
        s := s.(rows := RevokeFamily(s.rows, stored.user), barrier := s.barrier[stored.user := s.next],
                logins := s.logins[stored.user := 0]);
        return Reused;
      }
      if stored.expires < now { return Expired; }
      if !active { return Invalid; }
      r := Issued(s.next);
      s := s.(rows := s.rows[token := stored.(revoked := true)], succeeded := s.succeeded + [token]);
      s := Issue(s, stored.user, expires);
    }

    /** `logout`. */
    method LogoutToken(token: nat)
      requires Inv(s)
      modifies this
      ensures Inv(s) && s == Serve(old(s), Logout(token))
      ensures s.rows.Keys == old(s.rows).Keys
      ensures forall t | t in s.rows ::
                var row := old(s.rows)[t];
                s.rows[t] == if t == token then Row(row.user, row.expires, true) else row
    {
      InvStep(s, Logout(token));
      if token in s.rows {
        s := s.(rows := s.rows[token := s.rows[token].(revoked := true)]);
      }
    }
  }
}
