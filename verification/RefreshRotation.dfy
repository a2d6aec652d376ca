/**
 * Refresh-token rotation: the exchange of a refresh token is one compare-and-set on its row, run
 * concurrently with logins, other refreshes, logouts and the cleanup of expired sessions.
 */
module RefreshRotation {
  import opened Prelude

  /** A signed token.  Its uuid (`serial`) makes it unlike any other; `exp` is in seconds. */
  datatype Token = Token(serial: nat, userId: string, exp: int)

  datatype Session = Session(userId: string, token: Token, expiresAt: int)

  type Rows = map<nat, Session>

  /** Section 4.1.4 of RFC 7519, on a clock in milliseconds read in whole seconds. */
  predicate Acceptable(token: Token, nowMs: int) {
    nowMs / 1000 < token.exp
  }

  function StoredExpiry(token: Token): int { 1000 * token.exp }

  // ---- statements -------------------------------------------------------------------------

  function InsertRow(rows: Rows, id: nat, token: Token): Rows {
    rows[id := Session(token.userId, token, StoredExpiry(token))]
  }

  function Holding(rows: Rows, token: Token): set<nat> {
    set id | id in rows && rows[id].token == token
  }

  function ToRotate(rows: Rows, userId: string, oldToken: Token): set<nat> {
    set id | id in rows && rows[id].userId == userId && rows[id].token == oldToken
  }

  function RotateRows(rows: Rows, userId: string, oldToken: Token, newToken: Token): Rows {
    map id | id in rows ::
      if id in ToRotate(rows, userId, oldToken)
      then Session(userId, newToken, StoredExpiry(newToken))
      else rows[id]
  }

  function Expired(rows: Rows, now: int): set<nat> {
    set id | id in rows && rows[id].expiresAt < now
  }

  // ---- concurrent use cases ---------------------------------------------------------------

  datatype Client =
    | LoginSigned(token: Token)
    | LoginVerified(token: Token)
    | Refreshing(oldToken: Token)
    | NewSigned(oldToken: Token, newToken: Token)
    | Rotating(oldToken: Token, newToken: Token)
    | LoggingOut(token: Token)
    | Ended(ok: bool)

  /** `issued`, `retired`, `exchanged` and the counters are history. */
  datatype State = State(
    now: int,
    rows: Rows,
    clients: map<nat, Client>,
    issued: set<Token>,
    retired: set<Token>,        // values that once were in the table and left it
    exchanged: seq<Token>,      // old values of successful rotations, in order
    inserted: nat, deleted: nat)   // rows inserted, rows deleted

  datatype Step =
    | SignLogin(c: nat, token: Token)
    | VerifyLogin(c: nat)
    | InsertLogin(c: nat, id: nat)
    | BeginRefresh(c: nat, oldToken: Token)
    | SignNew(c: nat, newToken: Token)
    | VerifyNew(c: nat)
    | Rotate(c: nat)
    | BeginLogout(c: nat, token: Token)
    | FinishLogout(c: nat)
    | Fail(c: nat)               // the user or the role is missing, or a call throws
    | Cleanup
    | Tick(d: nat)

  predicate NewToken(s: State, token: Token) {
    forall other | other in s.issued :: other.serial != token.serial
  }

  predicate Enabled(s: State, step: Step) {
    match step
    case SignLogin(c, token) => c !in s.clients && NewToken(s, token)
    case VerifyLogin(c) => c in s.clients && s.clients[c].LoginSigned?
    case InsertLogin(c, id) => c in s.clients && s.clients[c].LoginVerified? && id !in s.rows
    case BeginRefresh(c, _) => c !in s.clients
    case SignNew(c, newToken) =>
      && c in s.clients && s.clients[c].Refreshing?
      && NewToken(s, newToken) && newToken.userId == s.clients[c].oldToken.userId
    case VerifyNew(c) => c in s.clients && s.clients[c].NewSigned?
    case Rotate(c) => c in s.clients && s.clients[c].Rotating?
    case BeginLogout(c, _) => c !in s.clients
    case FinishLogout(c) => c in s.clients && s.clients[c].LoggingOut?
    case Fail(c) => c in s.clients && !s.clients[c].Ended?
    case Cleanup | Tick(_) => true
  }

  /** Verification accepts exactly the tokens signed here that have not expired. */
  predicate Verifies(s: State, token: Token) {
    token in s.issued && Acceptable(token, s.now)
  }

  function TokensOf(rows: Rows, ids: set<nat>): set<Token> {
    set id | id in rows && id in ids :: rows[id].token
  }

  /** A client goes on to `next`, having signed `signed`. */
  function Move(s: State, c: nat, next: Client, signed: set<Token>): State {
    s.(clients := s.clients[c := next], issued := s.issued + signed)
  }

  /** A deletion of the rows `gone`. */
  function Remove(s: State, gone: set<nat>): State {
    s.(rows := s.rows - gone, retired := s.retired + TokensOf(s.rows, gone), deleted := s.deleted + |gone|)
  }

  function RotateIn(s: State, c: nat, oldToken: Token, newToken: Token): State {
    var rotated := |ToRotate(s.rows, oldToken.userId, oldToken)| > 0;
    s.(rows := RotateRows(s.rows, oldToken.userId, oldToken, newToken),
       clients := s.clients[c := Ended(rotated)],
       retired := if rotated then s.retired + {oldToken} else s.retired,
       exchanged := if rotated then s.exchanged + [oldToken] else s.exchanged)
  }

  /** Steps that touch neither the table nor the clock. */
  predicate Moving(step: Step) {
    || step.SignLogin? || step.VerifyLogin? || step.BeginRefresh? || step.SignNew? || step.VerifyNew?
    || step.BeginLogout? || step.Fail?
  }

  function Next(s: State, step: Step): Client
    requires Enabled(s, step) && Moving(step)
  {
    match step
    case SignLogin(_, token) => LoginSigned(token)
    case VerifyLogin(c) =>
      var token := s.clients[c].token;
      if Verifies(s, token) then LoginVerified(token) else Ended(false)
    case BeginRefresh(_, oldToken) => if Verifies(s, oldToken) then Refreshing(oldToken) else Ended(false)
    case SignNew(c, newToken) => NewSigned(s.clients[c].oldToken, newToken)
    case VerifyNew(c) =>
      var NewSigned(oldToken, newToken) := s.clients[c];
      if Verifies(s, newToken) then Rotating(oldToken, newToken) else Ended(false)
    case BeginLogout(_, token) => if Holding(s.rows, token) == {} then Ended(true) else LoggingOut(token)
    case Fail(_) => Ended(false)
  }

  function Signed(step: Step): set<Token> {
    match step
    case SignLogin(_, token) => {token}
    case SignNew(_, newToken) => {newToken}
    case _ => {}
  }

  function Apply(s: State, step: Step): State
    requires Enabled(s, step)
  {
    if Moving(step) then Move(s, step.c, Next(s, step), Signed(step)) else
      match step
      case InsertLogin(c, id) =>
        s.(rows := InsertRow(s.rows, id, s.clients[c].token),
           clients := s.clients[c := Ended(true)],
           inserted := s.inserted + 1)
      case Rotate(c) => RotateIn(s, c, s.clients[c].oldToken, s.clients[c].newToken)
      case FinishLogout(c) =>
        var gone := Holding(s.rows, s.clients[c].token);
        Move(Remove(s, gone), c, Ended(|gone| > 0), {})
      case Cleanup => Remove(s, Expired(s.rows, s.now))
      case Tick(d) => s.(now := s.now + d)
  }

  predicate Legal(s: State, steps: seq<Step>)
    decreases steps
  {
    steps == [] || (Enabled(s, steps[0]) && Legal(Apply(s, steps[0]), steps[1..]))
  }

  function Final(s: State, steps: seq<Step>): State
    requires Legal(s, steps)
    decreases steps
  {
    if steps == [] then s else Final(Apply(s, steps[0]), steps[1..])
  }

  // ---- the invariant ----------------------------------------------------------------------

  /** The token a call has signed and not stored yet. */
  function Pending(client: Client): Option<Token> {
    match client
    case LoginSigned(token) => Some(token)
    case LoginVerified(token) => Some(token)
    case NewSigned(_, newToken) => Some(newToken)
    case Rotating(_, newToken) => Some(newToken)
    case _ => None
  }

  predicate RowOk(session: Session, issued: set<Token>, retired: set<Token>) {
    && session.token in issued && session.token !in retired
    && session.userId == session.token.userId
    && session.expiresAt == StoredExpiry(session.token)
  }

  ghost predicate RowsOk(rows: Rows, issued: set<Token>, retired: set<Token>) {
    && (forall id | id in rows :: RowOk(rows[id], issued, retired))
    && (forall a, b | a in rows && b in rows && rows[a].token == rows[b].token :: a == b)
  }

  /** A pending token is nowhere else: not stored, not retired. */
  predicate Unused(token: Token, rows: Rows, issued: set<Token>, retired: set<Token>) {
    token in issued && token !in retired && forall id | id in rows :: rows[id].token != token
  }

  predicate ClientOk(client: Client) {
    (client.NewSigned? || client.Rotating?) ==> client.newToken.userId == client.oldToken.userId
  }

  ghost predicate PendingOk(clients: map<nat, Client>, rows: Rows, issued: set<Token>, retired: set<Token>) {
    && (forall c | c in clients :: ClientOk(clients[c]))
    && (forall c | c in clients && Pending(clients[c]).Some? :: Unused(Pending(clients[c]).value, rows, issued, retired))
    && (forall a, b | a in clients && b in clients && Pending(clients[a]).Some?
                      && Pending(clients[a]) == Pending(clients[b]) :: a == b)
  }

  ghost predicate HistoryOk(exchanged: seq<Token>, retired: set<Token>, issued: set<Token>) {
    && retired <= issued
    && (forall i | 0 <= i < |exchanged| :: exchanged[i] in retired)
    && (forall i, j | 0 <= i < j < |exchanged| :: exchanged[i] != exchanged[j])
  }

  ghost predicate Inv(s: State) {
    && RowsOk(s.rows, s.issued, s.retired)
    && PendingOk(s.clients, s.rows, s.issued, s.retired)
    && HistoryOk(s.exchanged, s.retired, s.issued)
    && s.inserted == |s.rows| + s.deleted
  }

  /** A client moves on, keeping its pending token, dropping it, or signing a new one. */
  lemma MoveOk(s: State, c: nat, next: Client, signed: set<Token>)
    requires Inv(s) && ClientOk(next)
    requires Pending(next).Some? ==>
               || (c in s.clients && Pending(next) == Pending(s.clients[c]))
               || (Pending(next).value in signed && Pending(next).value !in s.issued)
    ensures Inv(Move(s, c, next, signed))
  {
  }

  lemma InsertStep(s: State, c: nat, id: nat)
    requires Inv(s) && Enabled(s, InsertLogin(c, id))
    ensures Inv(Apply(s, InsertLogin(c, id)))
  {
    assert Pending(s.clients[c]) == Some(s.clients[c].token);
    assert Unused(s.clients[c].token, s.rows, s.issued, s.retired);
  }

  /** At most one row holds the old value, and it becomes the only one with the new value. */
  lemma RotatesOne(rows: Rows, issued: set<Token>, retired: set<Token>, oldToken: Token, newToken: Token)
    requires RowsOk(rows, issued, retired) && Holding(rows, newToken) == {} && newToken.userId == oldToken.userId
    requires newToken in issued && newToken !in retired && newToken != oldToken
    ensures var after := RotateRows(rows, oldToken.userId, oldToken, newToken);
            && after.Keys == rows.Keys && |after| == |rows|
            && ToRotate(rows, oldToken.userId, oldToken) == Holding(rows, oldToken)
            && RowsOk(after, issued, retired + {oldToken})
            && (Holding(rows, oldToken) == {} ==> after == rows)
            && (forall id | id in rows :: after[id] ==
                  if rows[id].token == oldToken then Session(newToken.userId, newToken, 1000 * newToken.exp) else rows[id])
            && forall token | token != newToken && token != oldToken :: Holding(after, token) == Holding(rows, token)
  {
    var after := RotateRows(rows, oldToken.userId, oldToken, newToken);
    assert after.Keys == rows.Keys;
    assert |after| == |after.Keys|;
    assert ToRotate(rows, oldToken.userId, oldToken) == Holding(rows, oldToken);
    assert forall id | id in rows :: id in Holding(rows, oldToken) <==> rows[id].token == oldToken;
    assert forall id | id in rows :: id !in Holding(rows, newToken);
  }

  lemma RotatedPendingOk(clients: map<nat, Client>, rows: Rows, issued: set<Token>, retired: set<Token>, c: nat)
    requires PendingOk(clients, rows, issued, retired) && RowsOk(rows, issued, retired)
    requires c in clients && clients[c].Rotating?
    requires Holding(rows, clients[c].oldToken) != {}
    ensures var Rotating(oldToken, newToken) := clients[c];
            PendingOk(clients[c := Ended(true)], RotateRows(rows, oldToken.userId, oldToken, newToken), issued, retired + {oldToken})
  {
  }

  lemma RotateHit(s: State, c: nat, oldToken: Token, newToken: Token)
    requires Inv(s) && c in s.clients && s.clients[c] == Rotating(oldToken, newToken)
    requires Holding(s.rows, oldToken) != {}
    ensures var t := RotateIn(s, c, oldToken, newToken);
            Inv(t) && |t.rows| == |s.rows| && t.rows.Keys == s.rows.Keys
  {
    assert ClientOk(s.clients[c]) && Pending(s.clients[c]) == Some(newToken);
    assert Unused(newToken, s.rows, s.issued, s.retired);
    var id :| id in Holding(s.rows, oldToken);
    assert RowOk(s.rows[id], s.issued, s.retired);
    RotatesOne(s.rows, s.issued, s.retired, oldToken, newToken);
    RotatedPendingOk(s.clients, s.rows, s.issued, s.retired, c);
    RotatedHistoryOk(s.exchanged, s.retired, s.issued, oldToken);
  }

  lemma RotatedHistoryOk(exchanged: seq<Token>, retired: set<Token>, issued: set<Token>, oldToken: Token)
    requires HistoryOk(exchanged, retired, issued) && oldToken in issued && oldToken !in retired
    ensures HistoryOk(exchanged + [oldToken], retired + {oldToken}, issued)
  {
  }

  lemma RotateMiss(s: State, c: nat, oldToken: Token, newToken: Token)
    requires Inv(s) && Holding(s.rows, oldToken) == {}
    ensures RotateIn(s, c, oldToken, newToken) == Move(s, c, Ended(false), {})
  {
    assert forall id | id in s.rows :: id !in Holding(s.rows, oldToken);
    assert ToRotate(s.rows, oldToken.userId, oldToken) == {};
    assert RotateRows(s.rows, oldToken.userId, oldToken, newToken) == s.rows;
    assert s.issued + {} == s.issued;
  }

  lemma RotateOk(s: State, c: nat)
    requires Inv(s) && c in s.clients && s.clients[c].Rotating?
    ensures var t := RotateIn(s, c, s.clients[c].oldToken, s.clients[c].newToken);
            Inv(t) && |t.rows| == |s.rows| && t.rows.Keys == s.rows.Keys
  {
    var Rotating(oldToken, newToken) := s.clients[c];
    if Holding(s.rows, oldToken) == {} {
      RotateMiss(s, c, oldToken, newToken);
      MoveOk(s, c, Ended(false), {});
    } else {
      RotateHit(s, c, oldToken, newToken);
    }
  }

  /** Deleting rows retires their tokens. */
  lemma DeletedRowsOk(rows: Rows, issued: set<Token>, retired: set<Token>, gone: set<nat>)
    requires RowsOk(rows, issued, retired) && gone <= rows.Keys && retired <= issued
    ensures RowsOk(rows - gone, issued, retired + TokensOf(rows, gone)) && retired + TokensOf(rows, gone) <= issued
    ensures |rows - gone| + |gone| == |rows|
  {
  }

  lemma DeletedPendingOk(clients: map<nat, Client>, rows: Rows, issued: set<Token>, retired: set<Token>, gone: set<nat>)
    requires PendingOk(clients, rows, issued, retired)
    ensures PendingOk(clients, rows - gone, issued, retired + TokensOf(rows, gone))
  {
  }

  lemma RemoveOk(s: State, gone: set<nat>)
    requires Inv(s) && gone <= s.rows.Keys
    ensures Inv(Remove(s, gone))
  {
    DeletedRowsOk(s.rows, s.issued, s.retired, gone);
    DeletedPendingOk(s.clients, s.rows, s.issued, s.retired, gone);
  }

  lemma NextOk(s: State, step: Step)
    requires Inv(s) && Enabled(s, step) && Moving(step)
    ensures var next := Next(s, step);
            && ClientOk(next)
            && (Pending(next).Some? ==>
                  || (step.c in s.clients && Pending(next) == Pending(s.clients[step.c]))
                  || (Pending(next).value in Signed(step) && Pending(next).value !in s.issued))
  {
  }

  lemma LogoutStep(s: State, c: nat)
    requires Inv(s) && Enabled(s, FinishLogout(c))
    ensures Inv(Apply(s, FinishLogout(c)))
  {
    var gone := Holding(s.rows, s.clients[c].token);
    RemoveOk(s, gone);
    MoveOk(Remove(s, gone), c, Ended(|gone| > 0), {});
  }

  lemma InvStep(s: State, step: Step)
    requires Inv(s) && Enabled(s, step)
    ensures Inv(Apply(s, step))
  {
    if Moving(step) {
      NextOk(s, step);
      MoveOk(s, step.c, Next(s, step), Signed(step));
      return;
    }
    match step
    case InsertLogin(c, id) => InsertStep(s, c, id);
    case Rotate(c) => RotateOk(s, c);
    case FinishLogout(c) => LogoutStep(s, c);
    case Cleanup => RemoveOk(s, Expired(s.rows, s.now));
    case Tick(_) =>
  }

  lemma {:induction false} InvRun(s: State, steps: seq<Step>)
    requires Inv(s) && Legal(s, steps)
    ensures Inv(Final(s, steps)) && s.retired <= Final(s, steps).retired
    decreases steps
  {
    if steps != [] {
      InvStep(s, steps[0]);
      InvRun(Apply(s, steps[0]), steps[1..]);
    }
  }

  predicate Initial(s: State) {
    && s.rows == map[] && s.clients == map[] && s.issued == {} && s.retired == {} && s.exchanged == []
    && s.inserted == 0 && s.deleted == 0
  }

  // ---- results over all runs --------------------------------------------------------------

  /** No token value is ever exchanged twice, however many calls present it at once. */
  lemma ExchangedAtMostOnce(s: State, steps: seq<Step>)
    requires Initial(s) && Legal(s, steps)
    ensures var done := Final(s, steps).exchanged; forall i, j | 0 <= i < j < |done| :: done[i] != done[j]
  {
    InvRun(s, steps);
  }

  /** A value that left the table never comes back: no later refresh with it succeeds. */
  lemma RetiredForGood(s: State, before: seq<Step>, after: seq<Step>, token: Token)
    requires Initial(s) && Legal(s, before) && Legal(Final(s, before), after)
    requires token in Final(s, before).retired
    ensures Holding(Final(Final(s, before), after).rows, token) == {}
    ensures var t := Final(Final(s, before), after);
            forall c | Enabled(t, Rotate(c)) && t.clients[c].oldToken == token ::
              Apply(t, Rotate(c)).clients[c] == Ended(false) && Apply(t, Rotate(c)).rows == t.rows
  {
    InvRun(s, before);
    InvRun(Final(s, before), after);
    RetiredNotStored(Final(Final(s, before), after), token);
  }

  lemma RetiredNotStored(t: State, token: Token)
    requires Inv(t) && token in t.retired
    ensures Holding(t.rows, token) == {}
    ensures forall c | Enabled(t, Rotate(c)) && t.clients[c].oldToken == token ::
              Apply(t, Rotate(c)).clients[c] == Ended(false) && Apply(t, Rotate(c)).rows == t.rows
  {
    assert Holding(t.rows, token) == {};
    forall c | Enabled(t, Rotate(c)) && t.clients[c].oldToken == token
      ensures Apply(t, Rotate(c)).clients[c] == Ended(false) && Apply(t, Rotate(c)).rows == t.rows
    {
      RotateMiss(t, c, token, t.clients[c].newToken);
    }
  }

  /** Sessions are only created by logins and removed by deletions; rotation conserves them. */
  lemma SessionsConserved(s: State, steps: seq<Step>, c: nat)
    requires Initial(s) && Legal(s, steps)
    ensures var t := Final(s, steps);
            && |t.rows| == t.inserted - t.deleted
            && (Enabled(t, Rotate(c)) ==> Apply(t, Rotate(c)).rows.Keys == t.rows.Keys)
  {
    InvRun(s, steps);
    if Enabled(Final(s, steps), Rotate(c)) {
      RotateOk(Final(s, steps), c);
    }
  }

  /** Stored expiries are exact, so cleanup removes no session whose token is still acceptable. */
  lemma CleanupSparesTheLiving(s: State, steps: seq<Step>, id: nat)
    requires Initial(s) && Legal(s, steps) && id in Final(s, steps).rows
    ensures var t := Final(s, steps);
            && t.rows[id].expiresAt == 1000 * t.rows[id].token.exp
            && (Acceptable(t.rows[id].token, t.now) ==> id in Apply(t, Cleanup).rows)
            && (id !in Apply(t, Cleanup).rows <==> 1000 * t.rows[id].token.exp < t.now)
  {
    InvRun(s, steps);
    CleanupExact(Final(s, steps), id);
  }

  lemma CleanupExact(t: State, id: nat)
    requires RowsOk(t.rows, t.issued, t.retired) && id in t.rows
    ensures t.rows[id].expiresAt == 1000 * t.rows[id].token.exp
    ensures Acceptable(t.rows[id].token, t.now) ==> id in Apply(t, Cleanup).rows
    ensures id !in Apply(t, Cleanup).rows <==> 1000 * t.rows[id].token.exp < t.now
    ensures id in Apply(t, Cleanup).rows ==> Apply(t, Cleanup).rows[id] == t.rows[id]
    ensures id !in Apply(t, Cleanup).rows ==> t.rows[id].token in Apply(t, Cleanup).retired
  {
    assert RowOk(t.rows[id], t.issued, t.retired);
  }

  // ---- what the calls achieve -------------------------------------------------------------

  /** A login that ends well has stored its token, under its user and with its own expiry. */
  lemma LoginStores(s: State, c: nat, id: nat)
    requires Enabled(s, InsertLogin(c, id))
    ensures var (t, token) := (Apply(s, InsertLogin(c, id)), s.clients[c].token);
            && t.clients[c] == Ended(true)
            && id in t.rows && t.rows[id] == Session(token.userId, token, 1000 * token.exp)
            && t.rows - {id} == s.rows
  {
  }

  /** A logout ends well exactly when it found its token, which afterwards is in no row and retired. */
  lemma LogoutRemoves(s: State, c: nat)
    requires Inv(s) && Enabled(s, FinishLogout(c))
    ensures var (t, token) := (Apply(s, FinishLogout(c)), s.clients[c].token);
            && (t.clients[c] == Ended(true) <==> exists id | id in s.rows :: s.rows[id].token == token)
            && (t.clients[c] == Ended(true) ==> token in t.retired)
            && (forall id | id in t.rows :: t.rows[id].token != token && id in s.rows && t.rows[id] == s.rows[id])
            && (forall id | id in s.rows && s.rows[id].token != token :: id in t.rows)
  {
    var (gone, token) := (Holding(s.rows, s.clients[c].token), s.clients[c].token);
    forall id | id in s.rows && s.rows[id].token == token ensures id in gone && token in TokensOf(s.rows, gone) {
      assert s.rows[id].token in TokensOf(s.rows, gone);
    }
  }

  lemma Prepend(s: State, step: Step, rest: seq<Step>)
    requires Enabled(s, step) && Legal(Apply(s, step), rest)
    ensures Legal(s, [step] + rest) && Final(s, [step] + rest) == Final(Apply(s, step), rest)
  {
    assert ([step] + rest)[1..] == rest;
  }

  predicate EndsWell(s: State, c: nat) {
    c in s.clients && s.clients[c] == Ended(true)
  }

  /** Left alone, a login with a token that has not expired succeeds. */
  lemma LoginSucceeds(s: State, c: nat, token: Token, id: nat)
    requires c !in s.clients && id !in s.rows && s.now < 1000 * token.exp
    requires forall other | other in s.issued :: other.serial != token.serial
    ensures var steps := [SignLogin(c, token)] + ([VerifyLogin(c)] + ([InsertLogin(c, id)] + []));
            && Legal(s, steps) && EndsWell(Final(s, steps), c)
            && Final(s, steps).rows == s.rows[id := Session(token.userId, token, 1000 * token.exp)]
  {
    var s1 := Apply(s, SignLogin(c, token));
    var s2 := Apply(s1, VerifyLogin(c));
    Prepend(s2, InsertLogin(c, id), []);
    Prepend(s1, VerifyLogin(c), [InsertLogin(c, id)] + []);
    Prepend(s, SignLogin(c, token), [VerifyLogin(c)] + ([InsertLogin(c, id)] + []));
  }

  /** Left alone, a refresh with a stored token that has not expired succeeds. */
  lemma RefreshSucceeds(s: State, c: nat, oldToken: Token, newToken: Token, id: nat)
    requires Inv(s) && c !in s.clients && id in s.rows && s.rows[id].token == oldToken
    requires s.now < 1000 * oldToken.exp && s.now < 1000 * newToken.exp && newToken.userId == oldToken.userId
    requires forall other | other in s.issued :: other.serial != newToken.serial
    ensures var steps := [BeginRefresh(c, oldToken)] + ([SignNew(c, newToken)] + ([VerifyNew(c)] + ([Rotate(c)] + [])));
            && Legal(s, steps) && EndsWell(Final(s, steps), c)
            && id in Final(s, steps).rows && Final(s, steps).rows[id].token == newToken
  {
    assert RowOk(s.rows[id], s.issued, s.retired);
    var s1 := Apply(s, BeginRefresh(c, oldToken));
    var s2 := Apply(s1, SignNew(c, newToken));
    var s3 := Apply(s2, VerifyNew(c));
    assert s3.clients[c] == Rotating(oldToken, newToken) && s3.rows == s.rows;
    assert id in ToRotate(s3.rows, oldToken.userId, oldToken);
    Prepend(s3, Rotate(c), []);
    Prepend(s2, VerifyNew(c), [Rotate(c)] + []);
    Prepend(s1, SignNew(c, newToken), [VerifyNew(c)] + ([Rotate(c)] + []));
    Prepend(s, BeginRefresh(c, oldToken), [SignNew(c, newToken)] + ([VerifyNew(c)] + ([Rotate(c)] + [])));
  }

  /** Left alone, a logout with a stored token succeeds. */
  lemma LogoutSucceeds(s: State, c: nat, token: Token, id: nat)
    requires c !in s.clients && id in s.rows && s.rows[id].token == token
    ensures var steps := [BeginLogout(c, token)] + ([FinishLogout(c)] + []);
            && Legal(s, steps) && EndsWell(Final(s, steps), c)
            && id !in Final(s, steps).rows
  {
    assert id in Holding(s.rows, token);
    var s1 := Apply(s, BeginLogout(c, token));
    Prepend(s1, FinishLogout(c), []);
    Prepend(s, BeginLogout(c, token), [FinishLogout(c)] + []);
  }

  /** A call in progress can fail at any moment: it ends badly and the table stays; time only passes. */
  lemma FailuresAndTime(s: State, c: nat, d: nat)
    ensures c in s.clients && !s.clients[c].Ended? ==>
              && Enabled(s, Fail(c)) && Apply(s, Fail(c)).rows == s.rows
              && Apply(s, Fail(c)).clients == s.clients[c := Ended(false)]
    ensures Apply(s, Tick(d)) == s.(now := s.now + d)
  {
  }

  /** A logout of a token that no row holds is over at once and well. */
  lemma LogoutOfNothing(s: State, c: nat, token: Token)
    requires Enabled(s, BeginLogout(c, token))
    ensures var t := Apply(s, BeginLogout(c, token));
            && t.rows == s.rows
            && t.clients[c] == if exists id | id in s.rows :: s.rows[id].token == token then LoggingOut(token) else Ended(true)
  {
    assert forall id | id in s.rows && s.rows[id].token == token :: id in Holding(s.rows, token);
  }

  /** A refresh ends well exactly when a row held its old token; that row then holds the new one. */
  lemma RefreshReplaces(s: State, c: nat)
    requires Inv(s) && Enabled(s, Rotate(c))
    ensures var (t, oldToken, newToken) := (Apply(s, Rotate(c)), s.clients[c].oldToken, s.clients[c].newToken);
            && (t.clients[c] == Ended(true) <==> exists id | id in s.rows :: s.rows[id].token == oldToken)
            && t.clients[c] in {Ended(true), Ended(false)} && t.rows.Keys == s.rows.Keys
            && (t.clients[c] == Ended(true) ==> t.exchanged == s.exchanged + [oldToken] && oldToken in t.retired)
            && (t.clients[c] == Ended(false) ==> t.exchanged == s.exchanged && t.retired == s.retired)
            && forall id | id in s.rows :: t.rows[id] ==
                 if s.rows[id].token == oldToken then Session(newToken.userId, newToken, 1000 * newToken.exp) else s.rows[id]
  {
    var (oldToken, newToken) := (s.clients[c].oldToken, s.clients[c].newToken);
    assert ClientOk(s.clients[c]);
    forall id | id in s.rows && s.rows[id].token == oldToken
      ensures s.rows[id].userId == oldToken.userId && id in ToRotate(s.rows, oldToken.userId, oldToken)
    {
      assert RowOk(s.rows[id], s.issued, s.retired);
    }
  }

  /** Verification lets through exactly the tokens signed here and not yet expired, and stops the rest. */
  lemma VerificationDecides(s: State, c: nat, token: Token)
    ensures Enabled(s, BeginRefresh(c, token)) ==>
              Apply(s, BeginRefresh(c, token)).clients[c]
              == if token in s.issued && s.now < 1000 * token.exp then Refreshing(token) else Ended(false)
    ensures Enabled(s, VerifyLogin(c)) && s.clients[c].token == token ==>
              Apply(s, VerifyLogin(c)).clients[c]
              == if token in s.issued && s.now < 1000 * token.exp then LoginVerified(token) else Ended(false)
    ensures Enabled(s, VerifyNew(c)) && s.clients[c].newToken == token ==>
              Apply(s, VerifyNew(c)).clients[c]
              == if token in s.issued && s.now < 1000 * token.exp then Rotating(s.clients[c].oldToken, token) else Ended(false)
  {
  }

  // ---- the repository, one call at a time -------------------------------------------------

  class RefreshTokenRepository {
    var rows: Rows

    constructor ()
      ensures rows == map[]
    {
      rows := map[];
    }

    method CreateRefreshToken(id: nat, token: Token)
      requires id !in rows
      modifies this
      ensures rows == InsertRow(old(rows), id, token)
    {
      rows := rows[id := Session(token.userId, token, 1000 * token.exp)];
    }

    method DeleteRefreshToken(token: Token) returns (deleted: bool)
      modifies this
      ensures rows == old(rows) - Holding(old(rows), token)
      ensures deleted <==> Holding(old(rows), token) != {}
    {
      var gone := set id | id in rows && rows[id].token == token;
      rows := rows - gone;
      deleted := gone != {};
    }

    method DeleteExpiredRefreshTokens(now: int) returns (count: nat)
      modifies this
      ensures rows == old(rows) - Expired(old(rows), now) && count == |Expired(old(rows), now)|
    {
      var gone := set id | id in rows && rows[id].expiresAt < now;
      rows := rows - gone;
      count := |gone|;
    }

    method RotateRefreshToken(userId: string, oldToken: Token, newToken: Token) returns (rotated: bool)
      modifies this
      ensures rows == RotateRows(old(rows), userId, oldToken, newToken)
      ensures rotated <==> ToRotate(old(rows), userId, oldToken) != {}
    {
      var todo := rows.Keys;
      rotated := false;
      while todo != {}
        invariant todo <= rows.Keys == old(rows).Keys
        invariant forall id | id in todo :: rows[id] == old(rows)[id]
        invariant forall id | id in rows && id !in todo ::
                    rows[id] == RotateRows(old(rows), userId, oldToken, newToken)[id]
        invariant rotated <==> exists id | id in rows && id !in todo :: id in ToRotate(old(rows), userId, oldToken)
        decreases todo
      {
        var id :| id in todo;
        todo := todo - {id};
        if rows[id].userId == userId && rows[id].token == oldToken {
          rows := rows[id := Session(userId, newToken, 1000 * newToken.exp)];
          rotated := true;
        }
      }
    }
  }

  datatype RefreshResult = Refreshed(token: Token) | TokenExpired | UserNotFound | RoleNotFound | InvalidToken

  /**
   * The refresh use case without interference.  `userFound` and `roleFound` are what the user query
   * returns; it succeeds exactly on a live, stored token of a user with a role.
   */
  method Refresh(repository: RefreshTokenRepository, oldToken: Token, newToken: Token, now: int,
                 userFound: bool, roleFound: bool)
    returns (result: RefreshResult)
    requires newToken.userId == oldToken.userId
    modifies repository
    ensures result.Refreshed? <==>
              && Acceptable(oldToken, now) && userFound && roleFound && Acceptable(newToken, now)
              && ToRotate(old(repository.rows), oldToken.userId, oldToken) != {}
    ensures result.Refreshed? ==>
              && result.token == newToken
              && repository.rows == RotateRows(old(repository.rows), oldToken.userId, oldToken, newToken)
    ensures !result.Refreshed? ==> repository.rows == old(repository.rows)
    ensures result.UserNotFound? <==> Acceptable(oldToken, now) && !userFound
    ensures result.RoleNotFound? <==> Acceptable(oldToken, now) && userFound && !roleFound
    ensures result.TokenExpired? <==>
              !Acceptable(oldToken, now) || (userFound && roleFound && !Acceptable(newToken, now))
  {
    if !Acceptable(oldToken, now) {
      return TokenExpired;
    }
    if !userFound {
      return UserNotFound;
    }
    if !roleFound {
      return RoleNotFound;
    }
    if !Acceptable(newToken, now) {
      return TokenExpired;
    }
    var rotated := repository.RotateRefreshToken(oldToken.userId, oldToken, newToken);
    if !rotated {
      assert repository.rows == old(repository.rows);
      return InvalidToken;
    }
    return Refreshed(newToken);
  }
}
