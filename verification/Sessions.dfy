/** Refresh-token rotation and logout, with every read separated from the
    conditional write that follows it, for any number of concurrent calls. */
module Sessions {
  import opened Sql
  import opened Schema

  type CallId = int
  type LoginId = int

  /** A call between two of its statements. */
  datatype Call =
    | Refreshing(token: TokenId, now: Time)     // read an active row; conditional revoke still to come
    | Rotated(token: TokenId, user: UserId)     // won the revoke outside a transaction; insert still to come
    | LoggingOut(token: TokenId)                // read an unrevoked row; unconditional revoke still to come

  /** A token's past: the login it descends from, its account, and the tokens minted from it. */
  datatype Birth = Birth(login: LoginId, user: UserId, successors: seq<TokenId>)

  /** `births` covers every token ever stored; `loggedOut` and `revokedFirst`
      record who was revoked by a logout or by a rotation outside a transaction. */
  datatype State = State(
    tokens: map<TokenId, RefreshToken>, calls: map<CallId, Call>,
    births: map<TokenId, Birth>, logins: set<LoginId>, loggedOut: set<TokenId>, revokedFirst: set<TokenId>)

  const INITIAL := State(map[], map[], map[], {}, {}, {})

  datatype Step =
    | Login(id: TokenId, login: LoginId, user: UserId, expiresAt: Time)
    | StartRefresh(call: CallId, token: TokenId, now: Time)
    | RotateInTx(call: CallId, id: TokenId, expiresAt: Time)    // revoke and insert commit together
    | AbortTx(call: CallId)                                     // the insert failed: both roll back
    | RevokeFirst(call: CallId)                                 // without a transaction runner: the revoke alone
    | InsertNext(call: CallId, id: TokenId, expiresAt: Time)
    | FailInsert(call: CallId)
    | StartLogout(call: CallId, token: TokenId)
    | FinishLogout(call: CallId, now: Time)
    | EraseTokens(user: UserId)                                 // account deletion

  predicate ActiveAt(t: RefreshToken, now: Time) { t.revokedAt.None? && t.expiresAt > now }

  /** RevokeRefreshTokenIfActive's where clause. */
  predicate Revocable(s: State, k: TokenId, now: Time) { k in s.tokens && ActiveAt(s.tokens[k], now) }

  function Revoked(tokens: map<TokenId, RefreshToken>, k: TokenId, now: Time): map<TokenId, RefreshToken> {
    if k in tokens then tokens[k := tokens[k].(revokedAt := Some(now))] else tokens
  }

  /** The history once id has been minted from k. */
  function Minted(births: map<TokenId, Birth>, k: TokenId, id: TokenId): map<TokenId, Birth> {
    if k !in births then births
    else births[k := births[k].(successors := births[k].successors + [id])][id := births[k].(successors := [])]
  }

  /** A rotation's insert: the fresh row descends from k. */
  function Issue(s: State, c: CallId, k: TokenId, u: UserId, id: TokenId, expiresAt: Time): State {
    s.(tokens := s.tokens[id := RefreshToken(u, expiresAt, None)], births := Minted(s.births, k, id),
       calls := s.calls - {c})
  }

  function Next(s: State, step: Step): State {
    match step
    case Login(id, login, u, expiresAt) =>
      if id in s.births || login in s.logins then s
      else s.(tokens := s.tokens[id := RefreshToken(u, expiresAt, None)], births := s.births[id := Birth(login, u, [])],
              logins := s.logins + {login})
    case StartRefresh(c, k, now) =>
      if c in s.calls || !Revocable(s, k, now) then s else s.(calls := s.calls[c := Refreshing(k, now)])
    case RotateInTx(c, id, expiresAt) =>
      if c !in s.calls || !s.calls[c].Refreshing? || id in s.births then s
      else
        var k, now := s.calls[c].token, s.calls[c].now;
        if !Revocable(s, k, now) then s.(calls := s.calls - {c})
        else Issue(s.(tokens := Revoked(s.tokens, k, now)), c, k, s.tokens[k].user, id, expiresAt)
    case AbortTx(c) =>
      if c in s.calls && s.calls[c].Refreshing? then s.(calls := s.calls - {c}) else s
    case RevokeFirst(c) =>
      if c !in s.calls || !s.calls[c].Refreshing? then s
      else
        var k, now := s.calls[c].token, s.calls[c].now;
        if !Revocable(s, k, now) then s.(calls := s.calls - {c})
        else s.(tokens := Revoked(s.tokens, k, now), calls := s.calls[c := Rotated(k, s.tokens[k].user)],
                revokedFirst := s.revokedFirst + {k})
    case InsertNext(c, id, expiresAt) =>
      if c !in s.calls || !s.calls[c].Rotated? || id in s.births then s
      else Issue(s, c, s.calls[c].token, s.calls[c].user, id, expiresAt)
    case FailInsert(c) =>
      if c in s.calls && s.calls[c].Rotated? then s.(calls := s.calls - {c}) else s
    case StartLogout(c, k) =>
      if c in s.calls || k !in s.tokens || s.tokens[k].revokedAt.Some? then s
      else s.(calls := s.calls[c := LoggingOut(k)])
    case FinishLogout(c, now) =>
      if c !in s.calls || !s.calls[c].LoggingOut? then s
      else s.(tokens := Revoked(s.tokens, s.calls[c].token, now), calls := s.calls - {c},
              loggedOut := s.loggedOut + {s.calls[c].token})
    case EraseTokens(u) =>
      s.(tokens := map k | k in s.tokens && s.tokens[k].user != u :: s.tokens[k])
  }

  /** A login stores one active token of the account, with the asked expiry, and touches no other. */
  lemma LoggedIn(s: State, step: Step)
    requires step.Login? && step.id !in s.births && step.login !in s.logins
    ensures var r := Next(s, step);
            && r.tokens.Keys == s.tokens.Keys + {step.id}
            && (forall k :: k in s.tokens && k != step.id ==> r.tokens[k] == s.tokens[k])
            && r.tokens[step.id].user == step.user && r.tokens[step.id].expiresAt == step.expiresAt
            && r.tokens[step.id].revokedAt == None && r.calls == s.calls
  {}

  /** A revoke stamps its one row, and erasing an account's tokens leaves exactly the others. */
  lemma RowsRevokedOrErased(s: State, k: TokenId, now: Time, user: UserId)
    ensures var r := Revoked(s.tokens, k, now);
            && r.Keys == s.tokens.Keys && (forall x :: x in s.tokens && x != k ==> r[x] == s.tokens[x])
            && (k in s.tokens ==>
                  && r[k].revokedAt == Some(now) && r[k].user == s.tokens[k].user
                  && r[k].expiresAt == s.tokens[k].expiresAt)
    ensures var r := Next(s, EraseTokens(user));
            && r == s.(tokens := r.tokens)
            && (forall x :: x in r.tokens <==> x in s.tokens && s.tokens[x].user != user)
            && (forall x :: x in r.tokens ==> r.tokens[x] == s.tokens[x])
  {}

  function Run(steps: seq<Step>): State {
    if steps == [] then INITIAL else Next(Run(steps[..|steps| - 1]), steps[|steps| - 1])
  }

  // ---- what every step keeps ----

  /** Gone, or revoked. */
  predicate Spent(tokens: map<TokenId, RefreshToken>, k: TokenId) { k in tokens ==> tokens[k].revokedAt.Some? }

  ghost predicate Recorded(tokens: map<TokenId, RefreshToken>, births: map<TokenId, Birth>) {
    forall k :: k in tokens ==> k in births && births[k].user == tokens[k].user
  }

  /** A token has at most one successor, of the same login and account, and is spent once it has one. */
  ghost predicate Succession(tokens: map<TokenId, RefreshToken>, births: map<TokenId, Birth>) {
    && (forall k :: k in births ==> |births[k].successors| <= 1)
    && (forall k :: k in births && births[k].successors != [] ==> Spent(tokens, k))
    && (forall k, n :: k in births && n in births[k].successors ==>
          n in births && births[n].login == births[k].login && births[n].user == births[k].user)
  }

  /** Of two tokens of one login at least one has a successor. */
  ghost predicate OneTip(births: map<TokenId, Birth>) {
    forall x, y :: x in births && y in births && x != y && births[x].login == births[y].login ==>
      births[x].successors != [] || births[y].successors != []
  }

  /** Calls name known tokens. A won revoke belongs to one call; its token is spent and not yet succeeded. */
  ghost predicate CallsSound(tokens: map<TokenId, RefreshToken>, calls: map<CallId, Call>,
                             births: map<TokenId, Birth>)
  {
    && (forall c :: c in calls ==> calls[c].token in births)
    && (forall c :: c in calls && calls[c].Rotated? ==>
          Spent(tokens, calls[c].token) && births[calls[c].token].successors == []
              && births[calls[c].token].user == calls[c].user)
    && (forall c, d ::
          c in calls && d in calls && calls[c].Rotated? && calls[d].Rotated? && calls[c].token == calls[d].token ==>
          c == d)
  }

  /** A stored, revoked token was logged out, has a successor, or was revoked ahead of its insert. */
  ghost predicate RevocationsExplained(s: State) {
    forall k :: k in s.tokens && s.tokens[k].revokedAt.Some? ==>
      k in s.loggedOut || k in s.revokedFirst || (k in s.births && s.births[k].successors != [])
  }

  ghost predicate Core(tokens: map<TokenId, RefreshToken>, calls: map<CallId, Call>, births: map<TokenId, Birth>) {
    Recorded(tokens, births) && Succession(tokens, births) && OneTip(births) && CallsSound(tokens, calls, births)
  }

  ghost predicate LoginsKnown(births: map<TokenId, Birth>, logins: set<LoginId>) {
    forall x :: x in births ==> births[x].login in logins
  }

  ghost predicate Inv(s: State) {
    Core(s.tokens, s.calls, s.births) && LoginsKnown(s.births, s.logins) && RevocationsExplained(s)
  }

  lemma RevokingKeepsCore(tokens: map<TokenId, RefreshToken>, calls: map<CallId, Call>, births: map<TokenId, Birth>,
                          k: TokenId, now: Time)
    requires Core(tokens, calls, births)
    ensures Core(Revoked(tokens, k, now), calls, births) && Spent(Revoked(tokens, k, now), k)
  {
    assert forall x :: Spent(tokens, x) ==> Spent(Revoked(tokens, k, now), x);
  }

  lemma ErasingKeepsCore(tokens: map<TokenId, RefreshToken>, kept: map<TokenId, RefreshToken>,
                         calls: map<CallId, Call>, births: map<TokenId, Birth>)
    requires Core(tokens, calls, births) && forall k :: k in kept ==> k in tokens && kept[k] == tokens[k]
    ensures Core(kept, calls, births)
  {
    assert forall x :: Spent(tokens, x) ==> Spent(kept, x);
  }

  lemma DroppingCallKeepsCore(tokens: map<TokenId, RefreshToken>, calls: map<CallId, Call>,
                              births: map<TokenId, Birth>, c: CallId)
    requires Core(tokens, calls, births)
    ensures Core(tokens, calls - {c}, births)
  {
    hide Recorded, Succession, OneTip;
  }

  /** A call that has only read, or one that has just won the revoke of a spent, unsucceeded token
      nobody else has won. */
  lemma SettingCallKeepsCore(tokens: map<TokenId, RefreshToken>, calls: map<CallId, Call>, births: map<TokenId, Birth>,
                             c: CallId, call: Call)
    requires Core(tokens, calls, births) && call.token in births
    requires call.Rotated? ==>
               Spent(tokens, call.token) && births[call.token].successors == [] && births[call.token].user == call.user
    requires call.Rotated? ==> forall d :: d in calls && calls[d].Rotated? ==> calls[d].token != call.token
    ensures Core(tokens, calls[c := call], births)
  {
    hide Recorded, Succession, OneTip;
  }

  /** An unspent token has no successor and no call has won it. */
  lemma UnspentIsFree(tokens: map<TokenId, RefreshToken>, calls: map<CallId, Call>, births: map<TokenId, Birth>,
                      k: TokenId)
    requires Core(tokens, calls, births) && k in tokens && tokens[k].revokedAt.None?
    ensures k in births && births[k].user == tokens[k].user && births[k].successors == []
    ensures forall d :: d in calls && calls[d].Rotated? ==> calls[d].token != k
  {
    hide OneTip;
    assert !Spent(tokens, k);
  }

  lemma NewLoginKeepsCore(tokens: map<TokenId, RefreshToken>, calls: map<CallId, Call>, births: map<TokenId, Birth>,
                          id: TokenId, t: RefreshToken, login: LoginId)
    requires Core(tokens, calls, births) && id !in births && forall x :: x in births ==> births[x].login != login
    ensures Core(tokens[id := t], calls, births[id := Birth(login, t.user, [])])
  {
    assert forall x :: x in births && Spent(tokens, x) ==> Spent(tokens[id := t], x);
  }

  lemma MintKeepsTips(births: map<TokenId, Birth>, k: TokenId, id: TokenId)
    requires OneTip(births) && k in births && id !in births && births[k].successors == []
    ensures OneTip(Minted(births, k, id))
  {
    var b := Minted(births, k, id);
    assert b[k].successors == [id] && b[k].login == b[id].login == births[k].login;
    forall x, y | x in b && y in b && x != y && b[x].login == b[y].login
      ensures b[x].successors != [] || b[y].successors != []
    {
      if x != id && y != id {
        assert births[x].successors != [] || births[y].successors != [];
      } else {
        var z := if x == id then y else x;
        assert z != k ==> births[z].successors != [];
      }
    }
  }

  lemma MintKeepsSuccession(tokens: map<TokenId, RefreshToken>, births: map<TokenId, Birth>, k: TokenId, id: TokenId,
                            t: RefreshToken)
    requires Succession(tokens, births) && k in births && id !in births && births[k].successors == []
             && Spent(tokens, k)
    ensures Succession(tokens[id := t], Minted(births, k, id))
  {
    var b := Minted(births, k, id);
    assert forall x :: x in births && Spent(tokens, x) ==> Spent(tokens[id := t], x);
    forall x, n | x in b && n in b[x].successors ensures n in b && b[n].login == b[x].login && b[n].user == b[x].user {
      if x != k { assert n in births[x].successors; }
    }
  }

  lemma MintKeepsCalls(tokens: map<TokenId, RefreshToken>, calls: map<CallId, Call>, births: map<TokenId, Birth>,
                       k: TokenId, id: TokenId, t: RefreshToken)
    requires CallsSound(tokens, calls, births) && k in births && id !in births
    requires forall d :: d in calls && calls[d].Rotated? ==> calls[d].token != k
    ensures CallsSound(tokens[id := t], calls, Minted(births, k, id))
  {
    assert forall x :: x in births && Spent(tokens, x) ==> Spent(tokens[id := t], x);
  }

  /** Minting the fresh id from a spent, unsucceeded token that no other call has won. */
  lemma MintKeepsCore(tokens: map<TokenId, RefreshToken>, calls: map<CallId, Call>, births: map<TokenId, Birth>,
                      k: TokenId, id: TokenId, t: RefreshToken)
    requires Core(tokens, calls, births) && k in births && id !in births
    requires Spent(tokens, k) && births[k].successors == [] && births[k].user == t.user
    requires forall d :: d in calls && calls[d].Rotated? ==> calls[d].token != k
    ensures Core(tokens[id := t], calls, Minted(births, k, id))
  {
    MintKeepsTips(births, k, id);
    MintKeepsSuccession(tokens, births, k, id, t);
    MintKeepsCalls(tokens, calls, births, k, id, t);
    hide OneTip, Succession, CallsSound;
  }

  // ---- the steps ----

  lemma LoginKeeps(s: State, id: TokenId, login: LoginId, u: UserId, expiresAt: Time)
    requires Inv(s)
    ensures Inv(Next(s, Login(id, login, u, expiresAt)))
  {
    hide Core;
    if id !in s.births && login !in s.logins {
      NewLoginKeepsCore(s.tokens, s.calls, s.births, id, RefreshToken(u, expiresAt, None), login);
    }
  }

  lemma ReadKeeps(s: State, step: Step)
    requires Inv(s) && (step.StartRefresh? || step.StartLogout?)
    ensures Inv(Next(s, step))
  {
    if step.token in s.tokens && s.tokens[step.token].revokedAt.None? {
      UnspentIsFree(s.tokens, s.calls, s.births, step.token);
      hide Core;
      SettingCallKeepsCore(s.tokens, s.calls, s.births, step.call,
                           if step.StartRefresh? then Refreshing(step.token, step.now) else LoggingOut(step.token));
    }
  }

  lemma EndKeeps(s: State, c: CallId)
    requires Inv(s)
    ensures Inv(s.(calls := s.calls - {c}))
  {
    hide Core;
    DroppingCallKeepsCore(s.tokens, s.calls, s.births, c);
  }

  lemma RotateKeeps(s: State, c: CallId, id: TokenId, expiresAt: Time)
    requires Inv(s)
    ensures Inv(Next(s, RotateInTx(c, id, expiresAt)))
  {
    hide Core;
    EndKeeps(s, c);
    if c in s.calls && s.calls[c].Refreshing? && id !in s.births && Revocable(s, s.calls[c].token, s.calls[c].now) {
      var k, now := s.calls[c].token, s.calls[c].now;
      var revoked, calls := Revoked(s.tokens, k, now), s.calls - {c};
      UnspentIsFree(s.tokens, s.calls, s.births, k);
      RevokingKeepsCore(s.tokens, calls, s.births, k, now);
      MintKeepsCore(revoked, calls, s.births, k, id, RefreshToken(s.tokens[k].user, expiresAt, None));
    }
  }

  lemma RevokeFirstKeeps(s: State, c: CallId)
    requires Inv(s)
    ensures Inv(Next(s, RevokeFirst(c)))
  {
    hide Core;
    EndKeeps(s, c);
    if c in s.calls && s.calls[c].Refreshing? && Revocable(s, s.calls[c].token, s.calls[c].now) {
      var k, now := s.calls[c].token, s.calls[c].now;
      UnspentIsFree(s.tokens, s.calls, s.births, k);
      RevokingKeepsCore(s.tokens, s.calls, s.births, k, now);
      SettingCallKeepsCore(Revoked(s.tokens, k, now), s.calls, s.births, c, Rotated(k, s.tokens[k].user));
    }
  }

  lemma InsertKeeps(s: State, c: CallId, id: TokenId, expiresAt: Time)
    requires Inv(s)
    ensures Inv(Next(s, InsertNext(c, id, expiresAt)))
  {
    if c in s.calls && s.calls[c].Rotated? && id !in s.births {
      var k := s.calls[c].token;
      assert Spent(s.tokens, k) && s.births[k].successors == [] && s.births[k].user == s.calls[c].user;
      assert forall d :: d in s.calls - {c} && s.calls[d].Rotated? ==> s.calls[d].token != k;
      hide Core;
      EndKeeps(s, c);
      MintKeepsCore(s.tokens, s.calls - {c}, s.births, k, id, RefreshToken(s.calls[c].user, expiresAt, None));
    }
  }

  lemma LogoutKeeps(s: State, c: CallId, now: Time)
    requires Inv(s)
    ensures Inv(Next(s, FinishLogout(c, now)))
  {
    hide Core;
    EndKeeps(s, c);
    if c in s.calls { RevokingKeepsCore(s.tokens, s.calls - {c}, s.births, s.calls[c].token, now); }
  }

  lemma EraseKeeps(s: State, u: UserId)
    requires Inv(s)
    ensures Inv(Next(s, EraseTokens(u)))
  {
    hide Core;
    ErasingKeepsCore(s.tokens, Next(s, EraseTokens(u)).tokens, s.calls, s.births);
  }

  lemma StepKeeps(s: State, step: Step)
    requires Inv(s)
    ensures Inv(Next(s, step))
  {
    hide Inv;
    match step
    case Login(id, login, u, at) => LoginKeeps(s, id, login, u, at);
    case StartRefresh(_, _, _) => ReadKeeps(s, step);
    case StartLogout(_, _) => ReadKeeps(s, step);
    case RotateInTx(c, id, at) => RotateKeeps(s, c, id, at);
    case AbortTx(c) => EndKeeps(s, c);
    case RevokeFirst(c) => RevokeFirstKeeps(s, c);
    case InsertNext(c, id, at) => InsertKeeps(s, c, id, at);
    case FailInsert(c) => EndKeeps(s, c);
    case FinishLogout(c, now) => LogoutKeeps(s, c, now);
    case EraseTokens(u) => EraseKeeps(s, u);
  }

  lemma {:induction false} Reachable(steps: seq<Step>)
    ensures Inv(Run(steps))
  {
    hide Next;
    if steps != [] {
      Reachable(steps[..|steps| - 1]);
      hide Inv;
      StepKeeps(Run(steps[..|steps| - 1]), steps[|steps| - 1]);
    }
  }

  // ---- the promises, over every run ----

  /** No token is ever exchanged twice, and what it was exchanged for belongs to the same account. */
  lemma OneSuccessorEach(steps: seq<Step>, k: TokenId)
    requires k in Run(steps).births
    ensures var s := Run(steps);
            && |s.births[k].successors| <= 1
            && (forall n :: n in s.births[k].successors ==> n in s.births && s.births[n].user == s.births[k].user)
            && (s.births[k].successors != [] && k in s.tokens ==> s.tokens[k].revokedAt.Some?)
  {
    Reachable(steps);
    hide Run;
  }

  /** At most one token of a login's chain is active. */
  lemma OneActivePerLogin(steps: seq<Step>, x: TokenId, y: TokenId)
    requires var s := Run(steps);
             && x in s.tokens && s.tokens[x].revokedAt.None? && y in s.tokens && s.tokens[y].revokedAt.None?
             && x in s.births && y in s.births && s.births[x].login == s.births[y].login
    ensures x == y
  {
    Reachable(steps);
    hide Run;
    var s := Run(steps);
    UnspentIsFree(s.tokens, s.calls, s.births, x);
    UnspentIsFree(s.tokens, s.calls, s.births, y);
  }

  lemma StepNeverRevives(s: State, step: Step, k: TokenId)
    requires Inv(s) && k in s.births && Spent(s.tokens, k)
    ensures Spent(Next(s, step).tokens, k) && k in Next(s, step).births
  {
    hide Inv;
  }

  /** A token once revoked or erased is never active again. */
  lemma {:induction false} NeverRevived(steps: seq<Step>, i: nat, k: TokenId)
    requires i <= |steps| && k in Run(steps[..i]).births && Spent(Run(steps[..i]).tokens, k)
    ensures Spent(Run(steps).tokens, k) && k in Run(steps).births
    decreases |steps|
  {
    hide Next, Spent;
    if i == |steps| {
      assert steps[..i] == steps;
    } else {
      var n := |steps| - 1;
      assert steps[..n][..i] == steps[..i];
      NeverRevived(steps[..n], i, k);
      Reachable(steps[..n]);
      StepNeverRevives(Run(steps[..n]), steps[n], k);
    }
  }

  // ---- rotations that lose the session ----

  /** Some call has won the revoke of k outside a transaction and has its insert still to come. */
  ghost predicate Awaited(s: State, k: TokenId) {
    exists c :: c in s.calls && s.calls[c].Rotated? && s.calls[c].token == k
  }

  /** The step is the failed insert of a call that had won the revoke of k. */
  predicate InsertFails(s: State, step: Step, k: TokenId) {
    step.FailInsert? && step.call in s.calls && s.calls[step.call].Rotated? && s.calls[step.call].token == k
  }

  ghost predicate InsertFailsAt(steps: seq<Step>, i: nat, k: TokenId)
    requires i < |steps|
  {
    InsertFails(Run(steps[..i]), steps[i], k)
  }

  ghost predicate InsertFailed(steps: seq<Step>, k: TokenId) {
    exists i :: 0 <= i < |steps| && InsertFailsAt(steps, i, k)
  }

  /** Spent, with no successor and nobody to mint one. */
  ghost predicate Lost(s: State, k: TokenId) {
    k in s.births && Spent(s.tokens, k) && s.births[k].successors == [] && !Awaited(s, k)
  }

  /** Revoked ahead of its insert, which came or is still to come. */
  ghost predicate Settled(s: State, k: TokenId) {
    k in s.revokedFirst ==> Awaited(s, k) || (k in s.births && s.births[k].successors != [])
  }

  lemma FailedInsertLoses(s: State, step: Step, k: TokenId)
    requires Inv(s) && InsertFails(s, step, k)
    ensures Lost(Next(s, step), k)
  {
    hide Recorded, Succession, OneTip, LoginsKnown, RevocationsExplained;
  }

  /** A spent token can be won by no further call. */
  lemma LostStays(s: State, step: Step, k: TokenId)
    requires Inv(s) && Lost(s, k)
    ensures Lost(Next(s, step), k)
  {
    hide Recorded, OneTip, LoginsKnown, RevocationsExplained;
    StepNeverRevives(s, step, k);
    assert forall c :: c in s.calls && s.calls[c].Rotated? ==> s.calls[c].token != k;
    assert forall c :: c in Next(s, step).calls && Next(s, step).calls[c].Rotated? ==>
      Next(s, step).calls[c].token != k;
  }

  lemma SettledStays(s: State, step: Step, k: TokenId)
    requires Inv(s) && Settled(s, k) && !InsertFails(s, step, k)
    ensures Settled(Next(s, step), k)
  {
    hide Recorded, OneTip, LoginsKnown, RevocationsExplained;
    var n := Next(s, step);
    if Awaited(s, k) {
      var c :| c in s.calls && s.calls[c].Rotated? && s.calls[c].token == k;
      assert (c in n.calls && n.calls[c] == s.calls[c]) || (k in n.births && n.births[k].successors != []);
    } else if k in n.revokedFirst && k !in s.revokedFirst {
      assert step.call in n.calls && n.calls[step.call].Rotated?;
    }
  }

  lemma InsertFailedSplits(steps: seq<Step>, k: TokenId)
    requires steps != []
    ensures var n := |steps| - 1;
            InsertFailed(steps, k) <==> InsertFailed(steps[..n], k) || InsertFails(Run(steps[..n]), steps[n], k)
  {
    hide Run, InsertFails;
    var n := |steps| - 1;
    assert forall i :: 0 <= i < n ==> steps[..n][..i] == steps[..i];
    assert forall i :: 0 <= i < n ==> (InsertFailsAt(steps[..n], i, k) <==> InsertFailsAt(steps, i, k));
    assert InsertFails(Run(steps[..n]), steps[n], k) <==> InsertFailsAt(steps, n, k);
  }

  lemma {:induction false} LostOrSettled(steps: seq<Step>, k: TokenId)
    ensures if InsertFailed(steps, k) then Lost(Run(steps), k) else Settled(Run(steps), k)
  {
    hide Next, Inv, Lost, InsertFails;
    if steps != [] {
      hide Settled;
      var n := |steps| - 1;
      var s := Run(steps[..n]);
      LostOrSettled(steps[..n], k);
      Reachable(steps[..n]);
      InsertFailedSplits(steps, k);
      if InsertFails(s, steps[n], k) { FailedInsertLoses(s, steps[n], k); }
      else if InsertFailed(steps[..n], k) { LostStays(s, steps[n], k); }
      else { SettledStays(s, steps[n], k); }
    }
  }

  /** A session is lost, its token revoked other than by a logout with no successor and nobody to
      mint one, exactly when the insert of a call that had won its revoke failed. */
  lemma LostIffInsertFailed(steps: seq<Step>, k: TokenId)
    requires k in Run(steps).tokens && Run(steps).tokens[k].revokedAt.Some? && k !in Run(steps).loggedOut
    ensures k in Run(steps).births
    ensures Run(steps).births[k].successors == [] && !Awaited(Run(steps), k) <==> InsertFailed(steps, k)
  {
    hide Run, Awaited, InsertFailed;
    Reachable(steps);
    LostOrSettled(steps, k);
  }

  /** So a stored token that was not logged out, whose rotation is not under way and did not fail, is
      revoked exactly when it has a successor, whoever else rotates in whatever way. */
  lemma RotatedMeansSucceeded(steps: seq<Step>, k: TokenId)
    requires k in Run(steps).tokens && k !in Run(steps).loggedOut
    requires !Awaited(Run(steps), k) && !InsertFailed(steps, k)
    ensures k in Run(steps).births
    ensures Run(steps).tokens[k].revokedAt.Some? <==> Run(steps).births[k].successors != []
  {
    hide Run, Awaited, InsertFailed;
    Reachable(steps);
    var s := Run(steps);
    if s.tokens[k].revokedAt.None? { UnspentIsFree(s.tokens, s.calls, s.births, k); }
    else { LostIffInsertFailed(steps, k); }
  }

  /** With a transaction runner no call ever holds a revoke without its insert. */
  lemma {:induction false} NothingRevokedFirst(steps: seq<Step>)
    requires forall i :: 0 <= i < |steps| ==> !steps[i].RevokeFirst?
    ensures forall c :: c in Run(steps).calls ==> !Run(steps).calls[c].Rotated?
  {
    if steps != [] { NothingRevokedFirst(steps[..|steps| - 1]); }
  }

  /** So there every rotation commits whole: no session is lost. */
  lemma TransactionsLoseNothing(steps: seq<Step>, k: TokenId)
    requires forall i :: 0 <= i < |steps| ==> !steps[i].RevokeFirst?
    requires k in Run(steps).tokens && k !in Run(steps).loggedOut
    ensures k in Run(steps).births
    ensures Run(steps).tokens[k].revokedAt.Some? <==> Run(steps).births[k].successors != []
  {
    hide Run;
    NothingRevokedFirst(steps);
    forall i | 0 <= i < |steps| ensures !InsertFailsAt(steps, i, k) {
      NothingRevokedFirst(steps[..i]);
    }
    RotatedMeansSucceeded(steps, k);
  }

  /** Without one, a failed insert leaves a revoked token with no successor and nobody to mint one. */
  lemma RotationLostWithoutTx()
    ensures var s := Run([Login(1, 3, 7, 100), StartRefresh(2, 1, 50), RevokeFirst(2), FailInsert(2)]);
            1 in s.tokens && s.tokens[1].revokedAt.Some? && 1 in s.births && s.births[1].successors == []
            && s.calls == map[]
  {
    var steps := [Login(1, 3, 7, 100), StartRefresh(2, 1, 50), RevokeFirst(2), FailInsert(2)];
    assert steps[..3] == [Login(1, 3, 7, 100), StartRefresh(2, 1, 50), RevokeFirst(2)];
    assert steps[..3][..2] == [Login(1, 3, 7, 100), StartRefresh(2, 1, 50)];
    assert steps[..3][..2][..1] == [Login(1, 3, 7, 100)];
    assert Run(steps[..3][..2][..1]) == Next(INITIAL, Login(1, 3, 7, 100));
  }
}
