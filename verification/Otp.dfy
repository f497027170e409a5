/** One-time codes: requests and verifications interleaved statement by
    statement, for any number of concurrent calls. */
module Otp {
  import opened Sql
  import opened Schema

  type CallId = int
  type SessionId = int

  /** A verification between two of its statements. */
  datatype Call =
    | Checked(code: OtpId, phone: string, hash: string, now: Time)   // pre-checks passed and the hash matched
    | Missed(code: OtpId)                                            // wrong code: the increment still to come
    | Consumed(code: OtpId)                                          // consumed without a transaction; no session yet

  /** `issued` lists, for every code ever stored, the sessions issued for it;
      `consumed` holds every code ever consumed. */
  datatype State = State(
    codes: map<OtpId, OtpCode>, calls: map<CallId, Call>, issued: map<OtpId, seq<SessionId>>, consumed: set<OtpId>)

  const INITIAL := State(map[], map[], map[], {})

  /** `latest` in a step is the row that its order-by-limit-one subquery returned. */
  datatype Step =
    | Request(id: OtpId, phone: string, hash: string, maxAttempts: nat, expiresAt: Time, createdAt: Time)
    | StartVerify(call: CallId, phone: string, hash: string, now: Time, latest: OtpId)
    | CountMiss(call: CallId)
    | ConsumeInTx(call: CallId, latest: OtpId, session: SessionId)   // consume, link and session commit together
    | AbortTx(call: CallId)                                          // any of them failed: all roll back
    | ConsumeFirst(call: CallId, latest: OtpId)                      // without a transaction runner: the consume alone
    | IssueSession(call: CallId, session: SessionId)
    | FailIssue(call: CallId)
    | EraseCodes(phone: string)                                      // account deletion

  /** order by created_at desc limit 1: no code of the phone was created later. */
  ghost predicate IsLatest(codes: map<OtpId, OtpCode>, phone: string, id: OtpId) {
    && id in codes && codes[id].phone == phone
    && forall x :: x in codes && codes[x].phone == phone ==> codes[x].createdAt <= codes[id].createdAt
  }

  /** Unconsumed, unexpired and with attempts left. */
  predicate Open(c: OtpCode, now: Time) { c.consumedAt.None? && c.expiresAt > now && c.attempts < c.maxAttempts }

  /** ConsumeOtpCodeIfValid's where clause. */
  ghost predicate Consumable(codes: map<OtpId, OtpCode>, id: OtpId, phone: string, hash: string, now: Time,
                             latest: OtpId)
  {
    && id in codes && codes[id].codeHash == hash && Open(codes[id], now)
    && IsLatest(codes, phone, latest) && id == latest
  }

  function Spend(codes: map<OtpId, OtpCode>, id: OtpId, now: Time): map<OtpId, OtpCode> {
    if id in codes then codes[id := codes[id].(consumedAt := Some(now))] else codes
  }

  function CountedMiss(codes: map<OtpId, OtpCode>, id: OtpId): map<OtpId, OtpCode>
    requires id in codes
  {
    codes[id := codes[id].(attempts := codes[id].attempts + 1)]
  }

  function Log(issued: map<OtpId, seq<SessionId>>, id: OtpId, session: SessionId): map<OtpId, seq<SessionId>> {
    if id in issued then issued[id := issued[id] + [session]] else issued
  }

  ghost predicate Consumes(s: State, c: CallId, latest: OtpId) {
    c in s.calls && s.calls[c].Checked?
    && Consumable(s.codes, s.calls[c].code, s.calls[c].phone, s.calls[c].hash, s.calls[c].now, latest)
  }

  ghost function Next(s: State, step: Step): State {
    match step
    case Request(id, phone, hash, most, expiresAt, createdAt) =>
      if id in s.issued then s
      else s.(codes := s.codes[id := OtpCode(phone, hash, 0, most, expiresAt, None, createdAt)],
              issued := s.issued[id := []])
    case StartVerify(c, phone, hash, now, latest) =>
      if c in s.calls || !IsLatest(s.codes, phone, latest) || !Open(s.codes[latest], now) then s
      else
        var checked := s.codes[latest].codeHash == hash;
        s.(calls := s.calls[c := if checked then Checked(latest, phone, hash, now) else Missed(latest)])
    case CountMiss(c) =>
      if c !in s.calls || !s.calls[c].Missed? then s
      else
        var id := s.calls[c].code;
        s.(calls := s.calls - {c}, codes := if id in s.codes then CountedMiss(s.codes, id) else s.codes)
    case ConsumeInTx(c, latest, session) =>
      if c !in s.calls || !s.calls[c].Checked? then s
      else if !Consumes(s, c, latest) then s.(calls := s.calls - {c})
      else s.(codes := Spend(s.codes, latest, s.calls[c].now), calls := s.calls - {c},
              issued := Log(s.issued, latest, session),
              consumed := s.consumed + {latest})
    case AbortTx(c) =>
      if c in s.calls && s.calls[c].Checked? then s.(calls := s.calls - {c}) else s
    case ConsumeFirst(c, latest) =>
      if c !in s.calls || !s.calls[c].Checked? then s
      else if !Consumes(s, c, latest) then s.(calls := s.calls - {c})
      else s.(codes := Spend(s.codes, latest, s.calls[c].now), calls := s.calls[c := Consumed(latest)],
              consumed := s.consumed + {latest})
    case IssueSession(c, session) =>
      if c !in s.calls || !s.calls[c].Consumed? then s
      else s.(calls := s.calls - {c}, issued := Log(s.issued, s.calls[c].code, session))
    case FailIssue(c) =>
      if c in s.calls && s.calls[c].Consumed? then s.(calls := s.calls - {c}) else s
    case EraseCodes(phone) =>
      s.(codes := map o | o in s.codes && s.codes[o].phone != phone :: s.codes[o])
  }

  /** A requested code is stored as sent, unused, with all its attempts left; no other code changes. */
  lemma CodeRequested(s: State, step: Step)
    requires step.Request? && step.id !in s.issued
    ensures var r := Next(s, step);
            && r.codes.Keys == s.codes.Keys + {step.id}
            && (forall o :: o in s.codes && o != step.id ==> r.codes[o] == s.codes[o])
            && r.codes[step.id].phone == step.phone && r.codes[step.id].codeHash == step.hash
            && r.codes[step.id].attempts == 0 && r.codes[step.id].maxAttempts == step.maxAttempts
            && r.codes[step.id].expiresAt == step.expiresAt && r.codes[step.id].createdAt == step.createdAt
            && r.codes[step.id].consumedAt == None && r.calls == s.calls && r.consumed == s.consumed
            && r.issued == s.issued[step.id := []]
  {}

  /** Consuming stamps its one row, and erasing a phone's codes leaves exactly the others. */
  lemma RowsConsumedOrErased(s: State, id: OtpId, now: Time, phone: string)
    ensures var r := Spend(s.codes, id, now);
            && r.Keys == s.codes.Keys && (forall x :: x in s.codes && x != id ==> r[x] == s.codes[x])
            && (id in s.codes ==>
                  r[id].consumedAt == Some(now) && r[id].(consumedAt := None) == s.codes[id].(consumedAt := None))
    ensures var r := Next(s, EraseCodes(phone));
            && r == s.(codes := r.codes)
            && (forall x :: x in r.codes <==> x in s.codes && s.codes[x].phone != phone)
            && (forall x :: x in r.codes ==> r.codes[x] == s.codes[x])
  {}

  /** A counted miss adds one attempt to its code and changes nothing else of any code. */
  lemma MissCounted(s: State, step: Step)
    requires step.CountMiss? && step.call in s.calls && s.calls[step.call].Missed?
    ensures var r, id := Next(s, step), s.calls[step.call].code;
            && r.codes.Keys == s.codes.Keys && r.issued == s.issued && r.consumed == s.consumed
            && (forall o :: o in s.codes && o != id ==> r.codes[o] == s.codes[o])
            && (id in s.codes ==> r.codes[id].attempts == s.codes[id].attempts + 1
                                  && r.codes[id].(attempts := 0) == s.codes[id].(attempts := 0))
  {}

  ghost function Run(steps: seq<Step>): State {
    if steps == [] then INITIAL else Next(Run(steps[..|steps| - 1]), steps[|steps| - 1])
  }

  // ---- what every step keeps ----

  /** Stored codes are known, and marked exactly when they were consumed. */
  ghost predicate CodesSound(codes: map<OtpId, OtpCode>, issued: map<OtpId, seq<SessionId>>, consumed: set<OtpId>) {
    forall o :: o in codes ==> o in issued && (codes[o].consumedAt.Some? <==> o in consumed)
  }

  /** At most one session per code, and only for a consumed one. */
  ghost predicate IssuedSound(issued: map<OtpId, seq<SessionId>>, consumed: set<OtpId>) {
    && (forall o :: o in consumed ==> o in issued)
    && (forall o :: o in issued ==> |issued[o]| <= if o in consumed then 1 else 0)
  }

  /** A call that consumed its code alone is the only one, and has no session yet. */
  ghost predicate CallsSound(calls: map<CallId, Call>, issued: map<OtpId, seq<SessionId>>, consumed: set<OtpId>) {
    && (forall c :: c in calls ==> calls[c].code in issued)
    && (forall c :: c in calls && calls[c].Consumed? ==>
          calls[c].code in consumed && calls[c].code in issued && issued[calls[c].code] == [])
    && (forall c, d ::
          c in calls && d in calls && calls[c].Consumed? && calls[d].Consumed? && calls[c].code == calls[d].code ==>
          c == d)
  }

  ghost predicate Inv(s: State) {
    CodesSound(s.codes, s.issued, s.consumed) && IssuedSound(s.issued, s.consumed)
    && CallsSound(s.calls, s.issued, s.consumed)
  }

  lemma ReadKeeps(s: State, step: Step)
    requires Inv(s) && (step.StartVerify? || step.CountMiss? || step.AbortTx? || step.FailIssue?)
    ensures Inv(Next(s, step))
  {}

  lemma RequestKeeps(s: State, step: Step)
    requires Inv(s) && step.Request?
    ensures Inv(Next(s, step))
  {}

  lemma ConsumeKeeps(s: State, step: Step)
    requires Inv(s) && (step.ConsumeInTx? || step.ConsumeFirst?)
    ensures Inv(Next(s, step))
  {
    hide IsLatest;
  }

  lemma IssueKeeps(s: State, step: Step)
    requires Inv(s) && (step.IssueSession? || step.EraseCodes?)
    ensures Inv(Next(s, step))
  {}

  lemma StepKeeps(s: State, step: Step)
    requires Inv(s)
    ensures Inv(Next(s, step))
  {
    hide Inv, Next;
    match step
    case Request(_, _, _, _, _, _) => RequestKeeps(s, step);
    case ConsumeInTx(_, _, _) => ConsumeKeeps(s, step);
    case ConsumeFirst(_, _) => ConsumeKeeps(s, step);
    case IssueSession(_, _) => IssueKeeps(s, step);
    case EraseCodes(_) => IssueKeeps(s, step);
    case _ => ReadKeeps(s, step);
  }

  lemma {:induction false} Reachable(steps: seq<Step>)
    ensures Inv(Run(steps))
  {
    hide Next;
    if steps != [] {
      Reachable(steps[..|steps| - 1]);
      StepKeeps(Run(steps[..|steps| - 1]), steps[|steps| - 1]);
    }
  }

  // ---- the promises, over every run ----

  /** The compare-and-set of step i matches the code's row and writes consumed_at. */
  ghost predicate ConsumesAt(steps: seq<Step>, i: nat, id: OtpId)
    requires i < |steps|
  {
    && (steps[i].ConsumeInTx? || steps[i].ConsumeFirst?) && steps[i].latest == id
    && Consumes(Run(steps[..i]), steps[i].call, id)
  }

  /** A verification past its pre-checks read the phone, the hash and the clock
      in an earlier step of the run, and found this code to be the latest then. */
  lemma {:induction false} CheckedBegan(steps: seq<Step>, c: CallId) returns (k: nat)
    requires c in Run(steps).calls && Run(steps).calls[c].Checked?
    ensures k < |steps|
    ensures var call := Run(steps).calls[c];
            steps[k] == StartVerify(c, call.phone, call.hash, call.now, call.code)
            && IsLatest(Run(steps[..k]).codes, call.phone, call.code)
    decreases |steps|
  {
    hide IsLatest, Consumes;
    var n := |steps| - 1;
    var s := Run(steps[..n]);
    if c in s.calls && s.calls[c] == Run(steps).calls[c] {
      k := CheckedBegan(steps[..n], c);
      assert steps[..n][..k] == steps[..k];
    } else {
      k := n;
    }
  }

  /** When a code is consumed it is the presented phone's latest, unconsumed and
      under its attempt limit, the presented hash is its own, and it is unexpired
      at the clock reading its verification took in an earlier step k. */
  lemma ConsumedOnlyWhenValid(steps: seq<Step>, i: nat, id: OtpId) returns (k: nat)
    requires i < |steps| && ConsumesAt(steps, i, id)
    ensures k < i && steps[k].StartVerify? && steps[k].call == steps[i].call && steps[k].latest == id
    ensures var s, read := Run(steps[..i]), steps[k];
            && IsLatest(s.codes, read.phone, id)
            && s.codes[id].consumedAt.None? && s.codes[id].attempts < s.codes[id].maxAttempts
            && s.codes[id].expiresAt > read.now && s.codes[id].codeHash == read.hash
  {
    hide IsLatest;
    k := CheckedBegan(steps[..i], steps[i].call);
  }

  lemma StepKeepsConsumed(s: State, step: Step)
    ensures s.consumed <= Next(s, step).consumed
  {}

  lemma {:induction false} ConsumedForever(steps: seq<Step>, i: nat)
    requires i <= |steps|
    ensures Run(steps[..i]).consumed <= Run(steps).consumed
    decreases |steps|
  {
    hide Next;
    if i == |steps| {
      assert steps[..i] == steps;
    } else {
      var n := |steps| - 1;
      assert steps[..n][..i] == steps[..i];
      ConsumedForever(steps[..n], i);
      StepKeepsConsumed(Run(steps[..n]), steps[n]);
    }
  }

  lemma ConsumeRecorded(s: State, step: Step, id: OtpId)
    requires (step.ConsumeInTx? || step.ConsumeFirst?) && step.latest == id && Consumes(s, step.call, id)
    ensures id in Next(s, step).consumed
  {
    hide IsLatest;
  }

  lemma SpentMatchesNothing(s: State, c: CallId, id: OtpId)
    requires Inv(s) && id in s.consumed
    ensures !Consumes(s, c, id)
  {
    hide IsLatest;
  }

  lemma NoSecondConsumption(steps: seq<Step>, i: nat, j: nat, id: OtpId)
    requires i < j < |steps| && ConsumesAt(steps, i, id)
    ensures !ConsumesAt(steps, j, id)
  {
    hide Run, Next, Consumes;
    StepTaken(steps, i);
    ConsumeRecorded(Run(steps[..i]), steps[i], id);
    assert steps[..j][..i + 1] == steps[..i + 1];
    ConsumedForever(steps[..j], i + 1);
    Reachable(steps[..j]);
    if steps[j].ConsumeInTx? || steps[j].ConsumeFirst? { SpentMatchesNothing(Run(steps[..j]), steps[j].call, id); }
  }

  /** A code's compare-and-set matches at most once in any run. */
  lemma ConsumedAtMostOnce(steps: seq<Step>, i: nat, j: nat, id: OtpId)
    requires i < |steps| && j < |steps| && ConsumesAt(steps, i, id) && ConsumesAt(steps, j, id)
    ensures i == j
  {
    hide ConsumesAt;
    if i < j { NoSecondConsumption(steps, i, j, id); }
    if j < i { NoSecondConsumption(steps, j, i, id); }
  }

  /** At most one session is ever issued for a code, and only if it was consumed. */
  lemma OneSessionPerCode(steps: seq<Step>, id: OtpId)
    requires id in Run(steps).issued
    ensures |Run(steps).issued[id]| <= if id in Run(steps).consumed then 1 else 0
  {
    Reachable(steps);
    hide Run;
  }

  /** Some call has consumed the code outside a transaction and has its session still to issue. */
  ghost predicate Awaited(s: State, id: OtpId) {
    exists c :: c in s.calls && s.calls[c].Consumed? && s.calls[c].code == id
  }

  /** The step is the failed session of a call that had consumed the code. */
  predicate IssueFails(s: State, step: Step, id: OtpId) {
    step.FailIssue? && step.call in s.calls && s.calls[step.call].Consumed? && s.calls[step.call].code == id
  }

  ghost predicate IssueFailsAt(steps: seq<Step>, i: nat, id: OtpId)
    requires i < |steps|
  {
    IssueFails(Run(steps[..i]), steps[i], id)
  }

  ghost predicate IssueFailed(steps: seq<Step>, id: OtpId) {
    exists i :: 0 <= i < |steps| && IssueFailsAt(steps, i, id)
  }

  /** Consumed, with no session and nobody to issue one. */
  ghost predicate Lost(s: State, id: OtpId) {
    id in s.consumed && id in s.issued && s.issued[id] == [] && !Awaited(s, id)
  }

  /** A consumed code has its session, or a call that is about to issue it. */
  ghost predicate Settled(s: State, id: OtpId) {
    id in s.consumed ==> Awaited(s, id) || (id in s.issued && s.issued[id] != [])
  }

  lemma FailedIssueLoses(s: State, step: Step, id: OtpId)
    requires Inv(s) && IssueFails(s, step, id)
    ensures Lost(Next(s, step), id)
  {
    hide CodesSound, IssuedSound;
  }

  lemma LostStays(s: State, step: Step, id: OtpId)
    requires Inv(s) && Lost(s, id)
    ensures Lost(Next(s, step), id)
  {
    if step.ConsumeInTx? || step.ConsumeFirst? { SpentMatchesNothing(s, step.call, id); }
    hide Consumes, CodesSound, IssuedSound, IsLatest;
    assert forall c :: c in s.calls && s.calls[c].Consumed? ==> s.calls[c].code != id;
  }

  lemma ConsumedIsIssued(s: State, c: CallId, id: OtpId)
    requires CallsSound(s.calls, s.issued, s.consumed)
    ensures Consumes(s, c, id) ==> id in s.issued
  {
    hide IsLatest;
  }

  lemma SettledStays(s: State, step: Step, id: OtpId)
    requires Inv(s) && Settled(s, id) && !IssueFails(s, step, id)
    ensures Settled(Next(s, step), id)
  {
    if step.ConsumeInTx? || step.ConsumeFirst? { ConsumedIsIssued(s, step.call, step.latest); }
    hide Consumes, CodesSound, IsLatest;
    var n := Next(s, step);
    if Awaited(s, id) {
      var c :| c in s.calls && s.calls[c].Consumed? && s.calls[c].code == id;
      assert (c in n.calls && n.calls[c] == s.calls[c]) || (id in n.issued && n.issued[id] != []);
    } else if id in n.consumed && id !in s.consumed && step.ConsumeFirst? {
      assert step.call in n.calls && n.calls[step.call] == Consumed(id);
    }
  }

  lemma IssueFailedSplits(steps: seq<Step>, id: OtpId)
    requires steps != []
    ensures var n := |steps| - 1;
            IssueFailed(steps, id) <==> IssueFailed(steps[..n], id) || IssueFails(Run(steps[..n]), steps[n], id)
  {
    hide Run, IssueFails;
    var n := |steps| - 1;
    assert forall i :: 0 <= i < n ==> steps[..n][..i] == steps[..i];
    assert forall i :: 0 <= i < n ==> (IssueFailsAt(steps[..n], i, id) <==> IssueFailsAt(steps, i, id));
    assert IssueFails(Run(steps[..n]), steps[n], id) <==> IssueFailsAt(steps, n, id);
  }

  lemma {:induction false} LostOrSettled(steps: seq<Step>, id: OtpId)
    ensures if IssueFailed(steps, id) then Lost(Run(steps), id) else Settled(Run(steps), id)
  {
    hide Next, Inv, Lost, IssueFails;
    if steps != [] {
      hide Settled;
      var n := |steps| - 1;
      var s := Run(steps[..n]);
      LostOrSettled(steps[..n], id);
      Reachable(steps[..n]);
      IssueFailedSplits(steps, id);
      if IssueFails(s, steps[n], id) { FailedIssueLoses(s, steps[n], id); }
      else if IssueFailed(steps[..n], id) { LostStays(s, steps[n], id); }
      else { SettledStays(s, steps[n], id); }
    }
  }

  /** A consumed code is left without a session, and without a call to issue one, exactly when the session
      of the call that had consumed it failed. */
  lemma LostIffIssueFailed(steps: seq<Step>, id: OtpId)
    requires id in Run(steps).consumed
    ensures id in Run(steps).issued
    ensures Run(steps).issued[id] == [] && !Awaited(Run(steps), id) <==> IssueFailed(steps, id)
  {
    hide Run, Awaited, IssueFailed;
    Reachable(steps);
    LostOrSettled(steps, id);
  }

  /** So a code whose session is not under way and did not fail is consumed if and only if
      exactly one session was issued for it. */
  lemma ConsumedIffOneSession(steps: seq<Step>, id: OtpId)
    requires id in Run(steps).issued && !Awaited(Run(steps), id) && !IssueFailed(steps, id)
    ensures id in Run(steps).consumed <==> |Run(steps).issued[id]| == 1
  {
    hide Run, Awaited, IssueFailed;
    Reachable(steps);
    if id in Run(steps).consumed { LostIffIssueFailed(steps, id); }
  }

  predicate Transactional(steps: seq<Step>) { forall i :: 0 <= i < |steps| ==> !steps[i].ConsumeFirst? }

  lemma {:induction false} NothingConsumedFirst(steps: seq<Step>)
    requires Transactional(steps)
    ensures forall c :: c in Run(steps).calls ==> !Run(steps).calls[c].Consumed?
  {
    hide Consumes, IsLatest;
    if steps != [] { NothingConsumedFirst(steps[..|steps| - 1]); }
  }

  /** With the transaction runner that is every code. */
  lemma TransactionsPairSessions(steps: seq<Step>, id: OtpId)
    requires Transactional(steps) && id in Run(steps).issued
    ensures id in Run(steps).consumed <==> |Run(steps).issued[id]| == 1
  {
    hide Run;
    NothingConsumedFirst(steps);
    forall i | 0 <= i < |steps| ensures !IssueFailsAt(steps, i, id) {
      NothingConsumedFirst(steps[..i]);
    }
    ConsumedIffOneSession(steps, id);
  }

  const LOST_CODE: seq<Step> := [Request(1, "p", "h", 3, 100, 0), StartVerify(5, "p", "h", 50, 1), ConsumeFirst(5, 1),
                                 FailIssue(5)]

  /** Without it a code can be spent on no session. */
  lemma CodeLostWithoutTx()
    ensures var s := Run(LOST_CODE); 1 in s.consumed && 1 in s.issued && s.issued[1] == [] && s.calls == map[]
  {
    assert LOST_CODE[..3] == [Request(1, "p", "h", 3, 100, 0), StartVerify(5, "p", "h", 50, 1), ConsumeFirst(5, 1)];
    assert LOST_CODE[..3][..2] == [Request(1, "p", "h", 3, 100, 0), StartVerify(5, "p", "h", 50, 1)];
    assert LOST_CODE[..3][..2][..1] == [Request(1, "p", "h", 3, 100, 0)];
    assert Run(LOST_CODE[..3][..2][..1]) == Next(INITIAL, Request(1, "p", "h", 3, 100, 0));
    var code := OtpCode("p", "h", 0, 3, 100, None, 0);
    assert Run(LOST_CODE[..3][..2][..1]).codes == map[1 := code];
    assert IsLatest(map[1 := code], "p", 1);
  }

  // ---- the attempt limit ----

  predicate Exhausted(s: State, id: OtpId) {
    id in s.issued && id in s.codes ==> s.codes[id].attempts >= s.codes[id].maxAttempts
  }

  lemma StepKeepsExhausted(s: State, step: Step, id: OtpId)
    requires Inv(s) && id in s.issued && Exhausted(s, id)
    ensures id in Next(s, step).issued && Exhausted(Next(s, step), id)
            && (id in Next(s, step).consumed ==> id in s.consumed)
  {
    hide IsLatest;
  }

  /** Once a code has used up its attempts (or is gone) it is never consumed, whatever was already in flight. */
  lemma {:induction false} ExhaustedNeverConsumed(steps: seq<Step>, i: nat, id: OtpId)
    requires i <= |steps| && id in Run(steps[..i]).issued && Exhausted(Run(steps[..i]), id)
             && id !in Run(steps[..i]).consumed
    ensures id in Run(steps).issued && Exhausted(Run(steps), id) && id !in Run(steps).consumed
    decreases |steps|
  {
    hide Next, Exhausted;
    if i == |steps| {
      assert steps[..i] == steps;
    } else {
      var n := |steps| - 1;
      assert steps[..n][..i] == steps[..i];
      ExhaustedNeverConsumed(steps[..n], i, id);
      Reachable(steps[..n]);
      StepKeepsExhausted(Run(steps[..n]), steps[n], id);
    }
  }

  // ---- wrong guesses ----

  /** Calls that have compared a wrong code and not yet counted it. */
  function Uncounted(calls: map<CallId, Call>, id: OtpId): set<CallId> {
    set c | c in calls && calls[c] == Missed(id)
  }

  /** Wrong guesses of the code so far, counted or not. */
  function Load(s: State, id: OtpId): nat
    requires id in s.codes
  {
    s.codes[id].attempts + |Uncounted(s.calls, id)|
  }

  /** The step compares a wrong code with this row. */
  ghost predicate WrongGuess(s: State, step: Step, id: OtpId) {
    && step.StartVerify? && step.latest == id && step.call !in s.calls
    && IsLatest(s.codes, step.phone, id) && Open(s.codes[id], step.now) && s.codes[id].codeHash != step.hash
  }

  lemma UncountedPlus(calls: map<CallId, Call>, c: CallId, call: Call, id: OtpId)
    requires c !in calls
    ensures |Uncounted(calls[c := call], id)| == |Uncounted(calls, id)| + if call == Missed(id) then 1 else 0
  {
    var before, after := Uncounted(calls, id), Uncounted(calls[c := call], id);
    assert c !in before;
    assert after == if call == Missed(id) then before + {c} else before;
  }

  lemma UncountedMinus(calls: map<CallId, Call>, c: CallId, id: OtpId)
    requires c in calls
    ensures |Uncounted(calls - {c}, id)| == |Uncounted(calls, id)| - if calls[c] == Missed(id) then 1 else 0
  {
    var rest := calls - {c};
    UncountedPlus(rest, c, calls[c], id);
    assert rest[c := calls[c]] == calls;
  }

  lemma UncountedSame(calls: map<CallId, Call>, c: CallId, call: Call, id: OtpId)
    requires c in calls && !calls[c].Missed? && !call.Missed?
    ensures Uncounted(calls[c := call], id) == Uncounted(calls, id)
  {}

  lemma NothingUncounted(s: State, id: OtpId)
    requires Inv(s) && id !in s.issued
    ensures Uncounted(s.calls, id) == {}
  {
    assert forall c :: c !in Uncounted(s.calls, id);
  }

  lemma StartLoads(s: State, step: Step, id: OtpId)
    requires step.StartVerify? && id in s.codes
    ensures Next(s, step).codes == s.codes
    ensures |Uncounted(Next(s, step).calls, id)| ==
            |Uncounted(s.calls, id)| + if WrongGuess(s, step, id) then 1 else 0
  {
    hide IsLatest, Uncounted;
    var c := step.call;
    if c !in s.calls && Next(s, step).calls != s.calls { UncountedPlus(s.calls, c, Next(s, step).calls[c], id); }
  }

  /** While the code is stored, a step adds one to its load exactly when it
      compares a wrong code with it, and otherwise leaves load and limit alone. */
  lemma StepLoads(s: State, step: Step, id: OtpId)
    requires Inv(s) && id in Next(s, step).codes
    ensures id in s.codes || (id !in s.issued && Load(Next(s, step), id) == 0)
    ensures id in s.codes ==>
              && Next(s, step).codes[id].maxAttempts == s.codes[id].maxAttempts
              && Load(Next(s, step), id) == Load(s, id) + if WrongGuess(s, step, id) then 1 else 0
    ensures id !in s.codes ==> !WrongGuess(s, step, id)
  {
    hide IsLatest, IssuedSound, CallsSound, Uncounted;
    match step
    case Request(x, _, _, _, _, _) =>
      if x == id && id !in s.issued { NothingUncounted(s, id); }
    case StartVerify(c, _, _, _, latest) =>
      StartLoads(s, step, id);
    case CountMiss(c) =>
      if c in s.calls { UncountedMinus(s.calls, c, id); }
    case ConsumeInTx(c, _, _) =>
      if c in s.calls { UncountedMinus(s.calls, c, id); }
    case AbortTx(c) =>
      if c in s.calls { UncountedMinus(s.calls, c, id); }
    case ConsumeFirst(c, latest) =>
      if c in s.calls {
        UncountedMinus(s.calls, c, id);
        if s.calls[c].Checked? { UncountedSame(s.calls, c, Consumed(latest), id); }
      }
    case IssueSession(c, _) =>
      if c in s.calls { UncountedMinus(s.calls, c, id); }
    case FailIssue(c) =>
      if c in s.calls { UncountedMinus(s.calls, c, id); }
    case EraseCodes(_) =>
  }

  /** Wrong codes compared with this row over the whole run. */
  ghost function Guesses(steps: seq<Step>, id: OtpId): nat {
    if steps == [] then 0
    else
      var n := |steps| - 1;
      Guesses(steps[..n], id) + if WrongGuess(Run(steps[..n]), steps[n], id) then 1 else 0
  }

  lemma {:induction false} NoGuessBeforeStored(steps: seq<Step>, id: OtpId)
    requires id !in Run(steps).issued
    ensures Guesses(steps, id) == 0
  {
    if steps != [] {
      var n := |steps| - 1;
      hide Next, IsLatest;
      IssuedForever(Run(steps[..n]), steps[n]);
      NoGuessBeforeStored(steps[..n], id);
      Reachable(steps[..n]);
    }
  }

  lemma IssuedForever(s: State, step: Step)
    ensures s.issued.Keys <= Next(s, step).issued.Keys
  {
    hide IsLatest, Consumes;
  }

  /** Every wrong guess of a stored code is in its attempt count or about to be. */
  lemma {:induction false} GuessesAreLoad(steps: seq<Step>, id: OtpId)
    requires id in Run(steps).codes
    ensures Guesses(steps, id) == Load(Run(steps), id)
  {
    if steps != [] {
      hide Next, WrongGuess, Load;
      var n := |steps| - 1;
      Reachable(steps[..n]);
      StepLoads(Run(steps[..n]), steps[n], id);
      if id in Run(steps[..n]).codes { GuessesAreLoad(steps[..n], id); } else { NoGuessBeforeStored(steps[..n], id); }
    }
  }

  /** Each wrong guess of the run was compared while fewer than the limit had been. */
  ghost predicate GuessedInTurn(steps: seq<Step>, id: OtpId) {
    forall i :: 0 <= i < |steps| && WrongGuess(Run(steps[..i]), steps[i], id) && id in Run(steps[..i]).codes ==>
      Load(Run(steps[..i]), id) < Run(steps[..i]).codes[id].maxAttempts
  }

  lemma InTurnSplits(steps: seq<Step>, id: OtpId)
    requires steps != []
    ensures var n := |steps| - 1;
            GuessedInTurn(steps, id) <==>
            && GuessedInTurn(steps[..n], id)
            && (WrongGuess(Run(steps[..n]), steps[n], id) && id in Run(steps[..n]).codes ==>
                  Load(Run(steps[..n]), id) < Run(steps[..n]).codes[id].maxAttempts)
  {
    hide WrongGuess, Load, Run;
    var n := |steps| - 1;
    assert forall i :: 0 <= i < n ==> steps[..n][..i] == steps[..i];
  }

  lemma {:induction false} InTurnBeforeStored(steps: seq<Step>, id: OtpId)
    requires id !in Run(steps).issued
    ensures GuessedInTurn(steps, id)
  {
    if steps != [] {
      var n := |steps| - 1;
      hide Next, IsLatest;
      IssuedForever(Run(steps[..n]), steps[n]);
      InTurnBeforeStored(steps[..n], id);
      Reachable(steps[..n]);
      InTurnSplits(steps, id);
    }
  }

  /** A stored code's limit bounds its wrong guesses if and only if each of them
      was compared while fewer than the limit had been, counted or not. */
  lemma {:induction false} LimitHoldsIffInTurn(steps: seq<Step>, id: OtpId)
    requires id in Run(steps).codes
    ensures Guesses(steps, id) <= Run(steps).codes[id].maxAttempts <==> GuessedInTurn(steps, id)
  {
    GuessesAreLoad(steps, id);
    if steps != [] {
      hide Next, WrongGuess, Load, GuessedInTurn;
      var n := |steps| - 1;
      InTurnSplits(steps, id);
      Reachable(steps[..n]);
      StepLoads(Run(steps[..n]), steps[n], id);
      if id in Run(steps[..n]).codes {
        LimitHoldsIffInTurn(steps[..n], id);
        GuessesAreLoad(steps[..n], id);
      } else {
        InTurnBeforeStored(steps[..n], id);
      }
    }
  }

  /** In particular it does when no two wrong guesses of the code overlap. */
  lemma LimitHoldsWithoutOverlap(steps: seq<Step>, id: OtpId)
    requires id in Run(steps).codes
    requires forall i :: 0 <= i < |steps| && WrongGuess(Run(steps[..i]), steps[i], id) ==>
                           Uncounted(Run(steps[..i]).calls, id) == {}
    ensures Guesses(steps, id) <= Run(steps).codes[id].maxAttempts
  {
    hide Run, IsLatest;
    LimitHoldsIffInTurn(steps, id);
  }

  const RACE: seq<Step> := [Request(1, "p", "h", 1, 100, 0), StartVerify(5, "p", "x", 50, 1),
      StartVerify(6, "p", "y", 50, 1), CountMiss(5), CountMiss(6)]

  lemma StepTaken(steps: seq<Step>, i: nat)
    requires i < |steps|
    ensures Run(steps[..i + 1]) == Next(Run(steps[..i]), steps[i])
  {
    assert steps[..i + 1][..i] == steps[..i];
    hide Next;
  }

  /** The limit bounds consumption, not guesses: two calls that read before either counts both get compared. */
  lemma GuessesOvershootTheLimit()
    ensures var s := Run(RACE); 1 in s.codes && s.codes[1].attempts > s.codes[1].maxAttempts
  {
    hide Run;
    StepTaken(RACE, 0); StepTaken(RACE, 1); StepTaken(RACE, 2); StepTaken(RACE, 3); StepTaken(RACE, 4);
    assert Run(RACE[..0]) == INITIAL by { StartsInitial(); }
    assert RACE[..5] == RACE;
    var code := OtpCode("p", "h", 0, 1, 100, None, 0);
    assert Run(RACE[..1]).codes == map[1 := code];
    assert Run(RACE[..2]).calls == map[5 := Missed(1)] && Run(RACE[..2]).codes == map[1 := code];
    assert Run(RACE[..3]).calls == map[5 := Missed(1), 6 := Missed(1)] && Run(RACE[..3]).codes == map[1 := code];
    assert Run(RACE[..4]).calls == map[6 := Missed(1)] && Run(RACE[..4]).codes == map[1 := code.(attempts := 1)];
  }

  lemma StartsInitial()
    ensures Run(RACE[..0]) == INITIAL
  {}
}
