/** Posting an update with an Idempotency-Key: look the key up, post, and after a
    lost race look it up again. Retries race with each other and with every other
    write of the backend. */
module Retries {
  import opened Sql
  import opened Schema
  import opened Writes
  import opened AccountDeletion
  import M = Machine
  import H = History

  type CallId = int

  /** What identifies a retried request: its author and Idempotency-Key. */
  datatype Request = Request(author: UserId, key: string)

  datatype Stage =
    | Looked        // found no earlier row
    | Conflicted    // the insert violated the unique index

  /** `requests` holds every call ever made with a key, `stages` the running ones, `answers` the successful ones. */
  datatype State = State(db: Tables, requests: map<CallId, Request>, stages: map<CallId, Stage>,
                         answers: map<CallId, UpdateId>)

  const INITIAL := State(EMPTY, map[], map[], map[])

  datatype Step =
    | Other(op: M.Op)                                               // any other write, keyed posts of others included
    | Begin(call: CallId, request: Request, found: Option<UpdateId>)
    | Insert(call: CallId, post: NewUpdate)
    | LookUp(call: CallId, found: Option<UpdateId>)
    | Fail(call: CallId)                                            // a check, a statement or the process failed

  /** GetUpdateByIdempotencyKey: deleted updates are not filtered out. */
  ghost predicate LookupReturns(updates: map<UpdateId, Update>, r: Request, found: Option<UpdateId>) {
    if found.Some? then found.value in updates && Keyed(updates[found.value], r.author, r.key)
    else KeyFree(updates, r.author, Some(r.key))
  }

  predicate At(s: State, c: CallId, g: Stage) { c in s.stages && c in s.requests && s.stages[c] == g }

  function Answer(s: State, c: CallId, id: UpdateId): State {
    s.(stages := s.stages - {c}, answers := s.answers[c := id])
  }

  ghost function Next(s: State, step: Step): State {
    match step
    case Other(op) => s.(db := M.Apply(s.db, op))
    case Begin(c, r, found) =>
      if c in s.requests || !LookupReturns(s.db.updates, r, found) then s
      else
        var t := s.(requests := s.requests[c := r]);
        if found.Some? then Answer(t, c, found.value) else t.(stages := t.stages[c := Looked])
    case Insert(c, p) =>
      if !At(s, c, Looked) || p.author != s.requests[c].author || p.key != Some(s.requests[c].key) then s
      else if CanCreate(s.db, p) then Answer(s, c, p.id).(db := CreateUpdate(s.db, p))
      else if !KeyFree(s.db.updates, p.author, p.key) then s.(stages := s.stages[c := Conflicted])
      else s.(stages := s.stages - {c})
    case LookUp(c, found) =>
      if !At(s, c, Conflicted) || !LookupReturns(s.db.updates, s.requests[c], found) then s
      else if found.Some? then Answer(s, c, found.value)
      else s.(stages := s.stages - {c})
    case Fail(c) => s.(stages := s.stages - {c})
  }

  ghost function Run(steps: seq<Step>): State {
    if steps == [] then INITIAL else Next(Run(steps[..|steps| - 1]), steps[|steps| - 1])
  }

  // ---- every run ----

  lemma StepKeeps(s: State, step: Step)
    requires M.Inv(s.db)
    ensures M.Inv(Next(s, step).db)
  {
    hide M.Inv, M.Apply, CreateUpdate, CanCreate, LookupReturns, KeyFree;
    match step
    case Other(op) => M.KeptByStep(s.db, op);
    case Insert(c, p) => M.KeptByCreate(s.db, p);
    case _ =>
  }

  lemma {:induction false} Reachable(steps: seq<Step>)
    ensures M.Inv(Run(steps).db)
  {
    hide M.Inv, Next;
    if steps == [] {
      M.EmptyTablesConsistent();
    } else {
      Reachable(steps[..|steps| - 1]);
      StepKeeps(Run(steps[..|steps| - 1]), steps[|steps| - 1]);
    }
  }

  lemma StepRuns(steps: seq<Step>, k: nat)
    requires k < |steps|
    ensures Run(steps[..k + 1]) == Next(Run(steps[..k]), steps[k])
  {
    hide Next;
    assert steps[..k + 1][..k] == steps[..k];
  }

  // ---- a key once used ----

  predicate Holds(updates: map<UpdateId, Update>, x: UpdateId, r: Request) {
    x in updates && Keyed(updates[x], r.author, r.key)
  }

  lemma WriteKeepsRow(t: Tables, op: M.Op, x: UpdateId, r: Request)
    requires Holds(t.updates, x, r) && !op.EraseAccount?
    ensures Holds(M.Apply(t, op).updates, x, r)
  {
    hide M.ApplyIdentity, M.ApplySocial, M.ApplyCat, M.ApplyUpdate, DeleteAccount, BackfillFollows;
    if M.UpdateOp(op) { UpdateWriteKeepsRow(t, op, x, r); }
  }

  lemma UpdateWriteKeepsRow(t: Tables, op: M.Op, x: UpdateId, r: Request)
    requires Holds(t.updates, x, r) && M.UpdateOp(op)
    ensures Holds(M.ApplyUpdate(t, op).updates, x, r)
  {
    hide CanCreate, CorrectionAccepted, CorrectWhere, DeleteWhere, ValidStatuses, StatusRows, HasStatus;
    if op.Create? { CreateKeepsRow(t, op.newUpdate, x, r); }
  }

  lemma CreateKeepsRow(t: Tables, p: NewUpdate, x: UpdateId, r: Request)
    requires Holds(t.updates, x, r)
    ensures Holds(CreateUpdate(t, p).updates, x, r)
  {
    hide Eligible, ValidStatuses, StatusRows, CatExists;
  }

  /** Of all writes only an account deletion removes the row: its author's, or its cat's owner's. */
  lemma ErasureFreesKeyIff(t: Tables, a: Account, x: UpdateId, r: Request)
    requires UpdateKeysUnique(t.updates) && Holds(t.updates, x, r)
    ensures KeyFree(DeleteAccount(t, a).updates, r.author, Some(r.key)) <==>
            r.author == a.id || Owns(t, a.id, t.updates[x].cat)
    ensures KeyFree(DeleteAccount(t, a).updates, r.author, Some(r.key)) <==> x !in DeleteAccount(t, a).updates
  {
    hide DeleteAccount;
    DeletionErasesUpdates(t, a);
    var after := DeleteAccount(t, a).updates;
    if x in after { assert Keyed(after[x], r.author, r.key); }
  }

  /** Step k is an account deletion that removes row x. */
  ghost predicate RemovedAt(steps: seq<Step>, k: nat, x: UpdateId)
    requires k < |steps|
  {
    && steps[k].Other? && steps[k].op.EraseAccount?
    && x in Run(steps[..k]).db.updates && x !in Run(steps[..k + 1]).db.updates
  }

  lemma StepKeepsRow(s: State, step: Step, x: UpdateId, r: Request)
    requires Holds(s.db.updates, x, r)
    ensures Holds(Next(s, step).db.updates, x, r)
            || (step.Other? && step.op.EraseAccount? && x !in Next(s, step).db.updates)
  {
    hide M.Apply, CreateUpdate, CanCreate, LookupReturns, KeyFree, Keyed;
    match step
    case Other(op) =>
      if !op.EraseAccount? { WriteKeepsRow(s.db, op, x, r); }
      else if x in M.Apply(s.db, op).updates { ErasureKeepsRow(s.db, op, x, r); }
    case Insert(c, p) => CreateKeepsRow(s.db, p, x, r);
    case _ =>
  }

  lemma ErasureKeepsRow(t: Tables, op: M.Op, x: UpdateId, r: Request)
    requires Holds(t.updates, x, r) && op.EraseAccount? && x in M.Apply(t, op).updates
    ensures Holds(M.Apply(t, op).updates, x, r)
  {
    hide DeleteAccount;
    DeletionErasesUpdates(t, op.account);
  }

  /** A keyed row stays until an account deletion removes it. */
  lemma {:induction false} RowKeptOrRemoved(steps: seq<Step>, i: nat, j: nat, x: UpdateId, r: Request)
    requires i <= j <= |steps| && Holds(Run(steps[..i]).db.updates, x, r)
    ensures Holds(Run(steps[..j]).db.updates, x, r) || exists k :: i <= k < j && RemovedAt(steps, k, x)
    decreases j - i
  {
    hide Run, Next;
    if i < j {
      StepRuns(steps, i);
      StepKeepsRow(Run(steps[..i]), steps[i], x, r);
      if Holds(Run(steps[..i + 1]).db.updates, x, r) {
        RowKeptOrRemoved(steps, i + 1, j, x, r);
      } else {
        assert RemovedAt(steps, i, x);
      }
    }
  }

  // ---- answers ----

  /** Running and answered calls are known, and no call is both. */
  ghost predicate CallsSound(s: State) {
    s.stages.Keys <= s.requests.Keys && s.answers.Keys <= s.requests.Keys && s.stages.Keys !! s.answers.Keys
  }

  lemma StepKeepsCalls(s: State, step: Step)
    requires CallsSound(s)
    ensures CallsSound(Next(s, step))
  {
    hide LookupReturns, CanCreate, KeyFree, CreateUpdate, M.Apply;
  }

  lemma {:induction false} CallsStaySound(steps: seq<Step>)
    ensures CallsSound(Run(steps))
  {
    hide Next;
    if steps != [] {
      CallsStaySound(steps[..|steps| - 1]);
      StepKeepsCalls(Run(steps[..|steps| - 1]), steps[|steps| - 1]);
    }
  }

  /** A call gets its answer in one step, and then names a row with its key. */
  lemma StepAnswers(s: State, step: Step, c: CallId)
    requires CallsSound(s) && c in Next(s, step).answers
    ensures var n := Next(s, step);
            if c in s.answers then n.answers[c] == s.answers[c] && n.requests[c] == s.requests[c]
            else Holds(n.db.updates, n.answers[c], n.requests[c])
  {
    hide CanCreate, KeyFree, M.Apply;
    if step.Insert? && c == step.call && CanCreate(s.db, step.post) { RowPosted(s.db, step.post); }
  }

  lemma RowPosted(t: Tables, p: NewUpdate)
    requires CanCreate(t, p)
    ensures p.id in CreateUpdate(t, p).updates && CreateUpdate(t, p).updates[p.id] == NewRow(p)
  {}

  /** The call got its answer in the step before moment i. */
  ghost predicate AnsweredAt(steps: seq<Step>, i: nat, c: CallId) {
    && 0 < i <= |steps|
    && c !in Run(steps[..i - 1]).answers && c in Run(steps[..i]).answers
  }

  /** Every answer was a row with the call's author and key when it was given. */
  lemma {:induction false} AnswerWasRow(steps: seq<Step>, c: CallId) returns (i: nat)
    requires c in Run(steps).answers
    ensures c in Run(steps).requests && AnsweredAt(steps, i, c)
    ensures Holds(Run(steps[..i]).db.updates, Run(steps).answers[c], Run(steps).requests[c])
  {
    hide Next, Keyed;
    CallsStaySound(steps);
    var n := |steps| - 1;
    CallsStaySound(steps[..n]);
    StepAnswers(Run(steps[..n]), steps[n], c);
    if c in Run(steps[..n]).answers {
      i := AnswerWasRow(steps[..n], c);
      assert steps[..n][..i] == steps[..i] && steps[..n][..i - 1] == steps[..i - 1];
    } else {
      i := |steps|;
      assert steps[..i] == steps;
    }
  }

  // ---- the promises ----

  /** Two calls with the same author and key get the same answer, unless an account deletion
      removed the update of the earlier answer before the later one was given. */
  lemma RetriesAgree(steps: seq<Step>, c: CallId, d: CallId) returns (i: nat, j: nat, k: nat)
    requires c in Run(steps).answers && d in Run(steps).answers && c in Run(steps).requests && d in Run(steps).requests
    requires Run(steps).requests[c] == Run(steps).requests[d]
    ensures AnsweredAt(steps, i, c) && AnsweredAt(steps, j, d)
    ensures var x, y := Run(steps).answers[c], Run(steps).answers[d];
            || x == y
            || (i <= k < j && RemovedAt(steps, k, x))
            || (j <= k < i && RemovedAt(steps, k, y))
  {
    hide Run, RemovedAt, AnsweredAt;
    var x, y, r := Run(steps).answers[c], Run(steps).answers[d], Run(steps).requests[c];
    i := AnswerWasRow(steps, c);
    j := AnswerWasRow(steps, d);
    k := 0;
    AnswersInRun(steps, i, c);
    AnswersInRun(steps, j, d);
    if i <= j {
      EarlierAnswerStands(steps, i, j, x, y, r);
      if x != y { k :| i <= k < j && RemovedAt(steps, k, x); }
    } else {
      EarlierAnswerStands(steps, j, i, y, x, r);
      if x != y { k :| j <= k < i && RemovedAt(steps, k, y); }
    }
  }

  lemma AnswersInRun(steps: seq<Step>, i: nat, c: CallId)
    requires AnsweredAt(steps, i, c)
    ensures i <= |steps|
  {
    hide Run;
  }

  lemma EarlierAnswerStands(steps: seq<Step>, i: nat, j: nat, x: UpdateId, y: UpdateId, r: Request)
    requires i <= j <= |steps| && Holds(Run(steps[..i]).db.updates, x, r) && Holds(Run(steps[..j]).db.updates, y, r)
    ensures x == y || exists k :: i <= k < j && RemovedAt(steps, k, x)
  {
    hide Run, RemovedAt, Keyed;
    RowKeptOrRemoved(steps, i, j, x, r);
    Reachable(steps[..j]);
    assert UpdateKeysUnique(Run(steps[..j]).db.updates);
  }

  /** A key is posted at most once at a time, and queued for notification at most once. */
  lemma OneOutboxRowPerKey(steps: seq<Step>, r: Request, o: OutboxId, p: OutboxId)
    requires var t := Run(steps).db;
             && o in t.outbox && Holds(t.updates, t.outbox[o].update, r)
             && p in t.outbox && Holds(t.updates, t.outbox[p].update, r)
    ensures o == p
  {
    hide Run, Keyed;
    Reachable(steps);
    var t := Run(steps).db;
    assert OutboxUnique(t.outbox) && UpdateKeysUnique(t.updates);
  }

  /** A retry after its author deleted the update is still answered with it, and with nothing else. */
  lemma DeletedStillAnswers(t: Tables, k: Deletion, r: Request, found: Option<UpdateId>)
    requires UpdateKeysUnique(t.updates) && Holds(t.updates, k.id, r)
    ensures LookupReturns(DeleteUpdate(t, k).updates, r, found) <==> found == Some(k.id)
  {
    hide DeleteWhere, UpdateKeysUnique, LookupReturns;
    OnlyRowAnswers(t.updates, k.id, t.updates[k.id], r, found);
    assert t.updates[k.id := t.updates[k.id]] == t.updates;
    OnlyRowAnswers(t.updates, k.id, t.updates[k.id].(deletedAt := Some(k.now)), r, found);
  }

  /** A keyed row, rewritten or not, is the only answer to its key. */
  lemma OnlyRowAnswers(updates: map<UpdateId, Update>, id: UpdateId, u: Update, r: Request, found: Option<UpdateId>)
    requires UpdateKeysUnique(updates) && Holds(updates, id, r) && Keyed(u, r.author, r.key)
    ensures LookupReturns(updates[id := u], r, found) <==> found == Some(id)
  {
    hide Keyed;
    var after := updates[id := u];
    assert Holds(after, id, r);
    assert forall x :: Holds(updates, x, r) ==> x == id;
    assert forall x :: Holds(after, x, r) ==> x == id || Holds(updates, x, r);
    if found.Some? {
      assert LookupReturns(after, r, found) <==> Holds(after, found.value, r);
    } else {
      assert id in after && Keyed(after[id], r.author, Some(r.key).value);
    }
  }

  /** A call that lost a race did so at an insert of its own, before moment i, when row x carried its author
      and key; x is still there for the fallback lookup, unless an account deletion removed it since. */
  lemma {:induction false} FallbackFinds(steps: seq<Step>, c: CallId) returns (i: nat, x: UpdateId)
    requires c in Run(steps).stages && Run(steps).stages[c] == Conflicted
    ensures c in Run(steps).requests && 0 < i <= |steps| && steps[i - 1].Insert? && steps[i - 1].call == c
    ensures var r := Run(steps).requests[c];
            && Holds(Run(steps[..i]).db.updates, x, r)
            && (Holds(Run(steps).db.updates, x, r) || exists k :: i <= k < |steps| && RemovedAt(steps, k, x))
  {
    hide Next, RemovedAt, Keyed;
    CallsStaySound(steps);
    var n := |steps| - 1;
    var s, r := Run(steps[..n]), Run(steps).requests[c];
    CallsStaySound(steps[..n]);
    ConflictMeansRow(s, steps[n], c);
    if c in s.stages && s.stages[c] == Conflicted {
      i, x := FallbackFinds(steps[..n], c);
      assert steps[..n][..i] == steps[..i];
    } else {
      i := |steps|;
      assert steps[..i] == steps;
      x :| Holds(Run(steps).db.updates, x, r);
    }
    RowKeptOrRemoved(steps, i, |steps|, x, r);
    assert steps[..|steps|] == steps;
  }

  lemma KeyTaken(updates: map<UpdateId, Update>, x: UpdateId, r: Request)
    requires Holds(updates, x, r)
    ensures !KeyFree(updates, r.author, Some(r.key))
  {
    hide Keyed;
    var u := updates[x];
    assert x in updates && updates[x] == u && Keyed(u, r.author, r.key);
  }

  lemma TakenMeansRow(updates: map<UpdateId, Update>, r: Request)
    ensures KeyFree(updates, r.author, Some(r.key)) || exists x :: Holds(updates, x, r)
  {
    if !KeyFree(updates, r.author, Some(r.key)) {
      var x :| x in updates && Keyed(updates[x], r.author, r.key);
      assert Holds(updates, x, r);
    }
  }

  lemma ConflictMeansRow(s: State, step: Step, c: CallId)
    requires CallsSound(s) && c in Next(s, step).stages && Next(s, step).stages[c] == Conflicted
    ensures c in s.requests && Next(s, step).requests[c] == s.requests[c]
    ensures || (c in s.stages && s.stages[c] == Conflicted)
            || (step.Insert? && step.call == c && exists x :: Holds(Next(s, step).db.updates, x, s.requests[c]))
  {
    hide CanCreate, M.Apply, LookupReturns, CreateUpdate, KeyFree, Keyed;
    if step.Insert? && c == step.call && !(c in s.stages && s.stages[c] == Conflicted) {
      TakenMeansRow(s.db.updates, s.requests[c]);
    }
  }
}
