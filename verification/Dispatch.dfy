/** The notification workers: batches claimed with row locks, fanned out and
    committed or rolled back, interleaved with each other and with every other
    write of the backend. */
module Dispatch {
  import opened Sql
  import opened Schema
  import opened Writes
  import opened AccountDeletion
  import M = Machine

  type WorkerId = int

  /** One row as ClaimNotificationOutboxBatch returns it. */
  datatype Claim = Claim(update: UpdateId, cat: CatId, flagged: bool, author: Option<UserId>, eligible: bool)

  /** A row lock, held until its batch ends; `claimedAt` is the moment of the claim. */
  datatype Lock = Lock(worker: WorkerId, batch: nat, claim: Claim, claimedAt: nat)

  /** A worker's open transaction: its rows, how many are finished, the current
      row's recipients with their push tokens, and when the finished rows' recipients were read. */
  datatype Batch = Batch(id: nat, rows: seq<OutboxId>, next: nat, resolvedAt: Option<nat>,
                         todo: map<DeviceId, Option<string>>,
                         done: map<OutboxId, nat>)

  /** A committed row: what was claimed and when, and when its recipients were read, if they were. */
  datatype Committed = Committed(claim: Claim, claimedAt: nat, readAt: Option<nat>)

  /** An inserted notification, with the outbox row and the moments it came from. */
  datatype Delivery = Delivery(note: Notification, outbox: OutboxId, author: Option<UserId>, claimedAt: nat,
                               resolvedAt: nat)

  datatype Push = Push(device: DeviceId, outbox: OutboxId, batch: nat)

  /** `past` holds the committed tables after every step so far. `pending` holds
      the uncommitted notifications; `evidence` where each committed one came
      from; `marks` which batches committed an outbox row as processed; `commits`
      what was committed. */
  datatype State = State(
    db: Tables, past: seq<Tables>, workers: map<WorkerId, Batch>, batches: nat, locks: map<OutboxId, Lock>,
    pending: map<NotificationId, Delivery>, evidence: map<NotificationId, Delivery>,
    marks: map<OutboxId, seq<nat>>, commits: map<OutboxId, Committed>, aborted: set<nat>, sent: seq<Push>)

  const INITIAL := State(EMPTY, [EMPTY], map[], 0, map[], map[], map[], map[], map[], {}, [])

  datatype Step =
    | Other(op: M.Op)
    | Take(worker: WorkerId, rows: seq<OutboxId>)
    | Resolve(worker: WorkerId)
    | Deliver(worker: WorkerId, device: DeviceId, id: NotificationId, now: Time)
    | Finish(worker: WorkerId)
    | Commit(worker: WorkerId, now: Time)
    | Abort(worker: WorkerId)

  // ---- the statements ----

  function ClaimOf(t: Tables, o: OutboxId): Claim
    requires o in t.outbox && t.outbox[o].update in t.updates
  {
    var row, u := t.outbox[o], t.updates[t.outbox[o].update];
    Claim(row.update, row.cat, u.needsHelp && Live(u), u.author, row.eligible)
  }

  /** One row of ListNeedsHelpRecipientDevices: an unrevoked device of a follower
      who is not the author and does not block the cat's owner. */
  predicate Recipient(t: Tables, d: DeviceId, c: CatId, author: Option<UserId>) {
    && d in t.devices && t.devices[d].revokedAt.None? && c in t.cats
    && exists f :: f in t.follows && f.cat == c && f.user.Some? && t.devices[d].user == f.user
         && Matches(Not3(Eq3(f.user, author))) && !Blocks(t, f.user.value, t.cats[c].owner)
  }

  /** Rows that the claim may return to a worker: unprocessed, joined to their update, not locked by another. */
  predicate Claimable(s: State, o: OutboxId) {
    o in s.db.outbox && s.db.outbox[o].processedAt.None? && s.db.outbox[o].update in s.db.updates && o !in s.locks
  }

  /** The unique index already holds (device, update), here or in this transaction. */
  predicate AlreadyNotified(s: State, w: WorkerId, d: DeviceId, u: UpdateId) {
    || (exists n :: n in s.db.notifications && s.db.notifications[n].device == d && s.db.notifications[n].update == u)
    || (exists n :: n in s.pending && s.pending[n].outbox in s.locks && s.locks[s.pending[n].outbox].worker == w
                    && s.pending[n].note.device == d && s.pending[n].note.update == u)
  }

  /** Another write waits while it would remove a row that an open batch has locked: a claimed outbox row,
      or a row that an uncommitted notification refers to. New outbox ids are fresh. */
  ghost predicate Enabled(s: State, op: M.Op) {
    var t := M.Apply(s.db, op);
    && !op.AddNotification? && !op.Process?
    && (op.Create? ==> op.newUpdate.outboxId !in s.marks)
    && (forall o :: o in s.locks && o in s.db.outbox ==> o in t.outbox)
    && (forall n :: n in s.pending ==>
          s.pending[n].note.device in t.devices && s.pending[n].note.cat in t.cats
          && s.pending[n].note.update in t.updates)
  }

  // ---- the steps ----

  /** The index in `past` of the tables as they are now. */
  function Moment(s: State): nat { if s.past == [] then 0 else |s.past| - 1 }

  function TakeRows(s: State, w: WorkerId, rows: seq<OutboxId>): State {
    s.(workers := s.workers[w := Batch(s.batches, rows, 0, None, map[], map[])], batches := s.batches + 1,
       locks := s.locks + map o | o in rows && Claimable(s, o) :: Lock(w, s.batches, ClaimOf(s.db, o), Moment(s)))
  }

  /** The row the worker is on. */
  predicate OnRow(s: State, w: WorkerId) {
    w in s.workers && s.workers[w].next < |s.workers[w].rows| && s.workers[w].rows[s.workers[w].next] in s.locks
  }

  function Row(s: State, w: WorkerId): OutboxId
    requires OnRow(s, w)
  {
    s.workers[w].rows[s.workers[w].next]
  }

  predicate FansOut(c: Claim) { c.flagged && c.eligible }

  function ResolveRecipients(s: State, w: WorkerId): State
    requires OnRow(s, w)
  {
    var c := s.locks[Row(s, w)].claim;
    s.(workers := s.workers[w := s.workers[w].(
                    resolvedAt := Some(Moment(s)),
                    todo := map d | d in s.db.devices && Recipient(s.db, d, c.cat, c.author) ::
                        s.db.devices[d].pushToken)])
  }

  function DeliverTo(s: State, w: WorkerId, d: DeviceId, id: NotificationId, now: Time): State
    requires OnRow(s, w) && d in s.workers[w].todo && s.workers[w].resolvedAt.Some?
  {
    var o, b := Row(s, w), s.workers[w];
    var l := s.locks[o];
    var rest := s.workers[w := b.(todo := b.todo - {d})];
    if AlreadyNotified(s, w, d, l.claim.update) then s.(workers := rest)
    else if id in s.db.notifications || id in s.pending || id in s.evidence
            || d !in s.db.devices || l.claim.cat !in s.db.cats || l.claim.update !in s.db.updates then s
    else
      s.(workers := rest,
         pending := s.pending[id := Delivery(Notification(d, l.claim.cat, l.claim.update, now), o, l.claim.author,
                                             l.claimedAt, b.resolvedAt.value)],
         sent := if b.todo[d].Some? && b.todo[d].value != "" then s.sent + [Push(d, o, b.id)] else s.sent)
  }

  /** The batch after its current row: the moment of a fan-out is kept with the row. */
  function Finished(s: State, w: WorkerId): Batch
    requires OnRow(s, w)
  {
    var b := s.workers[w];
    b.(next := b.next + 1, resolvedAt := None, todo := map[],
       done := if b.resolvedAt.Some? then b.done[Row(s, w) := b.resolvedAt.value] else b.done)
  }

  predicate Held(s: State, w: WorkerId, o: OutboxId) { o in s.locks && s.locks[o].worker == w }

  function Released(s: State, w: WorkerId): State {
    s.(workers := s.workers - {w},
       locks := map o | o in s.locks && s.locks[o].worker != w :: s.locks[o],
       pending := map n | n in s.pending && !Held(s, w, s.pending[n].outbox) :: s.pending[n])
  }

  function Landed(s: State, w: WorkerId): map<NotificationId, Delivery> {
    map n | n in s.pending && Held(s, w, s.pending[n].outbox) :: s.pending[n]
  }

  function Notes(m: map<NotificationId, Delivery>): map<NotificationId, Notification> { map n | n in m :: m[n].note }

  function Processed(outbox: map<OutboxId, OutboxRow>, locks: map<OutboxId, Lock>, w: WorkerId,
                     now: Time): map<OutboxId, OutboxRow>
  {
    map o | o in outbox ::
      if o in locks && locks[o].worker == w then outbox[o].(processedAt := Some(now)) else outbox[o]
  }

  function Marked(marks: map<OutboxId, seq<nat>>, locks: map<OutboxId, Lock>, w: WorkerId): map<OutboxId, seq<nat>> {
    map o | o in marks.Keys + locks.Keys && (o in marks || locks[o].worker == w) ::
      (if o in marks then marks[o] else []) + (if o in locks && locks[o].worker == w then [locks[o].batch] else [])
  }

  function Settled(s: State, w: WorkerId): map<OutboxId, Committed> {
    map o | o in s.locks && s.locks[o].worker == w ::
      Committed(s.locks[o].claim, s.locks[o].claimedAt,
                if w in s.workers && o in s.workers[w].done then Some(s.workers[w].done[o]) else None)
  }

  function CommitBatch(s: State, w: WorkerId, now: Time): State {
    var landed := Landed(s, w);
    Released(s, w).(
      db := s.db.(notifications := s.db.notifications + Notes(landed),
                  outbox := Processed(s.db.outbox, s.locks, w, now)),
      evidence := s.evidence + landed,
      marks := Marked(s.marks, s.locks, w),
      commits := s.commits + Settled(s, w))
  }

  /** A commit stamps exactly the worker's rows, stores exactly its pending notifications, and writes nothing else. */
  lemma CommitWrites(s: State, w: WorkerId, now: Time)
    ensures var r := CommitBatch(s, w, now).db;
            && r == s.db.(notifications := r.notifications, outbox := r.outbox) && r.outbox.Keys == s.db.outbox.Keys
            && (forall o :: o in r.outbox ==>
                  if Held(s, w, o)
                  then r.outbox[o].processedAt == Some(now)
                       && r.outbox[o].(processedAt := None) == s.db.outbox[o].(processedAt := None)
                  else r.outbox[o] == s.db.outbox[o])
            && (forall n :: n in r.notifications <==>
                  n in s.db.notifications || (n in s.pending && Held(s, w, s.pending[n].outbox)))
            && (forall n :: n in r.notifications ==>
                  if n in s.pending && Held(s, w, s.pending[n].outbox) then r.notifications[n] == s.pending[n].note
                  else r.notifications[n] == s.db.notifications[n])
  {
    hide Marked, Settled;
  }

  ghost function Act(s: State, step: Step): State {
    match step
    case Other(op) => if Enabled(s, op) then s.(db := M.Apply(s.db, op)) else s
    case Take(w, rows) =>
      if w in s.workers || exists o :: o in rows && !Claimable(s, o) then s else TakeRows(s, w, rows)
    case Resolve(w) =>
      if OnRow(s, w) && FansOut(s.locks[Row(s, w)].claim) && s.workers[w].resolvedAt.None? then ResolveRecipients(s, w)
      else s
    case Deliver(w, d, id, now) =>
      if OnRow(s, w) && s.workers[w].resolvedAt.Some? && d in s.workers[w].todo then DeliverTo(s, w, d, id, now) else s
    case Finish(w) =>
      if && OnRow(s, w)
         && (FansOut(s.locks[Row(s, w)].claim) ==> s.workers[w].resolvedAt.Some? && s.workers[w].todo == map[])
      then s.(workers := s.workers[w := Finished(s, w)])
      else s
    case Commit(w, now) =>
      if w in s.workers && s.workers[w].next == |s.workers[w].rows| then CommitBatch(s, w, now) else s
    case Abort(w) => if w in s.workers then Released(s, w).(aborted := s.aborted + {s.workers[w].id}) else s
  }

  ghost function Next(s: State, step: Step): State {
    var r := Act(s, step);
    r.(past := r.past + [r.db])
  }

  ghost function Run(steps: seq<Step>): State {
    if steps == [] then INITIAL else Next(Run(steps[..|steps| - 1]), steps[|steps| - 1])
  }

  // ---- what every step keeps ----

  /** A locked row is unprocessed, as it was claimed, and belongs to an open batch. */
  ghost predicate LocksSound(outbox: map<OutboxId, OutboxRow>, locks: map<OutboxId, Lock>,
                             workers: map<WorkerId, Batch>)
  {
    forall o :: o in locks ==>
      && o in outbox && outbox[o].processedAt.None?
      && outbox[o].update == locks[o].claim.update && outbox[o].cat == locks[o].claim.cat
      && locks[o].worker in workers && workers[locks[o].worker].id == locks[o].batch
      && o in workers[locks[o].worker].rows
  }

  ghost predicate RowsLocked(workers: map<WorkerId, Batch>, locks: map<OutboxId, Lock>) {
    forall w, o :: w in workers && o in workers[w].rows ==> o in locks && locks[o].worker == w
  }

  ghost predicate BatchesNumbered(workers: map<WorkerId, Batch>, batches: nat, aborted: set<nat>) {
    && (forall w :: w in workers ==> workers[w].id < batches && workers[w].id !in aborted)
    && (forall w, v :: w in workers && v in workers && workers[w].id == workers[v].id ==> w == v)
    && (forall b :: b in aborted ==> b < batches)
  }

  /** A marked row was marked once, and is processed if it still exists. */
  ghost predicate MarksSound(outbox: map<OutboxId, OutboxRow>, marks: map<OutboxId, seq<nat>>, batches: nat) {
    forall o :: o in marks ==> |marks[o]| == 1 && marks[o][0] < batches && (o in outbox ==> outbox[o].processedAt.Some?)
  }

  /** The claim is what the tables said at its moment. */
  ghost predicate ClaimTrue(past: seq<Tables>, o: OutboxId, l: Lock) { ClaimedAs(past, o, l.claim, l.claimedAt) }

  ghost predicate ClaimedAs(past: seq<Tables>, o: OutboxId, c: Claim, moment: nat) {
    && moment < |past| && o in past[moment].outbox && past[moment].outbox[o].update in past[moment].updates
    && ClaimOf(past[moment], o) == c
  }

  ghost predicate ClaimsTrue(past: seq<Tables>, locks: map<OutboxId, Lock>) {
    forall o :: o in locks ==> ClaimTrue(past, o, locks[o])
  }

  /** What a delivered notification owes: its outbox row was frozen as eligible
      and its update still flagged and undeleted when claimed, and its device was
      an unrevoked device of a follower (not the author, not blocking the owner)
      when the recipients were read. */
  ghost predicate Justified(past: seq<Tables>, p: Delivery) {
    && p.claimedAt <= p.resolvedAt < |past|
    && var t := past[p.claimedAt];
    && p.outbox in t.outbox && t.outbox[p.outbox].eligible && t.outbox[p.outbox].update == p.note.update
    && p.note.update in t.updates && t.updates[p.note.update].needsHelp && Live(t.updates[p.note.update])
    && p.note.cat == t.outbox[p.outbox].cat && p.author == t.updates[p.note.update].author
    && Recipient(past[p.resolvedAt], p.note.device, p.note.cat, p.author)
  }

  /** Recipients still to be served were recipients when the worker read them. */
  ghost predicate TodoTrue(past: seq<Tables>, locks: map<OutboxId, Lock>, b: Batch) {
    b.resolvedAt.Some? ==>
      && b.next < |b.rows| && b.rows[b.next] in locks && FansOut(locks[b.rows[b.next]].claim)
      && locks[b.rows[b.next]].claimedAt <= b.resolvedAt.value < |past|
      && forall d :: d in b.todo ==>
         && Recipient(past[b.resolvedAt.value], d, locks[b.rows[b.next]].claim.cat, locks[b.rows[b.next]].claim.author)
         && d in past[b.resolvedAt.value].devices
         && b.todo[d] == past[b.resolvedAt.value].devices[d].pushToken
  }

  ghost predicate TodosTrue(past: seq<Tables>, locks: map<OutboxId, Lock>, workers: map<WorkerId, Batch>) {
    forall w :: w in workers ==> TodoTrue(past, locks, workers[w])
  }

  /** An uncommitted notification comes from a locked row and is justified. */
  ghost predicate PendingSound(past: seq<Tables>, outbox: map<OutboxId, OutboxRow>, locks: map<OutboxId, Lock>,
                               pending: map<NotificationId, Delivery>)
  {
    forall n :: n in pending ==>
      && pending[n].outbox in locks && pending[n].outbox in outbox
      && outbox[pending[n].outbox].update == pending[n].note.update
      && outbox[pending[n].outbox].cat == pending[n].note.cat
      && Justified(past, pending[n])
  }

  /** No two notifications, committed or not, share a device and update. */
  ghost predicate PendingUnique(notifications: map<NotificationId, Notification>,
                                pending: map<NotificationId, Delivery>)
  {
    && (forall n, m :: n in pending && m in notifications ==>
          n != m && !(pending[n].note.device == notifications[m].device
              && pending[n].note.update == notifications[m].update))
    && (forall n, m ::
          (n in pending && m in pending && pending[n].note.device == pending[m].note.device
           && pending[n].note.update == pending[m].note.update) ==> n == m)
  }

  ghost predicate PendingRefers(devices: set<DeviceId>, cats: set<CatId>, updates: set<UpdateId>,
                                pending: map<NotificationId, Delivery>)
  {
    forall n :: n in pending ==>
        pending[n].note.device in devices && pending[n].note.cat in cats && pending[n].note.update in updates
  }

  ghost predicate EvidenceSound(past: seq<Tables>, notifications: map<NotificationId, Notification>,
                                evidence: map<NotificationId, Delivery>,
                                pending: map<NotificationId, Delivery>)
  {
    && (forall n :: n in notifications ==> n in evidence && evidence[n].note == notifications[n])
    && (forall n :: n in evidence ==> Justified(past, evidence[n]) && n !in pending)
  }

  predicate Pushed(pending: map<NotificationId, Delivery>, d: DeviceId, o: OutboxId) {
    exists n :: n in pending && pending[n].outbox == o && pending[n].note.device == d
  }

  /** A push belongs to an aborted batch, to the batch that committed its row, or to an open batch
      that also inserted it. */
  predicate PushSound(x: Push, batches: nat, aborted: set<nat>, marks: map<OutboxId, seq<nat>>,
                      locks: map<OutboxId, Lock>,
                      pending: map<NotificationId, Delivery>)
  {
    && x.batch < batches
    && (|| x.batch in aborted
        || (x.outbox in marks && marks[x.outbox] == [x.batch])
        || (x.outbox in locks && locks[x.outbox].batch == x.batch && Pushed(pending, x.device, x.outbox)))
  }

  ghost predicate SentSound(sent: seq<Push>, batches: nat, aborted: set<nat>, marks: map<OutboxId, seq<nat>>,
                            locks: map<OutboxId, Lock>,
                            pending: map<NotificationId, Delivery>)
  {
    forall x :: x in sent ==> PushSound(x, batches, aborted, marks, locks, pending)
  }

  ghost predicate SentOnce(sent: seq<Push>) {
    forall i, j :: 0 <= i < j < |sent| ==> sent[i] != sent[j]
  }

  ghost predicate Protocol(s: State) {
    && LocksSound(s.db.outbox, s.locks, s.workers) && RowsLocked(s.workers, s.locks)
    && BatchesNumbered(s.workers, s.batches, s.aborted)
    && MarksSound(s.db.outbox, s.marks, s.batches)
  }

  ghost predicate Delivered(s: State) {
    && ClaimsTrue(s.past, s.locks) && TodosTrue(s.past, s.locks, s.workers)
    && PendingSound(s.past, s.db.outbox, s.locks, s.pending) && PendingUnique(s.db.notifications, s.pending)
    && PendingRefers(s.db.devices.Keys, s.db.cats.Keys, s.db.updates.Keys, s.pending)
    && EvidenceSound(s.past, s.db.notifications, s.evidence, s.pending)
  }

  ghost predicate Inv(s: State) {
    && s.past != [] && s.past[|s.past| - 1] == s.db
    && M.Inv(s.db) && Protocol(s) && Delivered(s)
    && SentSound(s.sent, s.batches, s.aborted, s.marks, s.locks, s.pending) && SentOnce(s.sent)
  }

  /** All but that `past` ends with the current tables. */
  ghost predicate Acted(s: State) {
    s.past != [] && M.Inv(s.db) && Protocol(s) && Delivered(s)
    && SentSound(s.sent, s.batches, s.aborted, s.marks, s.locks, s.pending) && SentOnce(s.sent)
  }

  // ---- recording the new tables ----

  lemma JustifiedStays(past: seq<Tables>, t: Tables, p: Delivery)
    requires Justified(past, p)
    ensures Justified(past + [t], p)
  {
    assert (past + [t])[p.claimedAt] == past[p.claimedAt] && (past + [t])[p.resolvedAt] == past[p.resolvedAt];
    hide Recipient;
  }

  lemma ClaimStays(past: seq<Tables>, t: Tables, o: OutboxId, l: Lock)
    requires ClaimTrue(past, o, l)
    ensures ClaimTrue(past + [t], o, l)
  {}

  lemma TodoStays(past: seq<Tables>, t: Tables, locks: map<OutboxId, Lock>, b: Batch)
    requires TodoTrue(past, locks, b)
    ensures TodoTrue(past + [t], locks, b)
  {
    hide Recipient;
  }

  lemma RecordKeepsDelivered(s: State, t: Tables)
    requires Delivered(s)
    ensures Delivered(s.(past := s.past + [t]))
  {
    hide PendingUnique, PendingRefers, Justified, ClaimTrue, TodoTrue;
    var past := s.past + [t];
    forall n | n in s.pending ensures Justified(past, s.pending[n]) { JustifiedStays(s.past, t, s.pending[n]); }
    forall n | n in s.evidence ensures Justified(past, s.evidence[n]) { JustifiedStays(s.past, t, s.evidence[n]); }
    forall o | o in s.locks ensures ClaimTrue(past, o, s.locks[o]) { ClaimStays(s.past, t, o, s.locks[o]); }
    forall w | w in s.workers
      ensures TodoTrue(past, s.locks, s.workers[w])
    {
      TodoStays(s.past, t, s.locks, s.workers[w]);
    }
  }

  lemma RecordKeeps(s: State)
    requires Acted(s)
    ensures Inv(s.(past := s.past + [s.db]))
  {
    hide M.Inv, LocksSound, RowsLocked, BatchesNumbered, MarksSound, Delivered, SentSound, SentOnce;
    RecordKeepsDelivered(s, s.db);
  }

  // ---- other writes ----

  lemma OutboxUntouched(t: Tables, op: M.Op)
    requires !op.Process? && !op.Create? && !op.EraseAccount?
    ensures M.Apply(t, op).outbox == t.outbox
  {
    hide M.ApplyIdentity, M.ApplySocial, M.ApplyCat, M.ApplyUpdate, DeleteAccount, BackfillFollows, BackfillAuthors;
  }

  lemma NotificationsUntouched(t: Tables, op: M.Op)
    requires !op.AddNotification? && !op.EraseAccount?
    ensures M.Apply(t, op).notifications == t.notifications
  {
    hide M.ApplyIdentity, M.ApplySocial, M.ApplyCat, M.ApplyUpdate, DeleteAccount, BackfillFollows, BackfillAuthors;
  }

  lemma NewUpdateOutbox(t: Tables, p: NewUpdate, o: OutboxId)
    requires o in CreateUpdate(t, p).outbox
    ensures (o in t.outbox && CreateUpdate(t, p).outbox[o] == t.outbox[o]) || (o !in t.outbox && o == p.outboxId)
  {
    hide Eligible, ValidStatuses, StatusRows, CatExists;
  }

  lemma CreateIsApplied(t: Tables, op: M.Op)
    requires op.Create?
    ensures M.Apply(t, op) == CreateUpdate(t, op.newUpdate)
  {
    hide CreateUpdate;
  }

  lemma ErasureIsApplied(t: Tables, op: M.Op)
    requires op.EraseAccount?
    ensures M.Apply(t, op) == DeleteAccount(t, op.account)
  {
    hide DeleteAccount;
  }

  lemma OtherOutbox(t: Tables, op: M.Op, o: OutboxId)
    requires !op.Process? && o in M.Apply(t, op).outbox
    ensures (o in t.outbox && M.Apply(t, op).outbox[o] == t.outbox[o])
            || (o !in t.outbox && op.Create? && o == op.newUpdate.outboxId)
  {
    hide M.Apply, DeleteAccount, CreateUpdate;
    if op.EraseAccount? {
      ErasureIsApplied(t, op);
      DeletionErasesOutbox(t, op.account);
    } else if op.Create? {
      CreateIsApplied(t, op);
      NewUpdateOutbox(t, op.newUpdate, o);
    } else {
      OutboxUntouched(t, op);
    }
  }

  lemma OtherNotifications(t: Tables, op: M.Op, n: NotificationId)
    requires !op.AddNotification? && n in M.Apply(t, op).notifications
    ensures n in t.notifications && M.Apply(t, op).notifications[n] == t.notifications[n]
  {
    hide M.Apply, DeleteAccount;
    if op.EraseAccount? {
      ErasureIsApplied(t, op);
      DeletionErasesNotifications(t, op.account);
    } else {
      NotificationsUntouched(t, op);
    }
  }

  /** t is what another, unblocked write made of the tables, as far as the workers can tell. */
  ghost predicate Undisturbed(s: State, t: Tables) {
    && (forall o :: o in t.outbox ==> (o in s.db.outbox && t.outbox[o] == s.db.outbox[o]) || o !in s.marks)
    && (forall o :: o in s.locks && o in s.db.outbox ==> o in t.outbox && t.outbox[o] == s.db.outbox[o])
    && (forall n :: n in t.notifications ==> n in s.db.notifications && t.notifications[n] == s.db.notifications[n])
    && PendingRefers(t.devices.Keys, t.cats.Keys, t.updates.Keys, s.pending)
  }

  lemma OtherUndisturbed(s: State, op: M.Op)
    requires LocksSound(s.db.outbox, s.locks, s.workers) && MarksSound(s.db.outbox, s.marks, s.batches)
             && Enabled(s, op)
    ensures Undisturbed(s, M.Apply(s.db, op))
  {
    hide M.Apply;
    var t := M.Apply(s.db, op);
    forall o | o in t.outbox
      ensures (o in s.db.outbox && t.outbox[o] == s.db.outbox[o]) || o !in s.marks
    {
      OtherOutbox(s.db, op, o);
    }
    forall o | o in s.locks && o in s.db.outbox
      ensures o in t.outbox && t.outbox[o] == s.db.outbox[o]
    {
      OtherOutbox(s.db, op, o);
    }
    forall n | n in t.notifications
      ensures n in s.db.notifications && t.notifications[n] == s.db.notifications[n]
    {
      OtherNotifications(s.db, op, n);
    }
  }

  lemma UndisturbedProtocol(s: State, t: Tables)
    requires Protocol(s) && Undisturbed(s, t)
    ensures Protocol(s.(db := t))
  {
    hide RowsLocked, BatchesNumbered;
  }

  lemma UndisturbedDelivered(s: State, t: Tables)
    requires Protocol(s) && Delivered(s) && Undisturbed(s, t)
    ensures Delivered(s.(db := t))
  {
    hide RowsLocked, BatchesNumbered, MarksSound, ClaimsTrue, TodosTrue, Justified;
  }

  lemma OtherKeeps(s: State, op: M.Op)
    requires Inv(s) && Enabled(s, op)
    ensures Acted(s.(db := M.Apply(s.db, op)))
  {
    hide M.Inv, M.Apply, SentSound, SentOnce, Enabled, Undisturbed, Delivered;
    M.KeptByStep(s.db, op);
    OtherUndisturbed(s, op);
    UndisturbedProtocol(s, M.Apply(s.db, op));
    UndisturbedDelivered(s, M.Apply(s.db, op));
    hide Protocol;
  }

  // ---- claiming and resolving ----

  lemma TakeKeepsLocks(s: State, w: WorkerId, rows: seq<OutboxId>)
    requires LocksSound(s.db.outbox, s.locks, s.workers) && w !in s.workers && forall o :: o in rows ==> Claimable(s, o)
    ensures LocksSound(s.db.outbox, TakeRows(s, w, rows).locks, TakeRows(s, w, rows).workers)
  {}

  lemma TakeKeepsRows(s: State, w: WorkerId, rows: seq<OutboxId>)
    requires RowsLocked(s.workers, s.locks) && w !in s.workers && forall o :: o in rows ==> Claimable(s, o)
    ensures RowsLocked(TakeRows(s, w, rows).workers, TakeRows(s, w, rows).locks)
  {
    hide ClaimOf;
  }

  lemma TakeKeepsProtocol(s: State, w: WorkerId, rows: seq<OutboxId>)
    requires Protocol(s) && w !in s.workers && forall o :: o in rows ==> Claimable(s, o)
    ensures Protocol(TakeRows(s, w, rows))
  {
    hide LocksSound, RowsLocked, Claimable, ClaimOf;
    TakeKeepsLocks(s, w, rows);
    TakeKeepsRows(s, w, rows);
  }

  lemma TakeKeepsClaims(s: State, w: WorkerId, rows: seq<OutboxId>)
    requires s.past != [] && s.past[|s.past| - 1] == s.db && ClaimsTrue(s.past, s.locks)
    requires forall o :: o in rows ==> Claimable(s, o)
    ensures ClaimsTrue(s.past, TakeRows(s, w, rows).locks)
  {}

  lemma TakeKeepsTodos(s: State, w: WorkerId, rows: seq<OutboxId>)
    requires TodosTrue(s.past, s.locks, s.workers) && forall o :: o in rows ==> Claimable(s, o)
    ensures TodosTrue(s.past, TakeRows(s, w, rows).locks, TakeRows(s, w, rows).workers)
  {
    hide Recipient;
  }

  lemma TakeKeepsPending(s: State, w: WorkerId, rows: seq<OutboxId>)
    requires PendingSound(s.past, s.db.outbox, s.locks, s.pending)
    ensures PendingSound(s.past, s.db.outbox, TakeRows(s, w, rows).locks, s.pending)
  {
    hide Justified;
  }

  lemma TakeKeepsDelivered(s: State, w: WorkerId, rows: seq<OutboxId>)
    requires Inv(s) && w !in s.workers && forall o :: o in rows ==> Claimable(s, o)
    ensures Delivered(TakeRows(s, w, rows))
  {
    hide M.Inv, Protocol, ClaimsTrue, TodosTrue, PendingSound, PendingUnique, PendingRefers, EvidenceSound, SentSound;
    TakeKeepsClaims(s, w, rows);
    TakeKeepsTodos(s, w, rows);
    TakeKeepsPending(s, w, rows);
  }

  lemma MoreLocksKeepSent(s: State, locks: map<OutboxId, Lock>, batches: nat)
    requires SentSound(s.sent, s.batches, s.aborted, s.marks, s.locks, s.pending) && batches >= s.batches
    requires forall o :: o in s.locks ==> o in locks && locks[o] == s.locks[o]
    ensures SentSound(s.sent, batches, s.aborted, s.marks, locks, s.pending)
  {
    hide Pushed;
  }

  lemma TakeKeeps(s: State, w: WorkerId, rows: seq<OutboxId>)
    requires Inv(s) && w !in s.workers && forall o :: o in rows ==> Claimable(s, o)
    ensures Acted(TakeRows(s, w, rows))
  {
    hide M.Inv, Protocol, Delivered, SentSound, SentOnce;
    var r := TakeRows(s, w, rows);
    TakeKeepsProtocol(s, w, rows);
    TakeKeepsDelivered(s, w, rows);
    MoreLocksKeepSent(s, r.locks, r.batches);
  }

  /** A batch that only moves on: same number, same rows. */
  lemma ProgressKeepsProtocol(s: State, w: WorkerId, b: Batch)
    requires Protocol(s) && w in s.workers && b.id == s.workers[w].id && b.rows == s.workers[w].rows
    ensures Protocol(s.(workers := s.workers[w := b]))
  {
    hide MarksSound;
  }

  lemma ProgressKeeps(s: State, w: WorkerId, b: Batch)
    requires Inv(s) && w in s.workers && b.id == s.workers[w].id && b.rows == s.workers[w].rows
             && TodoTrue(s.past, s.locks, b)
    ensures Acted(s.(workers := s.workers[w := b]))
  {
    ProgressKeepsProtocol(s, w, b);
    hide M.Inv, Protocol, ClaimsTrue, PendingSound, PendingUnique, PendingRefers, EvidenceSound, SentSound, SentOnce,
      TodoTrue;
  }

  lemma ResolvedTrue(s: State, w: WorkerId)
    requires Inv(s) && OnRow(s, w) && FansOut(s.locks[Row(s, w)].claim)
    ensures TodoTrue(s.past, s.locks, ResolveRecipients(s, w).workers[w])
  {
    hide M.Inv, Recipient, Protocol, PendingSound, EvidenceSound, TodosTrue, SentSound, SentOnce;
  }

  lemma ResolveKeeps(s: State, w: WorkerId)
    requires Inv(s) && OnRow(s, w) && FansOut(s.locks[Row(s, w)].claim)
    ensures Acted(ResolveRecipients(s, w))
  {
    ResolvedTrue(s, w);
    ProgressKeeps(s, w, ResolveRecipients(s, w).workers[w]);
  }

  lemma FinishKeeps(s: State, w: WorkerId)
    requires Inv(s) && OnRow(s, w)
    ensures Acted(s.(workers := s.workers[w := Finished(s, w)]))
  {
    ProgressKeeps(s, w, Finished(s, w));
  }

  // ---- delivering ----

  /** Without a duplicate in the index or in its own transaction, the worker's row has no duplicate anywhere:
      no other open batch works on the same update. */
  lemma NoOtherBatchNotifies(s: State, w: WorkerId, d: DeviceId, n: NotificationId)
    requires Inv(s) && OnRow(s, w) && RowsLocked(s.workers, s.locks)
    requires !AlreadyNotified(s, w, d, s.locks[Row(s, w)].claim.update) && n in s.pending
    ensures !(s.pending[n].note.device == d && s.pending[n].note.update == s.locks[Row(s, w)].claim.update)
  {
    hide M.WellFormed, Referential, Attributed, Justified, TodosTrue, SentSound, SentOnce, EvidenceSound, PendingUnique;
    var o, other := Row(s, w), s.pending[n].outbox;
    assert o in s.workers[w].rows;
    assert s.db.outbox[o].update == s.locks[o].claim.update && s.db.outbox[other].update == s.pending[n].note.update;
    assert OutboxUnique(s.db.outbox);
  }

  lemma DeliveryJustified(s: State, w: WorkerId, d: DeviceId, now: Time)
    requires Inv(s) && OnRow(s, w) && s.workers[w].resolvedAt.Some? && d in s.workers[w].todo
    ensures var l := s.locks[Row(s, w)];
            Justified(s.past, Delivery(Notification(d, l.claim.cat, l.claim.update, now), Row(s, w), l.claim.author,
                l.claimedAt, s.workers[w].resolvedAt.value))
  {
    hide M.Inv, Protocol, PendingSound, PendingUnique, PendingRefers, EvidenceSound, SentSound, SentOnce, Recipient;
    assert ClaimTrue(s.past, Row(s, w), s.locks[Row(s, w)]);
    assert TodoTrue(s.past, s.locks, s.workers[w]);
  }

  /** The inserted notification is the only one for its device and update. */
  lemma InsertKeepsDelivered(s: State, w: WorkerId, d: DeviceId, id: NotificationId, p: Delivery)
    requires Inv(s) && OnRow(s, w) && !AlreadyNotified(s, w, d, s.locks[Row(s, w)].claim.update)
    requires p.outbox == Row(s, w) && p.note.device == d && p.note.update == s.locks[p.outbox].claim.update
             && p.note.cat == s.locks[p.outbox].claim.cat
    requires Justified(s.past, p) && d in s.db.devices && p.note.cat in s.db.cats && p.note.update in s.db.updates
    requires id !in s.db.notifications && id !in s.pending && id !in s.evidence
    ensures Delivered(s.(pending := s.pending[id := p]))
  {
    hide M.Inv, Justified, ClaimsTrue, TodosTrue, RowsLocked, BatchesNumbered, MarksSound, SentSound, SentOnce;
    forall n | n in s.pending ensures !(s.pending[n].note.device == d && s.pending[n].note.update == p.note.update) {
      NoOtherBatchNotifies(s, w, d, n);
    }
  }

  lemma NewPushIsNew(s: State, w: WorkerId, d: DeviceId)
    requires Inv(s) && OnRow(s, w) && !AlreadyNotified(s, w, d, s.locks[Row(s, w)].claim.update)
    ensures Push(d, Row(s, w), s.workers[w].id) !in s.sent
  {
    hide M.Inv, Justified, ClaimsTrue, TodosTrue, EvidenceSound, PendingUnique, PendingRefers, SentOnce;
    var x := Push(d, Row(s, w), s.workers[w].id);
    assert x.outbox in s.workers[w].rows;
    assert x in s.sent ==> PushSound(x, s.batches, s.aborted, s.marks, s.locks, s.pending);
  }

  lemma InsertKeepsSent(s: State, w: WorkerId, d: DeviceId, id: NotificationId, p: Delivery, push: bool)
    requires Inv(s) && OnRow(s, w) && !AlreadyNotified(s, w, d, s.locks[Row(s, w)].claim.update)
    requires p.outbox == Row(s, w) && p.note.device == d && id !in s.pending
    ensures var sent, pending := if push then s.sent + [Push(d, p.outbox, s.workers[w].id)]
                                 else s.sent, s.pending[id := p];
            SentSound(sent, s.batches, s.aborted, s.marks, s.locks, pending) && SentOnce(sent)
  {
    hide M.Inv, Delivered, MarksSound, AlreadyNotified;
    NewPushIsNew(s, w, d);
    var pending := s.pending[id := p];
    assert pending[id] == p && Pushed(pending, d, p.outbox);
    forall x | x in s.sent ensures PushSound(x, s.batches, s.aborted, s.marks, s.locks, pending) {
      if Pushed(s.pending, x.device, x.outbox) {
        var n :| n in s.pending && s.pending[n].outbox == x.outbox && s.pending[n].note.device == x.device;
        assert n in pending && pending[n] == s.pending[n];
      }
    }
    assert p.outbox in s.workers[w].rows;
  }

  lemma ServedTodoTrue(past: seq<Tables>, locks: map<OutboxId, Lock>, b: Batch, d: DeviceId)
    requires TodoTrue(past, locks, b)
    ensures TodoTrue(past, locks, b.(todo := b.todo - {d}))
  {
    hide Recipient;
  }

  /** The workers and the pending notifications change independently. */
  lemma ChangesCombine(s: State, workers: map<WorkerId, Batch>, pending: map<NotificationId, Delivery>, sent: seq<Push>)
    requires Acted(s.(workers := workers)) && Delivered(s.(pending := pending))
    requires SentSound(sent, s.batches, s.aborted, s.marks, s.locks, pending) && SentOnce(sent)
    ensures Acted(s.(workers := workers, pending := pending, sent := sent))
  {
    hide M.Inv, LocksSound, RowsLocked, BatchesNumbered, MarksSound, SentSound, SentOnce;
    hide ClaimsTrue, TodosTrue, PendingSound, PendingUnique, PendingRefers, EvidenceSound;
  }

  lemma InsertKeeps(s: State, w: WorkerId, d: DeviceId, id: NotificationId, now: Time)
    requires Inv(s) && OnRow(s, w) && s.workers[w].resolvedAt.Some? && d in s.workers[w].todo
    requires Acted(s.(workers := s.workers[w := s.workers[w].(todo := s.workers[w].todo - {d})]))
    requires DeliverTo(s, w, d, id, now).pending != s.pending
    ensures Acted(DeliverTo(s, w, d, id, now))
  {
    hide Inv, Acted, Delivered, SentSound, SentOnce, AlreadyNotified, Justified;
    var b, l := s.workers[w], s.locks[Row(s, w)];
    var p := Delivery(Notification(d, l.claim.cat, l.claim.update, now), Row(s, w), l.claim.author, l.claimedAt,
                      b.resolvedAt.value);
    var push := b.todo[d].Some? && b.todo[d].value != "";
    DeliveryJustified(s, w, d, now);
    InsertKeepsDelivered(s, w, d, id, p);
    InsertKeepsSent(s, w, d, id, p, push);
    ChangesCombine(s, s.workers[w := b.(todo := b.todo - {d})], s.pending[id := p],
                   if push then s.sent + [Push(d, p.outbox, b.id)] else s.sent);
  }

  lemma BatchTodoTrue(s: State, w: WorkerId)
    requires Inv(s) && w in s.workers
    ensures TodoTrue(s.past, s.locks, s.workers[w])
  {
    hide M.Inv, Protocol, TodoTrue, ClaimsTrue, PendingSound, PendingUnique, PendingRefers, EvidenceSound, SentSound;
  }

  lemma DeliverKeeps(s: State, w: WorkerId, d: DeviceId, id: NotificationId, now: Time)
    requires Inv(s) && OnRow(s, w) && s.workers[w].resolvedAt.Some? && d in s.workers[w].todo
    ensures Acted(DeliverTo(s, w, d, id, now))
  {
    hide Inv, Acted, TodoTrue, AlreadyNotified;
    var r, b := DeliverTo(s, w, d, id, now), s.workers[w];
    BatchTodoTrue(s, w);
    ServedTodoTrue(s.past, s.locks, b, d);
    ProgressKeeps(s, w, b.(todo := b.todo - {d}));
    InvActed(s);
    if r.pending != s.pending { InsertKeeps(s, w, d, id, now); }
  }

  // ---- ending a batch ----

  lemma ReleasedRows(s: State, w: WorkerId)
    requires Protocol(s)
    ensures LocksSound(s.db.outbox, Released(s, w).locks, Released(s, w).workers)
            && RowsLocked(Released(s, w).workers, Released(s, w).locks)
  {
    hide MarksSound, BatchesNumbered;
  }

  lemma TodoStillTrue(past: seq<Tables>, locks: map<OutboxId, Lock>, fewer: map<OutboxId, Lock>, b: Batch)
    requires TodoTrue(past, locks, b) && forall o :: o in b.rows ==> o in fewer && o in locks && fewer[o] == locks[o]
    ensures TodoTrue(past, fewer, b)
  {
    hide Recipient;
    if b.resolvedAt.Some? {
      var o := b.rows[b.next];
      assert o in b.rows;
      assert fewer[o] == locks[o];
    }
  }

  lemma ReleasedPending(s: State, w: WorkerId)
    requires Delivered(s)
    ensures var r := Released(s, w);
            && PendingSound(r.past, r.db.outbox, r.locks, r.pending) && PendingUnique(r.db.notifications, r.pending)
            && PendingRefers(r.db.devices.Keys, r.db.cats.Keys, r.db.updates.Keys, r.pending)
            && EvidenceSound(r.past, r.db.notifications, r.evidence, r.pending)
  {
    hide Justified, ClaimsTrue, TodosTrue;
  }

  lemma ReleasedClaims(s: State, w: WorkerId)
    requires RowsLocked(s.workers, s.locks) && ClaimsTrue(s.past, s.locks) && TodosTrue(s.past, s.locks, s.workers)
    ensures var r := Released(s, w); ClaimsTrue(r.past, r.locks) && TodosTrue(r.past, r.locks, r.workers)
  {
    hide ClaimTrue, TodoTrue;
    var r := Released(s, w);
    forall v | v in r.workers ensures TodoTrue(r.past, r.locks, r.workers[v]) {
      TodoStillTrue(s.past, s.locks, r.locks, s.workers[v]);
    }
  }

  lemma ReleasedDelivered(s: State, w: WorkerId)
    requires Protocol(s) && Delivered(s)
    ensures Delivered(Released(s, w))
  {
    hide LocksSound, BatchesNumbered, MarksSound, ClaimsTrue, TodosTrue, PendingSound, PendingUnique, PendingRefers,
      EvidenceSound, Released;
    ReleasedPending(s, w);
    ReleasedClaims(s, w);
  }

  lemma AbortKeepsSent(s: State, w: WorkerId)
    requires Inv(s) && w in s.workers
    ensures var r := Released(s, w);
            SentSound(s.sent, s.batches, s.aborted + {s.workers[w].id}, s.marks, r.locks, r.pending)
  {
    hide M.Inv, Delivered, SentOnce, MarksSound, RowsLocked;
    var r, aborted := Released(s, w), s.aborted + {s.workers[w].id};
    forall x | x in s.sent ensures PushSound(x, s.batches, aborted, s.marks, r.locks, r.pending) {
      assert PushSound(x, s.batches, s.aborted, s.marks, s.locks, s.pending);
      if Pushed(s.pending, x.device, x.outbox) && !Held(s, w, x.outbox) {
        var n :| n in s.pending && s.pending[n].outbox == x.outbox && s.pending[n].note.device == x.device;
        assert n in r.pending && r.pending[n] == s.pending[n];
      }
    }
  }

  lemma AbortKeeps(s: State, w: WorkerId)
    requires Inv(s) && w in s.workers
    ensures Acted(Released(s, w).(aborted := s.aborted + {s.workers[w].id}))
  {
    ReleasedRows(s, w);
    ReleasedDelivered(s, w);
    AbortKeepsSent(s, w);
    hide M.Inv, SentSound, SentOnce, LocksSound, RowsLocked, MarksSound, ClaimsTrue, TodosTrue, PendingSound,
      PendingUnique, PendingRefers, EvidenceSound;
  }

  lemma CommitKeepsProtocol(s: State, w: WorkerId, now: Time)
    requires Protocol(s) && w in s.workers
    ensures Protocol(CommitBatch(s, w, now))
  {
    ReleasedRows(s, w);
    var r := CommitBatch(s, w, now);
    assert LocksSound(r.db.outbox, r.locks, r.workers);
    assert MarksSound(r.db.outbox, r.marks, r.batches);
  }

  lemma CommitKeepsUnique(s: State, w: WorkerId)
    requires PendingUnique(s.db.notifications, s.pending)
    ensures PendingUnique(s.db.notifications + Notes(Landed(s, w)), Released(s, w).pending)
  {}

  lemma CommitKeepsEvidence(s: State, w: WorkerId)
    requires EvidenceSound(s.past, s.db.notifications, s.evidence, s.pending)
             && PendingSound(s.past, s.db.outbox, s.locks, s.pending)
    ensures EvidenceSound(s.past, s.db.notifications + Notes(Landed(s, w)), s.evidence + Landed(s, w),
                          Released(s, w).pending)
  {
    hide Justified;
  }

  lemma CommitKeepsPending(s: State, w: WorkerId, now: Time)
    requires PendingSound(s.past, s.db.outbox, s.locks, s.pending)
    ensures PendingSound(s.past, Processed(s.db.outbox, s.locks, w, now), Released(s, w).locks, Released(s, w).pending)
  {
    hide Justified;
  }

  lemma CommitKeepsDelivered(s: State, w: WorkerId, now: Time)
    requires Protocol(s) && Delivered(s)
    ensures Delivered(CommitBatch(s, w, now))
  {
    ReleasedDelivered(s, w);
    CommitKeepsUnique(s, w);
    CommitKeepsEvidence(s, w);
    CommitKeepsPending(s, w, now);
    hide Protocol, ClaimsTrue, TodosTrue, PendingSound, PendingUnique, EvidenceSound, PendingRefers;
  }

  lemma CommitKeepsOutbox(t: Tables, locks: map<OutboxId, Lock>, w: WorkerId, now: Time)
    requires M.Inv(t)
    ensures M.Inv(t.(outbox := Processed(t.outbox, locks, w, now)))
  {
    M.KeptByOutbox(t, Processed(t.outbox, locks, w, now));
  }

  lemma LandedAgree(s: State, w: WorkerId)
    requires OutboxAgrees(s.db.outbox, s.db.updates) && NotificationsAgree(s.db.notifications, s.db.updates)
    requires PendingSound(s.past, s.db.outbox, s.locks, s.pending)
    ensures NotificationsAgree(s.db.notifications + Notes(Landed(s, w)), s.db.updates)
  {
    hide Justified;
  }

  lemma LandedUnique(s: State, w: WorkerId)
    requires NotificationsUnique(s.db.notifications) && PendingUnique(s.db.notifications, s.pending)
    ensures NotificationsUnique(s.db.notifications + Notes(Landed(s, w)))
  {}

  lemma CommitKeepsNotifications(s: State, w: WorkerId)
    requires M.Inv(s.db) && Delivered(s)
    ensures M.Inv(s.db.(notifications := s.db.notifications + Notes(Landed(s, w))))
  {
    hide M.WellFormed, Justified, ClaimsTrue, TodosTrue, EvidenceSound, OutboxAgrees, NotificationsAgree,
      NotificationsUnique, PendingUnique, PendingSound;
    LandedAgree(s, w);
    LandedUnique(s, w);
    var all := s.db.notifications + Notes(Landed(s, w));
    assert NotificationsRefer(all, s.db.devices.Keys, s.db.cats.Keys, s.db.updates.Keys);
    M.KeptByNotifications(s.db, all);
  }

  /** A locked row has not been marked, so committing its batch marks it once. */
  lemma LockedUnmarked(s: State, o: OutboxId)
    requires Protocol(s) && o in s.locks
    ensures o !in s.marks
  {
    hide RowsLocked, BatchesNumbered;
  }

  lemma CommitKeepsPush(s: State, w: WorkerId, x: Push)
    requires Protocol(s) && PushSound(x, s.batches, s.aborted, s.marks, s.locks, s.pending)
    ensures PushSound(x, s.batches, s.aborted, Marked(s.marks, s.locks, w), Released(s, w).locks,
                      Released(s, w).pending)
  {
    hide Protocol;
    if x.outbox in s.locks { LockedUnmarked(s, x.outbox); }
    if Pushed(s.pending, x.device, x.outbox) && !Held(s, w, x.outbox) {
      var n :| n in s.pending && s.pending[n].outbox == x.outbox && s.pending[n].note.device == x.device;
      assert n in Released(s, w).pending;
    }
  }

  lemma CommitKeepsSent(s: State, w: WorkerId, now: Time)
    requires Protocol(s) && SentSound(s.sent, s.batches, s.aborted, s.marks, s.locks, s.pending)
    ensures var r := CommitBatch(s, w, now); SentSound(r.sent, r.batches, r.aborted, r.marks, r.locks, r.pending)
  {
    hide Protocol, PushSound, Processed, Notes, Marked;
    forall x | x in s.sent
      ensures PushSound(x, s.batches, s.aborted, Marked(s.marks, s.locks, w), Released(s, w).locks,
                        Released(s, w).pending)
    {
      CommitKeepsPush(s, w, x);
    }
  }

  lemma CommitKeeps(s: State, w: WorkerId, now: Time)
    requires Inv(s) && w in s.workers
    ensures Acted(CommitBatch(s, w, now))
  {
    hide M.Inv, Protocol, Delivered, SentSound, SentOnce;
    var mid := s.db.(notifications := s.db.notifications + Notes(Landed(s, w)));
    CommitKeepsNotifications(s, w);
    CommitKeepsOutbox(mid, s.locks, w, now);
    CommitKeepsProtocol(s, w, now);
    CommitKeepsDelivered(s, w, now);
    CommitKeepsSent(s, w, now);
    assert CommitBatch(s, w, now).db == mid.(outbox := Processed(mid.outbox, s.locks, w, now));
  }

  // ---- every run ----

  lemma StepKeeps(s: State, step: Step)
    requires Inv(s)
    ensures Inv(Next(s, step))
  {
    ActKeeps(s, step);
    hide Act, Inv, Acted;
    RecordKeeps(Act(s, step));
  }

  lemma InvActed(s: State)
    requires Inv(s)
    ensures Acted(s)
  {
    hide M.Inv, Protocol, Delivered, SentSound, SentOnce;
  }

  lemma ActKeeps(s: State, step: Step)
    requires Inv(s)
    ensures Acted(Act(s, step))
  {
    hide Inv, Acted, Enabled, TakeRows, ResolveRecipients, DeliverTo, CommitBatch, Released;
    InvActed(s);
    match step
    case Other(op) => if Enabled(s, op) { OtherKeeps(s, op); }
    case Take(w, rows) => if w !in s.workers && !(exists o :: o in rows && !Claimable(s, o)) { TakeKeeps(s, w, rows); }
    case Resolve(w) => if OnRow(s, w) && FansOut(s.locks[Row(s, w)].claim) { ResolveKeeps(s, w); }
    case Deliver(w, d, id, now) =>
      if OnRow(s, w) && s.workers[w].resolvedAt.Some? && d in s.workers[w].todo { DeliverKeeps(s, w, d, id, now); }
    case Finish(w) => if OnRow(s, w) { FinishKeeps(s, w); }
    case Commit(w, now) => if w in s.workers { CommitKeeps(s, w, now); }
    case Abort(w) => if w in s.workers { AbortKeeps(s, w); }
  }

  lemma InitialKeeps()
    ensures Inv(INITIAL)
  {
    hide M.Inv, Justified, Recipient;
    M.EmptyTablesConsistent();
  }

  lemma {:induction false} Reachable(steps: seq<Step>)
    ensures Inv(Run(steps))
  {
    hide Next, Inv;
    if steps == [] {
      InitialKeeps();
    } else {
      Reachable(steps[..|steps| - 1]);
      StepKeeps(Run(steps[..|steps| - 1]), steps[|steps| - 1]);
    }
  }

  lemma ActKeepsPast(s: State, step: Step)
    ensures Act(s, step).past == s.past
  {
    hide Enabled, Recipient, AlreadyNotified, Claimable, ClaimOf, FansOut, Processed, Marked, Notes, Landed, Settled;
  }

  /** `past` is the history of the run: entry i is the committed tables after i steps. */
  lemma {:induction false} PastIsHistory(steps: seq<Step>, i: nat)
    requires i <= |steps|
    ensures |Run(steps).past| == |steps| + 1 && Run(steps).past[i] == Run(steps[..i]).db
    decreases |steps|
  {
    hide Act;
    if steps == [] {
      assert steps[..i] == [];
    } else {
      var n := |steps| - 1;
      ActKeepsPast(Run(steps[..n]), steps[n]);
      PastIsHistory(steps[..n], if i <= n then i else n);
      if i <= n { assert steps[..n][..i] == steps[..i]; } else { assert steps[..i] == steps; }
    }
  }

  // ---- the promises ----

  /** No outbox row is committed as processed more than once. */
  lemma ProcessedAtMostOnce(steps: seq<Step>, o: OutboxId)
    requires o in Run(steps).marks
    ensures |Run(steps).marks[o]| == 1
  {
    Reachable(steps);
    hide Run, M.Inv, Delivered;
  }

  /** Committed notifications are unique per device and update, and each is
      justified by the tables as they stood earlier in the same run: eligible,
      flagged and undeleted at its claim, and delivered to a recipient. */
  lemma NotificationsJustified(steps: seq<Step>, n: NotificationId) returns (i: nat, j: nat)
    requires n in Run(steps).db.notifications
    ensures i <= j <= |steps| && n in Run(steps).evidence
    ensures NotificationsUnique(Run(steps).db.notifications)
    ensures var note, claimed, resolved := Run(steps).db.notifications[n], Run(steps[..i]).db, Run(steps[..j]).db;
            var o := Run(steps).evidence[n].outbox;
            && o in claimed.outbox && claimed.outbox[o].update == note.update && claimed.outbox[o].eligible
            && note.update in claimed.updates && claimed.updates[note.update].needsHelp
            && Live(claimed.updates[note.update])
            && Recipient(resolved, note.device, note.cat, claimed.updates[note.update].author)
  {
    Reachable(steps);
    var s := Run(steps);
    i, j := s.evidence[n].claimedAt, s.evidence[n].resolvedAt;
    assert Justified(s.past, s.evidence[n]);
    PastIsHistory(steps, 0);
    PastIsHistory(steps, i);
    PastIsHistory(steps, j);
    hide Run, Recipient, Protocol;
  }

  /** What a recipient is, spelled out. */
  lemma RecipientMeans(t: Tables, d: DeviceId, c: CatId, author: Option<UserId>)
    ensures Recipient(t, d, c, author) <==>
            && d in t.devices && t.devices[d].revokedAt.None? && t.devices[d].user.Some? && c in t.cats && author.Some?
            && t.devices[d].user != author
            && !(t.cats[c].owner.Some? && (t.devices[d].user.value, t.cats[c].owner.value) in t.blocks)
            && (exists f :: f in t.follows && f.cat == c && f.user == t.devices[d].user)
  {
    if d in t.devices && t.devices[d].user.Some?
        && (exists f :: f in t.follows && f.cat == c && f.user == t.devices[d].user)
    {
      var f :| f in t.follows && f.cat == c && f.user == t.devices[d].user;
      assert f.user == t.devices[d].user;
    }
  }

  /** The same device is pushed the same row twice only if one of the two batches was rolled back. */
  lemma PushedTwiceMeansAborted(steps: seq<Step>, i: nat, j: nat)
    requires i < j < |Run(steps).sent|
    requires var sent := Run(steps).sent; sent[i].device == sent[j].device && sent[i].outbox == sent[j].outbox
    ensures var s := Run(steps);
            s.sent[i].batch != s.sent[j].batch && (s.sent[i].batch in s.aborted || s.sent[j].batch in s.aborted)
  {
    Reachable(steps);
    hide Run, M.Inv, Delivered, RowsLocked;
    var s := Run(steps);
    assert s.sent[i] in s.sent && s.sent[j] in s.sent;
    assert s.sent[i] != s.sent[j];
    hide Pushed;
  }
}
