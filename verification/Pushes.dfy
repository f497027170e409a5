/** Pushes against push tokens: none goes out without one, and a notified device that had one is pushed. */
module Pushes {
  import opened Sql
  import opened Schema
  import opened Writes
  import opened AccountDeletion
  import opened Dispatch
  import M = Machine

  /** Stored, with a push token that is not empty. */
  predicate HasToken(t: Tables, d: DeviceId) {
    d in t.devices && t.devices[d].pushToken.Some? && t.devices[d].pushToken.value != ""
  }

  // ---- devices are never removed ----

  lemma IdentityKeepsDevices(t: Tables, op: M.Op)
    requires M.IdentityOp(op)
    ensures t.devices.Keys <= M.ApplyIdentity(t, op).devices.Keys
  {
    hide CreateUser;
    if op.AddUser? { UserKeepsDevices(t, op.user, op.phone); }
  }

  lemma UserKeepsDevices(t: Tables, u: UserId, phone: string)
    ensures CreateUser(t, u, phone).devices == t.devices
  {}

  lemma SocialKeepsDevices(t: Tables, op: M.Op)
    requires M.SocialOp(op)
    ensures M.ApplySocial(t, op).devices == t.devices
  {
    hide CatExists, Owned;
  }

  lemma CatKeepsDevices(t: Tables, op: M.Op)
    requires M.CatOp(op)
    ensures M.ApplyCat(t, op).devices == t.devices
  {
    hide CanInsertMedium, TargetExists;
  }

  lemma UpdateKeepsDevices(t: Tables, op: M.Op)
    requires M.UpdateOp(op)
    ensures M.ApplyUpdate(t, op).devices == t.devices
  {
    hide CanCreate, Eligible, StatusRows, CorrectionAccepted, CorrectWhere, DeleteWhere, ValidStatuses;
  }

  lemma ErasureKeepsDevices(t: Tables, a: Account)
    ensures t.devices.Keys <= DeleteAccount(t, a).devices.Keys
  {
    hide DeleteAccount;
    DeletionErasesIdentity(t, a);
  }

  lemma DevicesStay(t: Tables, op: M.Op)
    ensures t.devices.Keys <= M.Apply(t, op).devices.Keys
  {
    hide M.ApplyIdentity, M.ApplySocial, M.ApplyCat, M.ApplyUpdate, DeleteAccount, BackfillFollows, BackfillAuthors;
    if M.IdentityOp(op) { IdentityKeepsDevices(t, op); }
    else if M.SocialOp(op) { SocialKeepsDevices(t, op); }
    else if M.CatOp(op) { CatKeepsDevices(t, op); }
    else if M.UpdateOp(op) { UpdateKeepsDevices(t, op); }
    else if op.EraseAccount? { ErasureKeepsDevices(t, op.account); }
  }

  lemma StepKeepsDevices(s: State, step: Step)
    ensures s.db.devices.Keys <= Next(s, step).db.devices.Keys
  {
    hide M.Apply, Enabled, Recipient, AlreadyNotified, Claimable, ClaimOf, FansOut, Processed, Notes, Landed, Marked;
    if step.Other? { DevicesStay(s.db, step.op); }
  }

  lemma {:induction false} DevicesStayInRun(steps: seq<Step>, i: nat)
    requires i <= |steps|
    ensures Run(steps[..i]).db.devices.Keys <= Run(steps).db.devices.Keys
    decreases |steps|
  {
    hide Next;
    if i == |steps| {
      assert steps[..i] == steps;
    } else {
      var n := |steps| - 1;
      assert steps[..n][..i] == steps[..i];
      DevicesStayInRun(steps[..n], i);
      StepKeepsDevices(Run(steps[..n]), steps[n]);
    }
  }

  /** A device still to be served is still stored, and is served with the token it had when it was read. */
  lemma TodoKnown(steps: seq<Step>, w: WorkerId, d: DeviceId)
    requires w in Run(steps).workers && d in Run(steps).workers[w].todo && Run(steps).workers[w].resolvedAt.Some?
    ensures var b := Run(steps).workers[w];
            && b.resolvedAt.value <= |steps| && d in Run(steps[..b.resolvedAt.value]).db.devices
            && b.todo[d] == Run(steps[..b.resolvedAt.value]).db.devices[d].pushToken
    ensures d in Run(steps).db.devices
  {
    hide Run, Inv, Recipient;
    Reachable(steps);
    var s := Run(steps);
    BatchTodoTrue(s, w);
    PastIsHistory(steps, 0);
    PastIsHistory(steps, s.workers[w].resolvedAt.value);
    DevicesStayInRun(steps, s.workers[w].resolvedAt.value);
  }

  // ---- pushes ----

  ghost predicate Pushed(sent: seq<Push>, d: DeviceId, o: OutboxId) {
    exists i :: 0 <= i < |sent| && sent[i].device == d && sent[i].outbox == o
  }

  /** A delivery to a device that had a token when its recipients were read was pushed. */
  ghost predicate DeliveryPushed(past: seq<Tables>, sent: seq<Push>, p: Delivery) {
    p.resolvedAt < |past| && (HasToken(past[p.resolvedAt], p.note.device) ==> Pushed(sent, p.note.device, p.outbox))
  }

  ghost predicate AllPushed(past: seq<Tables>, sent: seq<Push>, deliveries: map<NotificationId, Delivery>) {
    forall n :: n in deliveries ==> DeliveryPushed(past, sent, deliveries[n])
  }

  ghost predicate PushesSound(s: State) {
    AllPushed(s.past, s.sent, s.pending) && AllPushed(s.past, s.sent, s.evidence)
  }

  lemma LaterPushes(past: seq<Tables>, t: Tables, sent: seq<Push>, deliveries: map<NotificationId, Delivery>)
    requires AllPushed(past, sent, deliveries)
    ensures AllPushed(past + [t], sent, deliveries)
  {
    hide HasToken, Pushed;
    forall n | n in deliveries ensures DeliveryPushed(past + [t], sent, deliveries[n]) {
      assert DeliveryPushed(past, sent, deliveries[n]);
      assert (past + [t])[deliveries[n].resolvedAt] == past[deliveries[n].resolvedAt];
    }
  }

  lemma MorePushes(past: seq<Tables>, sent: seq<Push>, x: Push, deliveries: map<NotificationId, Delivery>)
    requires AllPushed(past, sent, deliveries)
    ensures AllPushed(past, sent + [x], deliveries)
  {
    hide HasToken;
    forall d, o | Pushed(sent, d, o) ensures Pushed(sent + [x], d, o) {
      var i :| 0 <= i < |sent| && sent[i].device == d && sent[i].outbox == o;
      assert (sent + [x])[i] == sent[i];
    }
    hide Pushed;
  }

  /** A delivery pushes exactly when the token it was read with is there and not empty. */
  lemma DeliverPushes(s: State, w: WorkerId, d: DeviceId, id: NotificationId, now: Time)
    requires OnRow(s, w) && s.workers[w].resolvedAt.Some? && d in s.workers[w].todo
    ensures var r, b, x := DeliverTo(s, w, d, id, now), s.workers[w], Push(d, Row(s, w), s.workers[w].id);
            || (r.sent == s.sent && r.pending == s.pending)
            || (&& id !in s.pending && id in r.pending && r.pending == s.pending[id := r.pending[id]]
                && r.pending[id].note.device == d && r.pending[id].outbox == Row(s, w)
                && r.pending[id].resolvedAt == b.resolvedAt.value
                && r.sent == if b.todo[d].Some? && b.todo[d].value != "" then s.sent + [x] else s.sent)
    ensures DeliverTo(s, w, d, id, now).evidence == s.evidence && DeliverTo(s, w, d, id, now).past == s.past
  {
    hide AlreadyNotified, Row;
  }

  lemma DeliverKeepsPushes(s: State, w: WorkerId, d: DeviceId, id: NotificationId, now: Time)
    requires OnRow(s, w) && s.workers[w].resolvedAt.Some? && d in s.workers[w].todo
    requires PushesSound(s) && TodoTrue(s.past, s.locks, s.workers[w])
    ensures PushesSound(DeliverTo(s, w, d, id, now))
  {
    hide Recipient, DeliverTo, DeliveryPushed;
    var r, j := DeliverTo(s, w, d, id, now), s.workers[w].resolvedAt.value;
    DeliverPushes(s, w, d, id, now);
    if r.sent != s.sent {
      var x := r.sent[|s.sent|];
      assert r.sent == s.sent + [x] && x.device == d && x.outbox == Row(s, w);
      MorePushes(s.past, s.sent, x, s.pending);
      MorePushes(s.past, s.sent, x, s.evidence);
    }
    if r.pending != s.pending { NewDelivery(s.past, r.sent, r.pending[id], d, Row(s, w), j); }
  }

  lemma NewDelivery(past: seq<Tables>, sent: seq<Push>, p: Delivery, d: DeviceId, o: OutboxId, j: nat)
    requires j < |past| && p.note.device == d && p.outbox == o && p.resolvedAt == j
    requires HasToken(past[j], d) ==> sent != [] && sent[|sent| - 1].device == d && sent[|sent| - 1].outbox == o
    ensures DeliveryPushed(past, sent, p)
  {}

  lemma CommitKeepsPushes(s: State, w: WorkerId, now: Time)
    requires PushesSound(s)
    ensures PushesSound(CommitBatch(s, w, now))
  {
    hide DeliveryPushed, Processed, Marked, Settled;
  }

  lemma ActKeepsPushes(s: State, step: Step)
    requires Inv(s) && PushesSound(s)
    ensures PushesSound(Act(s, step))
  {
    hide Inv, M.Apply, Enabled, Recipient, AlreadyNotified, Claimable, ClaimOf, FansOut, DeliverTo, CommitBatch;
    hide DeliveryPushed, TodoTrue;
    match step
    case Deliver(w, d, id, now) =>
      if OnRow(s, w) && s.workers[w].resolvedAt.Some? && d in s.workers[w].todo {
        BatchTodoTrue(s, w);
        DeliverKeepsPushes(s, w, d, id, now);
      }
    case Commit(w, now) => CommitKeepsPushes(s, w, now);
    case _ =>
  }

  lemma {:induction false} AlwaysPushed(steps: seq<Step>)
    ensures PushesSound(Run(steps))
  {
    if steps != [] {
      hide Inv, Act, AllPushed;
      var s := Run(steps[..|steps| - 1]);
      AlwaysPushed(steps[..|steps| - 1]);
      Reachable(steps[..|steps| - 1]);
      ActKeepsPushes(s, steps[|steps| - 1]);
      var a := Act(s, steps[|steps| - 1]);
      LaterPushes(a.past, a.db, a.sent, a.pending);
      LaterPushes(a.past, a.db, a.sent, a.evidence);
    }
  }

  /** The worker's batch reads, at step j, the recipients of the row. */
  ghost predicate Reads(steps: seq<Step>, j: nat, w: WorkerId, batch: nat, o: OutboxId)
    requires j < |steps|
  {
    var s := Run(steps[..j]);
    steps[j] == Resolve(w) && OnRow(s, w) && Row(s, w) == o && s.workers[w].id == batch
  }

  /** The same batch on the same row, its recipients read at the same moment. */
  ghost predicate StillOn(b: Batch, r: Batch) {
    r.id == b.id && r.rows == b.rows && r.next == b.next && r.resolvedAt == b.resolvedAt
  }

  /** What a step leaves of a worker that has read its row's recipients. */
  ghost predicate Resolving(s: State, r: State, step: Step, w: WorkerId) {
    w in r.workers && r.workers[w].resolvedAt.Some? ==>
      && w in s.workers
      && (StillOn(s.workers[w], r.workers[w])
          || (step == Resolve(w) && OnRow(s, w)
              && StillOn(s.workers[w].(resolvedAt := Some(Moment(s))), r.workers[w])))
  }

  lemma DeliverKeepsResolving(s: State, w: WorkerId, d: DeviceId, id: NotificationId, now: Time, v: WorkerId)
    requires OnRow(s, w) && s.workers[w].resolvedAt.Some? && d in s.workers[w].todo
    ensures Resolving(s, DeliverTo(s, w, d, id, now), Deliver(w, d, id, now), v)
  {
    hide AlreadyNotified, Row;
  }

  lemma EndKeepsResolving(s: State, w: WorkerId, now: Time, step: Step, v: WorkerId)
    ensures Resolving(s, CommitBatch(s, w, now), step, v)
    ensures w in s.workers ==> Resolving(s, Released(s, w).(aborted := s.aborted + {s.workers[w].id}), step, v)
  {
    hide Landed, Notes, Processed, Marked, Settled, Held;
  }

  /** Only reading the recipients sets the moment they were read at; the batch stays on its row meanwhile. */
  lemma StepKeepsResolving(s: State, step: Step, v: WorkerId)
    ensures Resolving(s, Act(s, step), step, v)
  {
    hide M.Apply, Enabled, Recipient, Claimable, ClaimOf, FansOut, DeliverTo, CommitBatch, Released;
    match step
    case Deliver(w, d, id, now) =>
      if OnRow(s, w) && s.workers[w].resolvedAt.Some? && d in s.workers[w].todo {
        DeliverKeepsResolving(s, w, d, id, now, v);
      }
    case Commit(w, now) => EndKeepsResolving(s, w, now, step, v);
    case Abort(w) => EndKeepsResolving(s, w, 0, step, v);
    case _ =>
  }

  lemma RowIsLocked(s: State, w: WorkerId)
    requires Inv(s) && w in s.workers && s.workers[w].resolvedAt.Some?
    ensures OnRow(s, w)
  {
    BatchTodoTrue(s, w);
    hide Inv, Recipient, FansOut;
  }

  lemma {:induction false} ReadByResolve(steps: seq<Step>, w: WorkerId) returns (j: nat)
    requires OnRow(Run(steps), w) && Run(steps).workers[w].resolvedAt.Some?
    ensures j < |steps| && Run(steps).workers[w].resolvedAt == Some(j)
    ensures Reads(steps, j, w, Run(steps).workers[w].id, Row(Run(steps), w))
  {
    hide Inv, Act;
    var n := |steps| - 1;
    var s := Run(steps[..n]);
    assert Run(steps) == Next(s, steps[n]);
    StepKeepsResolving(s, steps[n], w);
    PastIsHistory(steps[..n], 0);
    hide Run;
    if s.workers[w].resolvedAt == Run(steps).workers[w].resolvedAt {
      Reachable(steps[..n]);
      RowIsLocked(s, w);
      j := ReadByResolve(steps[..n], w);
      assert steps[..n][..j] == steps[..j];
    } else {
      j := n;
    }
  }

  /** Only a delivery pushes, and only with a token. */
  lemma SentGrows(s: State, step: Step)
    ensures var r := Act(s, step);
            || r.sent == s.sent
            || (&& step.Deliver? && OnRow(s, step.worker)
                && var b := s.workers[step.worker];
                && b.resolvedAt.Some? && step.device in b.todo && b.todo[step.device].Some?
                && b.todo[step.device].value != ""
                && r.sent == s.sent + [Push(step.device, Row(s, step.worker), b.id)])
  {
    hide M.Apply, Enabled, Recipient, AlreadyNotified, Claimable, ClaimOf, FansOut;
  }

  /** Every push went to a device that had a token when the recipients of its row were read for its batch. */
  lemma {:induction false} NoPushWithoutToken(steps: seq<Step>, i: nat) returns (j: nat, w: WorkerId)
    requires i < |Run(steps).sent|
    ensures var p := Run(steps).sent[i];
            j < |steps| && Reads(steps, j, w, p.batch, p.outbox) && HasToken(Run(steps[..j]).db, p.device)
  {
    hide Act;
    var n := |steps| - 1;
    var s := Run(steps[..n]);
    SentGrows(s, steps[n]);
    if i < |s.sent| {
      j, w := NoPushWithoutToken(steps[..n], i);
      assert steps[..n][..j] == steps[..j];
    } else {
      w := steps[n].worker;
      j := ReadByResolve(steps[..n], w);
      TodoKnown(steps[..n], w, steps[n].device);
      assert steps[..n][..j] == steps[..j];
    }
  }

  /** Every committed notification came from recipients read at some moment, and if its device had a token then, the
      device was pushed for the same row. */
  lemma NotifiedDeviceIsPushed(steps: seq<Step>, n: NotificationId) returns (j: nat)
    requires n in Run(steps).db.notifications
    ensures n in Run(steps).evidence && j <= |steps| && j == Run(steps).evidence[n].resolvedAt
    ensures HasToken(Run(steps[..j]).db, Run(steps).db.notifications[n].device) ==>
              Pushed(Run(steps).sent, Run(steps).db.notifications[n].device, Run(steps).evidence[n].outbox)
  {
    hide Run, HasToken, Pushed;
    AlwaysPushed(steps);
    var i: nat;
    i, j := NotificationsJustified(steps, n);
    var s := Run(steps);
    NoteMatches(steps, n);
    j := s.evidence[n].resolvedAt;
    assert DeliveryPushed(s.past, s.sent, s.evidence[n]);
    PastIsHistory(steps, 0);
    PastIsHistory(steps, j);
  }

  lemma NoteMatches(steps: seq<Step>, n: NotificationId)
    requires n in Run(steps).db.notifications
    ensures n in Run(steps).evidence && Run(steps).evidence[n].note == Run(steps).db.notifications[n]
  {
    hide Run, M.Inv, Protocol, ClaimsTrue, TodosTrue, PendingSound, Justified, SentSound, SentOnce;
    Reachable(steps);
  }
}
