/** Completeness of the fan-out: a committed eligible mark has notified every
    device that was a recipient when its recipients were read. */
module FanOut {
  import opened Sql
  import opened Schema
  import opened Dispatch
  import M = Machine

  /** The device has its notification for the row: inserted by the open batch, or committed for the row's update. */
  ghost predicate Notified(pending: map<NotificationId, Delivery>, evidence: map<NotificationId, Delivery>,
                           d: DeviceId, o: OutboxId, u: UpdateId)
  {
    || (exists n :: n in pending && pending[n].outbox == o && pending[n].note.device == d)
    || (exists n :: n in evidence && evidence[n].note.device == d && evidence[n].note.update == u)
  }

  /** Every recipient at the moment is notified, or among the devices still to be served. */
  ghost predicate Covers(past: seq<Tables>, pending: map<NotificationId, Delivery>,
                         evidence: map<NotificationId, Delivery>,
                         o: OutboxId, c: Claim, moment: nat, todo: set<DeviceId>)
  {
    moment < |past| && forall d :: Recipient(past[moment], d, c.cat, c.author) ==>
        d in todo || Notified(pending, evidence, d, o, c.update)
  }

  /** What one open batch has covered: its finished rows wholly, its current row up to `todo`. */
  ghost predicate BatchCovers(past: seq<Tables>, pending: map<NotificationId, Delivery>,
                              evidence: map<NotificationId, Delivery>,
                              locks: map<OutboxId, Lock>, w: WorkerId, b: Batch)
  {
    && (forall o :: o in b.done ==>
          && o in locks && locks[o].worker == w && locks[o].claimedAt <= b.done[o]
          && Covers(past, pending, evidence, o, locks[o].claim, b.done[o], {}))
    && (forall i :: 0 <= i < b.next && i < |b.rows| && b.rows[i] in locks && FansOut(locks[b.rows[i]].claim) ==>
          b.rows[i] in b.done)
    && (b.resolvedAt.Some? && b.next < |b.rows| && b.rows[b.next] in locks ==>
          Covers(past, pending, evidence, b.rows[b.next], locks[b.rows[b.next]].claim, b.resolvedAt.value, b.todo.Keys))
  }

  ghost predicate BatchesCover(s: State) {
    forall w :: w in s.workers ==> BatchCovers(s.past, s.pending, s.evidence, s.locks, w, s.workers[w])
  }

  /** A committed row is what the tables said at its claim; a live eligible mark had its recipients read
      after that, and all of them have their notifications. */
  ghost predicate CommitCovers(past: seq<Tables>, evidence: map<NotificationId, Delivery>, o: OutboxId, x: Committed) {
    && ClaimedAs(past, o, x.claim, x.claimedAt)
    && (FansOut(x.claim) ==> x.readAt.Some?)
    && (x.readAt.Some? ==>
          x.claimedAt <= x.readAt.value && Covers(past, map[], evidence, o, x.claim, x.readAt.value, {}))
  }

  ghost predicate CommitsCover(past: seq<Tables>, evidence: map<NotificationId, Delivery>,
                               commits: map<OutboxId, Committed>)
  {
    forall o :: o in commits ==> CommitCovers(past, evidence, o, commits[o])
  }

  ghost predicate Complete(s: State) { BatchesCover(s) && CommitsCover(s.past, s.evidence, s.commits) }

  // ---- what keeps a cover ----

  /** Notifications for the row are kept, perhaps moved from pending to evidence. */
  ghost predicate KeepsNotified(s: State, r: State, o: OutboxId, u: UpdateId) {
    forall d :: Notified(s.pending, s.evidence, d, o, u) ==> Notified(r.pending, r.evidence, d, o, u)
  }

  lemma CoverKept(s: State, r: State, o: OutboxId, c: Claim, moment: nat, todo: set<DeviceId>)
    requires Covers(s.past, s.pending, s.evidence, o, c, moment, todo) && r.past == s.past
             && KeepsNotified(s, r, o, c.update)
    ensures Covers(r.past, r.pending, r.evidence, o, c, moment, todo)
  {
    hide Recipient, Notified;
  }

  lemma BatchKept(s: State, r: State, w: WorkerId)
    requires w in s.workers && BatchCovers(s.past, s.pending, s.evidence, s.locks, w, s.workers[w]) && r.past == s.past
    requires forall o :: Held(s, w, o) ==>
                           Held(r, w, o) && r.locks[o] == s.locks[o] && KeepsNotified(s, r, o, s.locks[o].claim.update)
    requires forall o :: o in s.workers[w].rows ==> Held(s, w, o)
    ensures BatchCovers(r.past, r.pending, r.evidence, r.locks, w, s.workers[w])
  {
    hide Covers, KeepsNotified;
    var b := s.workers[w];
    forall o | o in b.done ensures Covers(r.past, r.pending, r.evidence, o, r.locks[o].claim, b.done[o], {}) {
      assert Held(s, w, o);
      CoverKept(s, r, o, s.locks[o].claim, b.done[o], {});
    }
    forall i | 0 <= i < |b.rows| ensures Held(s, w, b.rows[i]) && r.locks[b.rows[i]] == s.locks[b.rows[i]] {
      assert b.rows[i] in b.rows;
    }
    if b.resolvedAt.Some? && b.next < |b.rows| {
      var o := b.rows[b.next];
      CoverKept(s, r, o, s.locks[o].claim, b.resolvedAt.value, b.todo.Keys);
    }
  }

  lemma SameNotices(s: State, r: State, o: OutboxId, u: UpdateId)
    requires r.pending == s.pending && r.evidence == s.evidence
    ensures KeepsNotified(s, r, o, u)
  {}

  // ---- the steps ----

  lemma RowsAreHeld(s: State, w: WorkerId, o: OutboxId)
    requires RowsLocked(s.workers, s.locks) && w in s.workers && o in s.workers[w].rows
    ensures Held(s, w, o)
  {}

  /** A step of worker w that keeps locks and notices leaves every other batch's cover alone. */
  lemma OtherBatchesKept(s: State, r: State, w: WorkerId)
    requires BatchesCover(s) && RowsLocked(s.workers, s.locks) && r.past == s.past
    requires forall v :: v in r.workers && v != w ==> v in s.workers && r.workers[v] == s.workers[v]
    requires forall v, o :: v != w && Held(s, v, o) ==>
             Held(r, v, o) && r.locks[o] == s.locks[o] && KeepsNotified(s, r, o, s.locks[o].claim.update)
    requires w in r.workers ==> BatchCovers(r.past, r.pending, r.evidence, r.locks, w, r.workers[w])
    ensures BatchesCover(r)
  {
    hide BatchCovers, KeepsNotified, Held;
    forall v | v in r.workers && v != w ensures BatchCovers(r.past, r.pending, r.evidence, r.locks, v, r.workers[v]) {
      forall o | o in s.workers[v].rows ensures Held(s, v, o) { RowsAreHeld(s, v, o); }
      BatchKept(s, r, v);
    }
  }

  lemma TakeComplete(s: State, w: WorkerId, rows: seq<OutboxId>)
    requires Inv(s) && Complete(s) && w !in s.workers && forall o :: o in rows ==> Claimable(s, o)
    ensures Complete(TakeRows(s, w, rows))
  {
    hide M.Inv, Delivered, SentSound, SentOnce, Recipient, Notified;
    var r := TakeRows(s, w, rows);
    forall v, o | v != w && Held(s, v, o)
      ensures Held(r, v, o) && r.locks[o] == s.locks[o] && KeepsNotified(s, r, o, s.locks[o].claim.update)
    {
      SameNotices(s, r, o, s.locks[o].claim.update);
    }
    OtherBatchesKept(s, r, w);
  }

  /** At the moment of the read every recipient is still to be served. */
  lemma ReadCovers(s: State, w: WorkerId)
    requires OnRow(s, w) && s.past != [] && s.past[|s.past| - 1] == s.db
    ensures var b, c := ResolveRecipients(s, w).workers[w], s.locks[Row(s, w)].claim;
            Covers(s.past, s.pending, s.evidence, Row(s, w), c, b.resolvedAt.value, b.todo.Keys)
  {
    hide Notified;
    var b, c := ResolveRecipients(s, w).workers[w], s.locks[Row(s, w)].claim;
    forall d | Recipient(s.db, d, c.cat, c.author) ensures d in b.todo.Keys {}
    hide Recipient;
  }

  lemma ResolveComplete(s: State, w: WorkerId)
    requires Inv(s) && Complete(s) && OnRow(s, w)
    ensures Complete(ResolveRecipients(s, w))
  {
    hide M.Inv, Protocol, Delivered, SentSound, SentOnce, Covers, Recipient, KeepsNotified, CommitsCover;
    var r := ResolveRecipients(s, w);
    InvRowsLocked(s);
    ReadCovers(s, w);
    forall v, o | v != w && Held(s, v, o) ensures KeepsNotified(s, r, o, s.locks[o].claim.update) {
      SameNotices(s, r, o, s.locks[o].claim.update);
    }
    assert BatchCovers(s.past, s.pending, s.evidence, s.locks, w, s.workers[w]);
    OtherBatchesKept(s, r, w);
  }

  /** A row with no device left to serve counts as done. */
  lemma FinishedBatchCovers(s: State, w: WorkerId)
    requires OnRow(s, w) && Held(s, w, Row(s, w))
             && BatchCovers(s.past, s.pending, s.evidence, s.locks, w, s.workers[w])
    requires FansOut(s.locks[Row(s, w)].claim) <==> s.workers[w].resolvedAt.Some?
    requires s.workers[w].resolvedAt.Some? ==>
               s.workers[w].todo == map[] && s.locks[Row(s, w)].claimedAt <= s.workers[w].resolvedAt.value
    ensures BatchCovers(s.past, s.pending, s.evidence, s.locks, w, Finished(s, w))
  {
    hide Covers, FansOut;
    assert s.workers[w].todo == map[] ==> s.workers[w].todo.Keys == {};
  }

  /** Recipients were read only for a row that fans out. */
  lemma ResolvedFansOut(s: State, w: WorkerId)
    requires Inv(s) && OnRow(s, w) && s.workers[w].resolvedAt.Some?
    ensures FansOut(s.locks[Row(s, w)].claim) && s.locks[Row(s, w)].claimedAt <= s.workers[w].resolvedAt.value
  {
    hide Inv, Recipient;
    BatchTodoTrue(s, w);
  }

  lemma InvRowsLocked(s: State)
    requires Inv(s)
    ensures RowsLocked(s.workers, s.locks)
  {
    hide M.Inv, RowsLocked, LocksSound, BatchesNumbered, MarksSound, Delivered, SentSound, SentOnce;
  }

  lemma FinishComplete(s: State, w: WorkerId)
    requires Inv(s) && Complete(s) && OnRow(s, w)
    requires FansOut(s.locks[Row(s, w)].claim) ==> s.workers[w].resolvedAt.Some? && s.workers[w].todo == map[]
    ensures Complete(s.(workers := s.workers[w := Finished(s, w)]))
  {
    hide Inv, BatchCovers, RowsLocked, FansOut, KeepsNotified, CommitsCover;
    var r, o := s.(workers := s.workers[w := Finished(s, w)]), Row(s, w);
    if s.workers[w].resolvedAt.Some? { ResolvedFansOut(s, w); }
    InvRowsLocked(s);
    assert o in s.workers[w].rows;
    RowsAreHeld(s, w, o);
    FinishedBatchCovers(s, w);
    forall v, x | v != w && Held(s, v, x) ensures KeepsNotified(s, r, x, s.locks[x].claim.update) {
      SameNotices(s, r, x, s.locks[x].claim.update);
    }
    OtherBatchesKept(s, r, w);
  }

  /** The device just served has its notification. */
  lemma ServedIsNotified(s: State, w: WorkerId, d: DeviceId, id: NotificationId, now: Time)
    requires Inv(s) && OnRow(s, w) && s.workers[w].resolvedAt.Some? && d in s.workers[w].todo
    ensures var r := DeliverTo(s, w, d, id, now);
            r.workers == s.workers || Notified(r.pending, r.evidence, d, Row(s, w), s.locks[Row(s, w)].claim.update)
  {
    hide M.WellFormed, Referential, Attributed, Justified, TodosTrue, SentSound, SentOnce, PendingUnique;
    var o, r := Row(s, w), DeliverTo(s, w, d, id, now);
    var u := s.locks[o].claim.update;
    if AlreadyNotified(s, w, d, u) {
      if n :| n in s.db.notifications && s.db.notifications[n].device == d && s.db.notifications[n].update == u {
        assert n in s.evidence && s.evidence[n].note == s.db.notifications[n];
      } else {
        var n :| n in s.pending && s.pending[n].outbox in s.locks && s.locks[s.pending[n].outbox].worker == w
                 && s.pending[n].note.device == d && s.pending[n].note.update == u;
        assert OutboxUnique(s.db.outbox) && s.db.outbox[s.pending[n].outbox].update == u && s.db.outbox[o].update == u;
        assert s.pending[n].outbox == o;
      }
    } else if r.workers != s.workers {
      assert r.pending[id].outbox == o && r.pending[id].note.device == d;
    }
  }

  lemma MoreNotices(s: State, r: State, o: OutboxId, u: UpdateId)
    requires r.evidence == s.evidence && forall n :: n in s.pending ==> n in r.pending && r.pending[n] == s.pending[n]
    ensures KeepsNotified(s, r, o, u)
  {}

  lemma DeliverOnlyAdds(s: State, w: WorkerId, d: DeviceId, id: NotificationId, now: Time)
    requires OnRow(s, w) && s.workers[w].resolvedAt.Some? && d in s.workers[w].todo
    ensures var r := DeliverTo(s, w, d, id, now);
            && r.db == s.db && r.past == s.past && r.locks == s.locks
            && r.evidence == s.evidence && r.commits == s.commits
            && (forall n :: n in s.pending ==> n in r.pending && r.pending[n] == s.pending[n])
            && (r.workers == s.workers || r.workers == s.workers[w := s.workers[w].(todo := s.workers[w].todo - {d})])
  {
    hide AlreadyNotified;
    var l, r := s.locks[Row(s, w)], DeliverTo(s, w, d, id, now);
    if AlreadyNotified(s, w, d, l.claim.update) {
      assert r.pending == s.pending;
    } else if id in s.pending {
      assert r == s;
    }
  }

  lemma DeliverComplete(s: State, w: WorkerId, d: DeviceId, id: NotificationId, now: Time)
    requires Inv(s) && Complete(s) && OnRow(s, w) && s.workers[w].resolvedAt.Some? && d in s.workers[w].todo
    ensures Complete(DeliverTo(s, w, d, id, now))
  {
    hide M.Inv, Delivered, SentSound, SentOnce, Notified, Recipient, DeliverTo, Covers, LocksSound, BatchesNumbered,
      MarksSound;
    ServedIsNotified(s, w, d, id, now);
    DeliverOnlyAdds(s, w, d, id, now);
    var r, b := DeliverTo(s, w, d, id, now), s.workers[w];
    forall v, o | Held(s, v, o)
      ensures KeepsNotified(s, r, o, s.locks[o].claim.update)
    {
      MoreNotices(s, r, o, s.locks[o].claim.update);
    }
    forall o | o in b.rows ensures Held(s, w, o) { RowsAreHeld(s, w, o); }
    BatchKept(s, r, w);
    if r.workers != s.workers { ServedBatchCovers(r.past, r.pending, r.evidence, r.locks, w, b, d); }
    hide KeepsNotified;
    OtherBatchesKept(s, r, w);
    CommitsKept(s.past, s.evidence, r.evidence, s.commits);
  }

  /** A served device may be struck off the list. */
  lemma ServedBatchCovers(past: seq<Tables>, pending: map<NotificationId, Delivery>,
                          evidence: map<NotificationId, Delivery>,
                          locks: map<OutboxId, Lock>, w: WorkerId, b: Batch, d: DeviceId)
    requires BatchCovers(past, pending, evidence, locks, w, b)
    requires b.next < |b.rows| && b.rows[b.next] in locks
             && Notified(pending, evidence, d, b.rows[b.next], locks[b.rows[b.next]].claim.update)
    ensures BatchCovers(past, pending, evidence, locks, w, b.(todo := b.todo - {d}))
  {
    hide Recipient, Notified;
    assert (b.todo - {d}).Keys == b.todo.Keys - {d};
  }

  // ---- ending a batch ----

  /** Rows of other workers keep their notices when w's batch ends. */
  lemma EndKeepsOthers(s: State, r: State, w: WorkerId, v: WorkerId, o: OutboxId)
    requires v != w && Held(s, v, o) && r.pending == Released(s, w).pending
    requires forall n :: n in s.evidence ==> n in r.evidence && r.evidence[n] == s.evidence[n]
    ensures KeepsNotified(s, r, o, s.locks[o].claim.update)
  {
    forall d | Notified(s.pending, s.evidence, d, o, s.locks[o].claim.update)
      ensures Notified(r.pending, r.evidence, d, o, s.locks[o].claim.update)
    {
      if n :| n in s.pending && s.pending[n].outbox == o && s.pending[n].note.device == d {
        assert n in r.pending && r.pending[n] == s.pending[n];
      } else {
        var n :| n in s.evidence && s.evidence[n].note.device == d
            && s.evidence[n].note.update == s.locks[o].claim.update;
        assert n in r.evidence && r.evidence[n] == s.evidence[n];
      }
    }
  }

  lemma CommitsKept(past: seq<Tables>, evidence: map<NotificationId, Delivery>, more: map<NotificationId, Delivery>,
                    commits: map<OutboxId, Committed>)
    requires CommitsCover(past, evidence, commits) && forall n :: n in evidence ==> n in more && more[n] == evidence[n]
    ensures CommitsCover(past, more, commits)
  {
    hide Recipient, ClaimedAs;
    forall d, o, u | Notified(map[], evidence, d, o, u) ensures Notified(map[], more, d, o, u) {
      var n :| n in evidence && evidence[n].note.device == d && evidence[n].note.update == u;
      assert n in more;
    }
    hide Notified;
  }

  lemma AbortComplete(s: State, w: WorkerId)
    requires Inv(s) && Complete(s) && w in s.workers
    ensures Complete(Released(s, w).(aborted := s.aborted + {s.workers[w].id}))
  {
    hide M.Inv, Delivered, SentSound, SentOnce, Notified, Recipient;
    var r := Released(s, w).(aborted := s.aborted + {s.workers[w].id});
    forall v, o | v != w && Held(s, v, o)
      ensures Held(r, v, o) && r.locks[o] == s.locks[o] && KeepsNotified(s, r, o, s.locks[o].claim.update)
    {
      EndKeepsOthers(s, r, w, v, o);
    }
    OtherBatchesKept(s, r, w);
  }

  /** What the batch inserted is in evidence once it commits. */
  lemma CommittedCover(s: State, w: WorkerId, o: OutboxId, moment: nat)
    requires Inv(s) && Held(s, w, o) && Covers(s.past, s.pending, s.evidence, o, s.locks[o].claim, moment, {})
    ensures Covers(s.past, map[], s.evidence + Landed(s, w), o, s.locks[o].claim, moment, {})
  {
    hide M.Inv, Justified, TodosTrue, ClaimsTrue, SentSound, SentOnce, Recipient;
    var c, evidence := s.locks[o].claim, s.evidence + Landed(s, w);
    forall d | Notified(s.pending, s.evidence, d, o, c.update) ensures Notified(map[], evidence, d, o, c.update) {
      if n :| n in s.pending && s.pending[n].outbox == o && s.pending[n].note.device == d {
        assert n in Landed(s, w) && evidence[n] == s.pending[n];
        assert s.pending[n].note.update == s.db.outbox[o].update == c.update;
      } else {
        var n :| n in s.evidence && s.evidence[n].note.device == d && s.evidence[n].note.update == c.update;
        assert n !in s.pending && evidence[n] == s.evidence[n];
      }
    }
    hide Notified;
  }

  /** The rows of an ended batch, each with what it owes. */
  lemma SettledCovers(s: State, w: WorkerId, o: OutboxId)
    requires Inv(s) && Complete(s) && w in s.workers && s.workers[w].next == |s.workers[w].rows| && Held(s, w, o)
    ensures o in Settled(s, w) && CommitCovers(s.past, s.evidence + Landed(s, w), o, Settled(s, w)[o])
  {
    var b := s.workers[w];
    HeldFacts(s, w, o);
    assert BatchCovers(s.past, s.pending, s.evidence, s.locks, w, b);
    var i :| 0 <= i < |b.rows| && b.rows[i] == o;
    hide Inv, Covers, ClaimedAs, FansOut;
    if o in b.done { CommittedCover(s, w, o, b.done[o]); }
  }

  lemma HeldFacts(s: State, w: WorkerId, o: OutboxId)
    requires Inv(s) && w in s.workers && Held(s, w, o)
    ensures o in s.workers[w].rows && ClaimedAs(s.past, o, s.locks[o].claim, s.locks[o].claimedAt)
  {
    hide M.Inv, TodosTrue, PendingSound, PendingUnique, PendingRefers, EvidenceSound, SentSound, SentOnce, ClaimedAs;
    assert ClaimTrue(s.past, o, s.locks[o]);
  }

  lemma CommitsComplete(s: State, w: WorkerId)
    requires Inv(s) && Complete(s) && w in s.workers && s.workers[w].next == |s.workers[w].rows|
    ensures CommitsCover(s.past, s.evidence + Landed(s, w), s.commits + Settled(s, w))
  {
    InvEvidenceGrows(s, w);
    CommitsKept(s.past, s.evidence, s.evidence + Landed(s, w), s.commits);
    forall o | o in Settled(s, w)
      ensures CommitCovers(s.past, s.evidence + Landed(s, w), o, Settled(s, w)[o])
    {
      SettledCovers(s, w, o);
    }
    hide Inv, Complete, CommitCovers;
  }

  lemma CommitComplete(s: State, w: WorkerId, now: Time)
    requires Inv(s) && Complete(s) && w in s.workers && s.workers[w].next == |s.workers[w].rows|
    ensures Complete(CommitBatch(s, w, now))
  {
    hide Inv, BatchCovers, RowsLocked, KeepsNotified, CommitsCover, Landed, Settled;
    InvRowsLocked(s);
    InvEvidenceGrows(s, w);
    CommitsComplete(s, w);
    var r := CommitBatch(s, w, now);
    forall v, o | v != w && Held(s, v, o)
      ensures Held(r, v, o) && r.locks[o] == s.locks[o] && KeepsNotified(s, r, o, s.locks[o].claim.update)
    {
      EndKeepsOthers(s, r, w, v, o);
    }
    OtherBatchesKept(s, r, w);
  }

  lemma InvEvidenceGrows(s: State, w: WorkerId)
    requires Inv(s)
    ensures forall n :: n in s.evidence ==>
                          n in s.evidence + Landed(s, w) && (s.evidence + Landed(s, w))[n] == s.evidence[n]
  {
    hide M.Inv, Protocol, ClaimsTrue, TodosTrue, PendingSound, PendingUnique, PendingRefers, SentSound, Justified;
  }

  // ---- every run ----

  lemma OtherComplete(s: State, t: Tables)
    requires Complete(s)
    ensures Complete(s.(db := t))
  {
    hide BatchCovers, CommitsCover;
  }

  lemma ActComplete(s: State, step: Step)
    requires Inv(s) && Complete(s)
    ensures Complete(Act(s, step))
  {
    hide Inv, Complete, Enabled, TakeRows, ResolveRecipients, DeliverTo, CommitBatch, Released, Finished;
    match step
    case Other(op) => OtherComplete(s, M.Apply(s.db, op));
    case Take(w, rows) =>
      if w !in s.workers && !(exists o :: o in rows && !Claimable(s, o)) { TakeComplete(s, w, rows); }
    case Resolve(w) => if OnRow(s, w) { ResolveComplete(s, w); }
    case Deliver(w, d, id, now) =>
      if OnRow(s, w) && s.workers[w].resolvedAt.Some? && d in s.workers[w].todo { DeliverComplete(s, w, d, id, now); }
    case Finish(w) =>
      if && OnRow(s, w)
         && (FansOut(s.locks[Row(s, w)].claim) ==> s.workers[w].resolvedAt.Some? && s.workers[w].todo == map[])
      {
        FinishComplete(s, w);
      }
    case Commit(w, now) =>
      if w in s.workers && s.workers[w].next == |s.workers[w].rows| { CommitComplete(s, w, now); }
    case Abort(w) => if w in s.workers { AbortComplete(s, w); }
  }

  lemma LaterCovers(past: seq<Tables>, t: Tables, pending: map<NotificationId, Delivery>,
                    evidence: map<NotificationId, Delivery>,
                    o: OutboxId, c: Claim, moment: nat, todo: set<DeviceId>)
    requires Covers(past, pending, evidence, o, c, moment, todo)
    ensures Covers(past + [t], pending, evidence, o, c, moment, todo)
  {
    hide Recipient, Notified;
  }

  lemma LaterBatchCovers(past: seq<Tables>, t: Tables, pending: map<NotificationId, Delivery>,
                         evidence: map<NotificationId, Delivery>,
                         locks: map<OutboxId, Lock>, w: WorkerId, b: Batch)
    requires BatchCovers(past, pending, evidence, locks, w, b)
    ensures BatchCovers(past + [t], pending, evidence, locks, w, b)
  {
    hide Covers;
    forall o | o in b.done ensures Covers(past + [t], pending, evidence, o, locks[o].claim, b.done[o], {}) {
      LaterCovers(past, t, pending, evidence, o, locks[o].claim, b.done[o], {});
    }
    if b.resolvedAt.Some? && b.next < |b.rows| && b.rows[b.next] in locks {
      LaterCovers(past, t, pending, evidence, b.rows[b.next], locks[b.rows[b.next]].claim, b.resolvedAt.value,
          b.todo.Keys);
    }
  }

  lemma RecordComplete(s: State)
    requires Complete(s)
    ensures Complete(s.(past := s.past + [s.db]))
  {
    hide Covers, BatchCovers, CommitCovers;
    var past := s.past + [s.db];
    forall w | w in s.workers ensures BatchCovers(past, s.pending, s.evidence, s.locks, w, s.workers[w]) {
      LaterBatchCovers(s.past, s.db, s.pending, s.evidence, s.locks, w, s.workers[w]);
    }
    forall o | o in s.commits ensures CommitCovers(past, s.evidence, o, s.commits[o]) {
      LaterCommitCovers(s.past, s.db, s.evidence, o, s.commits[o]);
    }
  }

  lemma LaterCommitCovers(past: seq<Tables>, t: Tables, evidence: map<NotificationId, Delivery>, o: OutboxId,
                          x: Committed)
    requires CommitCovers(past, evidence, o, x)
    ensures CommitCovers(past + [t], evidence, o, x)
  {
    hide Covers;
    assert (past + [t])[x.claimedAt] == past[x.claimedAt];
    if x.readAt.Some? { LaterCovers(past, t, map[], evidence, o, x.claim, x.readAt.value, {}); }
  }

  lemma {:induction false} AlwaysComplete(steps: seq<Step>)
    ensures Complete(Run(steps))
  {
    if steps != [] {
      hide Inv, Complete, Act;
      var s := Run(steps[..|steps| - 1]);
      AlwaysComplete(steps[..|steps| - 1]);
      Reachable(steps[..|steps| - 1]);
      ActComplete(s, steps[|steps| - 1]);
      RecordComplete(Act(s, steps[|steps| - 1]));
    }
  }

  // ---- the promises ----

  /** The step is an account deletion that removes the notification. */
  ghost predicate Erases(s: State, step: Step, n: NotificationId) {
    && step.Other? && step.op.EraseAccount?
    && n in s.db.notifications && n !in Next(s, step).db.notifications
  }

  ghost predicate ErasedAt(steps: seq<Step>, k: nat, n: NotificationId)
    requires k < |steps|
  {
    Erases(Run(steps[..k]), steps[k], n)
  }

  lemma OtherKeepsNotice(s: State, op: M.Op, n: NotificationId)
    requires n in s.db.notifications
    ensures n in Next(s, Other(op)).db.notifications || Erases(s, Other(op), n)
  {
    hide M.Apply, Enabled;
    if Enabled(s, op) && !op.EraseAccount? {
      assert !op.AddNotification? by { OthersNotify(s, op); }
      NotificationsUntouched(s.db, op);
    }
  }

  lemma OthersNotify(s: State, op: M.Op)
    requires Enabled(s, op)
    ensures !op.AddNotification? && !op.Process?
  {
    hide M.Apply;
  }

  lemma CommitKeepsNotice(s: State, w: WorkerId, now: Time, n: NotificationId)
    requires n in CommitBatch(s, w, now).evidence && (n in s.evidence ==> n in s.db.notifications)
    ensures n in CommitBatch(s, w, now).db.notifications
  {
    hide Processed, Marked, Settled, Released;
  }

  /** Only a commit writes evidence, together with the notifications. */
  lemma BatchStepKeepsNotices(s: State, step: Step)
    requires !step.Other? && !step.Commit?
    ensures Next(s, step).evidence == s.evidence && Next(s, step).db.notifications == s.db.notifications
  {
    hide Recipient, AlreadyNotified, Claimable, ClaimOf, FansOut, DeliverTo, ResolveRecipients, TakeRows, Released;
    match step
    case Take(w, rows) => TakeLeavesNotices(s, w, rows);
    case Resolve(w) => if OnRow(s, w) { ResolveLeavesNotices(s, w); }
    case Deliver(w, d, id, now) =>
      if OnRow(s, w) && s.workers[w].resolvedAt.Some? && d in s.workers[w].todo { DeliverOnlyAdds(s, w, d, id, now); }
    case Finish(w) =>
    case Abort(w) => AbortLeavesNotices(s, w);
  }

  lemma TakeLeavesNotices(s: State, w: WorkerId, rows: seq<OutboxId>)
    ensures TakeRows(s, w, rows).evidence == s.evidence && TakeRows(s, w, rows).db == s.db
  {
    hide Claimable, ClaimOf;
  }

  lemma ResolveLeavesNotices(s: State, w: WorkerId)
    requires OnRow(s, w)
    ensures ResolveRecipients(s, w).evidence == s.evidence && ResolveRecipients(s, w).db == s.db
  {
    hide Recipient;
  }

  lemma AbortLeavesNotices(s: State, w: WorkerId)
    ensures Released(s, w).evidence == s.evidence && Released(s, w).db == s.db
  {}

  lemma OtherKeepsEvidence(s: State, op: M.Op)
    ensures Next(s, Other(op)).evidence == s.evidence
  {
    hide M.Apply, Enabled;
  }

  lemma StepKeepsNotice(s: State, step: Step, n: NotificationId)
    requires n in Next(s, step).evidence && (n in s.evidence ==> n in s.db.notifications)
    ensures n in Next(s, step).db.notifications || Erases(s, step, n)
  {
    hide Next, CommitBatch;
    if step.Other? {
      OtherKeepsEvidence(s, step.op);
      OtherKeepsNotice(s, step.op, n);
    } else if step.Commit? {
      CommitStepKeepsNotice(s, step, n);
    } else {
      BatchStepKeepsNotices(s, step);
    }
  }

  lemma CommitStepKeepsNotice(s: State, step: Step, n: NotificationId)
    requires step.Commit? && n in Next(s, step).evidence && (n in s.evidence ==> n in s.db.notifications)
    ensures n in Next(s, step).db.notifications
  {
    hide CommitBatch;
    if step.worker in s.workers && s.workers[step.worker].next == |s.workers[step.worker].rows| {
      CommitKeepsNotice(s, step.worker, step.now, n);
    }
  }

  /** A committed notification is in the table unless an account deletion removed it. */
  lemma {:induction false} NoticeKeptOrErased(steps: seq<Step>, n: NotificationId)
    requires n in Run(steps).evidence
    ensures n in Run(steps).db.notifications || exists k :: 0 <= k < |steps| && ErasedAt(steps, k, n)
  {
    if steps != [] {
      hide Next, Erases;
      var m := |steps| - 1;
      var s, rest := Run(steps[..m]), steps[..m];
      if n in s.evidence {
        NoticeKeptOrErased(rest, n);
        if k :| 0 <= k < m && ErasedAt(rest, k, n) {
          assert rest[..k] == steps[..k];
          assert ErasedAt(steps, k, n);
          return;
        }
      }
      StepKeepsNotice(s, steps[m], n);
      assert Erases(s, steps[m], n) ==> ErasedAt(steps, m, n);
    }
  }

  /** d has a notification for the update in the table, unless an account deletion removed it. */
  ghost predicate Noticed(steps: seq<Step>, d: DeviceId, u: UpdateId) {
    exists n :: n in Run(steps).evidence && Run(steps).evidence[n].note.device == d
                && Run(steps).evidence[n].note.update == u && InTableOrErased(steps, n)
  }

  ghost predicate InTableOrErased(steps: seq<Step>, n: NotificationId)
    requires n in Run(steps).evidence
  {
    || (n in Run(steps).db.notifications && Run(steps).db.notifications[n] == Run(steps).evidence[n].note)
    || (exists k :: 0 <= k < |steps| && ErasedAt(steps, k, n))
  }

  lemma EvidenceNoticed(steps: seq<Step>, d: DeviceId, o: OutboxId, u: UpdateId)
    requires Notified(map[], Run(steps).evidence, d, o, u)
    ensures Noticed(steps, d, u)
  {
    hide Run, Inv, ErasedAt;
    var s := Run(steps);
    Reachable(steps);
    var n :| n in s.evidence && s.evidence[n].note.device == d && s.evidence[n].note.update == u;
    NoticeKeptOrErased(steps, n);
    if n in s.db.notifications { CommittedNote(s, n); }
  }

  /** Every row that any batch committed was claimed at some moment i of the run. If it then was an eligible,
      flagged and undeleted mark, its recipients were read at a later moment j, and every device that was one
      then, of the claimed row's cat and author, has its notification. */
  lemma EveryRecipientNotified(steps: seq<Step>, o: OutboxId) returns (i: nat, j: nat)
    requires o in Run(steps).marks
    ensures i <= j <= |steps|
    ensures var t := Run(steps[..i]).db;
            && o in t.outbox && t.outbox[o].update in t.updates
            && var u := t.updates[t.outbox[o].update];
            (t.outbox[o].eligible && u.needsHelp && u.deletedAt.None? ==>
               forall d :: Recipient(Run(steps[..j]).db, d, t.outbox[o].cat, u.author) ==>
                             Noticed(steps, d, t.outbox[o].update))
  {
    hide Run, Recipient, Noticed, Covers;
    var s := Run(steps);
    MarkedIsCommitted(steps, o);
    AlwaysComplete(steps);
    assert CommitCovers(s.past, s.evidence, o, s.commits[o]);
    var x := s.commits[o];
    PastIsHistory(steps, 0);
    i := x.claimedAt;
    PastIsHistory(steps, i);
    if FansOut(x.claim) {
      CoveredMoment(s.past, s.evidence, o, x);
      j := x.readAt.value;
      PastIsHistory(steps, j);
      forall d | Recipient(s.past[j], d, x.claim.cat, x.claim.author) ensures Noticed(steps, d, x.claim.update) {
        CoveredDevice(s.past, s.evidence, o, x.claim, j, d);
        EvidenceNoticed(steps, d, o, x.claim.update);
      }
    } else {
      j := i;
    }
  }

  lemma CoveredMoment(past: seq<Tables>, evidence: map<NotificationId, Delivery>, o: OutboxId, x: Committed)
    requires CommitCovers(past, evidence, o, x) && FansOut(x.claim)
    ensures x.readAt.Some? && x.claimedAt <= x.readAt.value < |past|
  {
    hide Recipient, Notified;
  }

  lemma CoveredDevice(past: seq<Tables>, evidence: map<NotificationId, Delivery>, o: OutboxId, c: Claim, j: nat,
                      d: DeviceId)
    requires Covers(past, map[], evidence, o, c, j, {}) && j < |past| && Recipient(past[j], d, c.cat, c.author)
    ensures Notified(map[], evidence, d, o, c.update)
  {
    hide Recipient, Notified;
  }

  /** Marks and commits are recorded together. */
  lemma {:induction false} MarkedIsCommitted(steps: seq<Step>, o: OutboxId)
    ensures o in Run(steps).marks <==> o in Run(steps).commits
  {
    hide Next;
    if steps != [] {
      MarkedIsCommitted(steps[..|steps| - 1], o);
      StepMarksCommits(Run(steps[..|steps| - 1]), steps[|steps| - 1], o);
    }
  }

  lemma StepMarksCommits(s: State, step: Step, o: OutboxId)
    requires o in s.marks <==> o in s.commits
    ensures o in Next(s, step).marks <==> o in Next(s, step).commits
  {
    hide Enabled, Recipient, AlreadyNotified, Claimable, ClaimOf, FansOut, Processed, Notes, Landed, M.Apply;
  }

  lemma CommittedNote(s: State, n: NotificationId)
    requires Inv(s) && n in s.db.notifications
    ensures n in s.evidence && s.evidence[n].note == s.db.notifications[n]
  {
    hide M.Inv, Protocol, ClaimsTrue, TodosTrue, PendingSound, Justified, SentSound, SentOnce;
  }
}
