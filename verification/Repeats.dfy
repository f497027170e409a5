/** A push leaves the transaction that records it: a batch that rolls back
    after a push sends the push again. */
module Repeats {
  import opened Sql
  import opened Schema
  import opened Writes
  import opened Dispatch
  import M = Machine

  /** The worker's row is about to be delivered to d, with a push, and d has no notification for it yet. */
  ghost predicate Pushing(s: State, w: WorkerId, d: DeviceId, o: OutboxId) {
    && OnRow(s, w) && o == Row(s, w) && s.workers[w].resolvedAt.Some?
    && d in s.workers[w].todo && s.workers[w].todo[d].Some? && s.workers[w].todo[d].value != ""
    && !AlreadyNotified(s, w, d, s.locks[o].claim.update)
  }

  predicate FreshId(s: State, id: NotificationId) { id !in s.db.notifications && id !in s.pending && id !in s.evidence }

  /** The claimed row reads now as it did when claimed, and d is still a recipient with the same token. */
  ghost predicate Current(s: State, w: WorkerId, d: DeviceId, o: OutboxId)
    requires Pushing(s, w, d, o)
  {
    && o in s.db.outbox && s.db.outbox[o].update in s.db.updates && ClaimOf(s.db, o) == s.locks[o].claim
    && Recipient(s.db, d, s.locks[o].claim.cat, s.locks[o].claim.author)
    && s.db.devices[d].pushToken == s.workers[w].todo[d]
  }

  lemma RunSnoc(steps: seq<Step>, step: Step)
    ensures Run(steps + [step]) == Next(Run(steps), step)
  {
    hide Next;
    assert (steps + [step])[..|steps|] == steps;
  }

  // ---- one step each ----

  lemma PushGoesOut(s: State, w: WorkerId, d: DeviceId, o: OutboxId, id: NotificationId, now: Time)
    requires Pushing(s, w, d, o) && FreshId(s, id)
    requires d in s.db.devices && s.locks[o].claim.cat in s.db.cats && s.locks[o].claim.update in s.db.updates
    ensures var r := Next(s, Deliver(w, d, id, now));
            && r.sent == s.sent + [Push(d, o, s.workers[w].id)]
            && r.db == s.db && r.locks == s.locks && r.evidence == s.evidence && r.aborted == s.aborted
            && r.batches == s.batches
            && w in r.workers && r.workers[w].id == s.workers[w].id
            && r.pending.Keys == s.pending.Keys + {id}
  {
    hide AlreadyNotified;
  }

  lemma AbortForgets(s: State, w: WorkerId, o: OutboxId)
    requires w in s.workers && Held(s, w, o)
    ensures var r := Next(s, Abort(w));
            && r.sent == s.sent && r.db == s.db && r.evidence == s.evidence && r.batches == s.batches
            && w !in r.workers && o !in r.locks && r.aborted == s.aborted + {s.workers[w].id}
            && r.pending.Keys <= s.pending.Keys
  {}

  lemma TakesRow(s: State, w: WorkerId, o: OutboxId)
    requires w !in s.workers && Claimable(s, o)
    ensures var r := Next(s, Take(w, [o]));
            && r.sent == s.sent && r.db == s.db && r.evidence == s.evidence && r.pending == s.pending
            && r.aborted == s.aborted && r.batches == s.batches + 1
            && OnRow(r, w) && Row(r, w) == o && r.locks[o].claim == ClaimOf(s.db, o) && r.workers[w].id == s.batches
            && r.workers[w].resolvedAt.None?
  {
    assert o in [o];
    assert forall x :: x in [o] ==> x == o;
  }

  lemma ResolvesRow(s: State, w: WorkerId, d: DeviceId, o: OutboxId)
    requires OnRow(s, w) && Row(s, w) == o && FansOut(s.locks[o].claim) && s.workers[w].resolvedAt.None?
    requires Recipient(s.db, d, s.locks[o].claim.cat, s.locks[o].claim.author)
    ensures var r := Next(s, Resolve(w));
            && r.sent == s.sent && r.db == s.db && r.evidence == s.evidence && r.pending == s.pending
            && r.locks == s.locks && r.aborted == s.aborted && r.batches == s.batches
            && OnRow(r, w) && Row(r, w) == o && r.workers[w].id == s.workers[w].id && r.workers[w].resolvedAt.Some?
            && d in r.workers[w].todo && r.workers[w].todo[d] == s.db.devices[d].pushToken
  {}

  // ---- rolling back and trying again ----

  /** No open batch holds a notification for the update of an unlocked row. */
  lemma UnlockedUnpending(s: State, o: OutboxId)
    requires Inv(s) && o in s.db.outbox && o !in s.locks
    ensures forall n :: n in s.pending ==> s.pending[n].note.update != s.db.outbox[o].update
  {
    hide M.WellFormed, Referential, Attributed, Justified, Protocol, ClaimsTrue, TodosTrue, EvidenceSound, SentSound;
    assert OutboxUnique(s.db.outbox);
  }

  lemma RecipientHasDevice(t: Tables, d: DeviceId, c: CatId, author: Option<UserId>)
    requires Recipient(t, d, c, author)
    ensures d in t.devices
  {}

  /** What a worker on a row knows of it. */
  lemma RowFacts(s: State, w: WorkerId)
    requires Inv(s) && OnRow(s, w)
    ensures var o := Row(s, w);
            && Held(s, w, o) && o in s.db.outbox && s.db.outbox[o].processedAt.None?
            && s.db.outbox[o].update == s.locks[o].claim.update
            && s.locks[o].claim.update in s.db.updates && s.locks[o].claim.cat in s.db.cats
  {
    hide M.WellFormed, Unique, Attributed, Delivered, SentSound, SentOnce;
    assert Row(s, w) in s.workers[w].rows;
    assert OutboxRefers(s.db.outbox, s.db.updates.Keys, s.db.cats.Keys);
  }

  /** The worker's state right after the row was claimed again. */
  lemma RolledBackRowIsTakenAgain(s: State, w: WorkerId, d: DeviceId, o: OutboxId, id: NotificationId, now: Time)
    requires Inv(s) && Pushing(s, w, d, o) && Current(s, w, d, o) && FreshId(s, id)
    ensures var r := Next(Next(Next(s, Deliver(w, d, id, now)), Abort(w)), Take(w, [o]));
            && Inv(r) && r.sent == s.sent + [Push(d, o, s.workers[w].id)] && r.db == s.db && r.evidence == s.evidence
            && r.aborted == s.aborted + {s.workers[w].id} && r.pending.Keys <= s.pending.Keys + {id}
            && OnRow(r, w) && Row(r, w) == o && r.locks[o].claim == s.locks[o].claim && r.workers[w].id == s.batches
            && r.workers[w].resolvedAt.None?
            && (forall n :: n in r.pending ==> r.pending[n].note.update != s.locks[o].claim.update)
  {
    hide Next, Inv, Recipient, AlreadyNotified, ClaimOf;
    RowFacts(s, w);
    RecipientHasDevice(s.db, d, s.locks[o].claim.cat, s.locks[o].claim.author);
    var s1 := Next(s, Deliver(w, d, id, now));
    PushGoesOut(s, w, d, o, id, now);
    StepKeeps(s, Deliver(w, d, id, now));
    var s2 := Next(s1, Abort(w));
    AbortForgets(s1, w, o);
    StepKeeps(s1, Abort(w));
    UnlockedUnpending(s2, o);
    TakesRow(s2, w, o);
    StepKeeps(s2, Take(w, [o]));
  }

  lemma RowFansOut(s: State, w: WorkerId)
    requires Inv(s) && OnRow(s, w) && s.workers[w].resolvedAt.Some?
    ensures FansOut(s.locks[Row(s, w)].claim)
  {
    hide Inv, Recipient;
    BatchTodoTrue(s, w);
  }

  /** In any run, roll the batch back after the push and let the same worker try again while nothing else changes:
      the device gets the same push twice, in two batches, the first of them aborted. */
  lemma RolledBackPushIsRepeated(steps: seq<Step>, w: WorkerId, d: DeviceId, o: OutboxId, id: NotificationId,
                                 later: NotificationId, now: Time)
    requires Pushing(Run(steps), w, d, o) && Current(Run(steps), w, d, o)
    requires FreshId(Run(steps), id) && FreshId(Run(steps), later) && id != later
    ensures var s := Run(steps);
            var again := [Take(w, [o]), Resolve(w), Deliver(w, d, later, now)];
            var r := Run(steps + [Deliver(w, d, id, now), Abort(w)] + again);
            && r.sent == s.sent + [Push(d, o, s.workers[w].id), Push(d, o, s.batches)]
            && r.aborted == s.aborted + {s.workers[w].id}
  {
    hide Run, Next, Inv, Recipient;
    var s := Run(steps);
    Reachable(steps);
    RunOfFive(steps, Deliver(w, d, id, now), Abort(w), Take(w, [o]), Resolve(w), Deliver(w, d, later, now));
    assert steps + [Deliver(w, d, id, now), Abort(w)] + [Take(w, [o]), Resolve(w), Deliver(w, d, later, now)]
        == steps + [Deliver(w, d, id, now), Abort(w), Take(w, [o]), Resolve(w), Deliver(w, d, later, now)];
    var s3 := Next(Next(Next(s, Deliver(w, d, id, now)), Abort(w)), Take(w, [o]));
    RolledBackRowIsTakenAgain(s, w, d, o, id, now);
    RowFansOut(s, w);
    ResolvesRow(s3, w, d, o);
    var s4 := Next(s3, Resolve(w));
    RowFacts(s, w);
    RecipientHasDevice(s.db, d, s.locks[o].claim.cat, s.locks[o].claim.author);
    assert !AlreadyNotified(s4, w, d, s4.locks[o].claim.update);
    PushGoesOut(s4, w, d, o, later, now);
  }

  lemma RunOfFive(steps: seq<Step>, a: Step, b: Step, c: Step, d: Step, e: Step)
    ensures Run(steps + [a, b, c, d, e]) == Next(Next(Next(Next(Next(Run(steps), a), b), c), d), e)
  {
    hide Run, Next;
    RunSnoc(steps, a);
    RunSnoc(steps + [a], b);
    RunSnoc(steps + [a] + [b], c);
    RunSnoc(steps + [a] + [b] + [c], d);
    RunSnoc(steps + [a] + [b] + [c] + [d], e);
    assert steps + [a, b, c, d, e] == steps + [a] + [b] + [c] + [d] + [e];
  }
}
