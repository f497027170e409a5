/** Help marks: what the outbox freezes as eligible against what a reader of
    the cat would have been shown. */
module HelpMarks {
  import opened Sql
  import opened Schema
  import opened Writes
  import opened AccountDeletion
  import opened Machine
  import opened History
  import Keyset

  /** `order by created_at desc, seq desc` */
  predicate Newer(a: Place, b: Place) {
    a.createdAt > b.createdAt || (a.createdAt == b.createdAt && a.serial > b.serial)
  }

  lemma NewerIsStrictTotal()
    ensures Keyset.StrictTotal(Newer)
  {}

  function Marks(updates: map<UpdateId, Update>, c: CatId): set<UpdateId> {
    set x | x in updates && updates[x].cat == c && updates[x].needsHelp && Live(updates[x])
  }

  ghost predicate IsLatest(updates: map<UpdateId, Update>, c: CatId, m: UpdateId) {
    m in Marks(updates, c) && forall x :: x in Marks(updates, c) ==> !Newer(PlaceOf(updates[x]), PlaceOf(updates[m]))
  }

  lemma LatestExists(updates: map<UpdateId, Update>, c: CatId)
    requires exists x :: x in Marks(updates, c)
    ensures exists m :: IsLatest(updates, c, m)
  {
    var places := set x | x in Marks(updates, c) :: PlaceOf(updates[x]);
    var some :| some in Marks(updates, c);
    assert PlaceOf(updates[some]) in places;
    NewerIsStrictTotal();
    var p := Keyset.LeastExists(Newer, places);
    var m :| m in Marks(updates, c) && PlaceOf(updates[m]) == p;
    forall x | x in Marks(updates, c) ensures !Newer(PlaceOf(updates[x]), p) {
      assert PlaceOf(updates[x]) in places;
    }
    assert IsLatest(updates, c, m);
  }

  /** The lateral join: the cat's latest live mark, if it has one. */
  ghost function LatestMark(updates: map<UpdateId, Update>, c: CatId): (r: Option<UpdateId>)
    ensures r.Some? ==> IsLatest(updates, c, r.value)
    ensures r.None? ==> Marks(updates, c) == {}
  {
    if forall x :: x !in Marks(updates, c) then None
    else
      LatestExists(updates, c);
      var m :| IsLatest(updates, c, m);
      Some(m)
  }

  /** The columns of the lateral join, all null for a cat without a live mark. */
  datatype JoinedMark = JoinedMark(category: Option<string>, comment: Option<string>, createdAt: Option<Time>,
                                   expiresAt: Option<Time>)

  ghost function Joined(updates: map<UpdateId, Update>, c: CatId): JoinedMark {
    var m := LatestMark(updates, c);
    if m.None? then JoinedMark(None, None, None, None)
    else
      var u := updates[m.value];
      JoinedMark(u.category, u.comment, Some(u.createdAt), u.expiresAt)
  }

  datatype Alert = Alert(category: string, comment: Option<string>, createdAt: Option<Time>, expiresAt: Time)

  const COMPAT_CATEGORY := "unspecified"

  /** deriveActiveAlert: presence is decided by the expiry alone, against the service's clock. */
  function DeriveActiveAlert(j: JoinedMark, now: Time): Option<Alert> {
    if j.expiresAt.None? then None
    else if j.expiresAt.value <= now then None
    else
      var category := if j.category.Some? then j.category.value else COMPAT_CATEGORY;
      Some(Alert(category, j.comment, j.createdAt, j.expiresAt.value))
  }

  ghost predicate AlertShown(updates: map<UpdateId, Update>, c: CatId, now: Time) {
    DeriveActiveAlert(Joined(updates, c), now).Some?
  }

  predicate Unexpired(u: Update, now: Time) { u.expiresAt.Some? && u.expiresAt.value > now }

  /** Reading only the latest mark loses nothing: the alert is shown exactly when some live mark is unexpired. */
  lemma AlertShownIffUnexpiredMark(updates: map<UpdateId, Update>, c: CatId, now: Time)
    requires ExpiriesFixed(updates)
    ensures AlertShown(updates, c, now) <==> exists x :: x in Marks(updates, c) && Unexpired(updates[x], now)
  {
    var m := LatestMark(updates, c);
    if x :| x in Marks(updates, c) && Unexpired(updates[x], now) {
      assert m.Some? && !Newer(PlaceOf(updates[x]), PlaceOf(updates[m.value]));
      assert updates[m.value].createdAt >= updates[x].createdAt;
    }
  }

  /** The row is earlier, in (created_at, seq) order, than the one about to be created. */
  predicate Before(u: Update, p: NewUpdate) { Newer(Place(p.createdAt, p.serial), PlaceOf(u)) }

  /** Every live mark of the cat is earlier than the one about to be created. */
  ghost predicate InOrder(t: Tables, p: NewUpdate) {
    forall x :: x in Marks(t.updates, p.cat) ==> Before(t.updates[x], p)
  }

  /** Some live mark of the cat precedes p by less than 72 hours. */
  ghost predicate RecentMark(t: Tables, p: NewUpdate) {
    exists x :: x in Marks(t.updates, p.cat) && Before(t.updates[x], p)
        && p.createdAt < t.updates[x].createdAt + NEEDS_HELP_EXPIRY
  }

  /** The eligibility that the create transaction freezes for p. */
  ghost predicate FrozenEligible(t: Tables, p: NewUpdate)
    requires CanCreate(t, p)
  {
    CreateUpdate(t, p).outbox[p.outboxId].eligible
  }

  lemma ActiveBeforeIffRecent(t: Tables, p: NewUpdate)
    requires ExpiriesFixed(t.updates) && p.id !in t.updates
    ensures ActiveBefore(t.updates[p.id := NewRow(p)], p.id) <==> RecentMark(t, p)
  {
    var updates := t.updates[p.id := NewRow(p)];
    if RecentMark(t, p) {
      var x :| x in Marks(t.updates, p.cat) && Before(t.updates[x], p)
               && p.createdAt < t.updates[x].createdAt + NEEDS_HELP_EXPIRY;
      assert x != p.id && updates[x] == t.updates[x];
    }
    if ActiveBefore(updates, p.id) {
      var x :| x in updates && x != p.id
               && updates[x].cat == p.cat && updates[x].needsHelp && Live(updates[x])
               && Earlier(updates[x], updates[p.id])
               && updates[x].expiresAt.Some? && updates[x].expiresAt.value > p.createdAt;
      assert x in Marks(t.updates, p.cat);
    }
  }

  lemma EligibleIffNoRecentMark(t: Tables, p: NewUpdate)
    requires Inv(t) && CanCreate(t, p)
    ensures FrozenEligible(t, p) <==> p.needsHelp && !RecentMark(t, p)
  {
    hide ValidStatuses, StatusRows, CatExists, Referential, Unique, Attributed, ActiveBefore, RecentMark;
    ActiveBeforeIffRecent(t, p);
  }

  /** Marks committed in (created_at, seq) order are eligible exactly when no alert is shown at their creation. */
  lemma EligibleIffNoAlert(t: Tables, p: NewUpdate)
    requires Inv(t) && CanCreate(t, p) && p.needsHelp && InOrder(t, p)
    ensures FrozenEligible(t, p) <==> !AlertShown(t.updates, p.cat, p.createdAt)
  {
    EligibleIffNoRecentMark(t, p);
    AlertShownIffUnexpiredMark(t.updates, p.cat, p.createdAt);
  }

  /** Without that order the two disagree exactly when a later mark was
      committed first and no earlier one is still recent; the mark is then
      eligible although an alert is shown. */
  lemma DisagreementIsOvertaking(t: Tables, p: NewUpdate)
    requires Inv(t) && CanCreate(t, p) && p.needsHelp
    ensures (FrozenEligible(t, p) <==> AlertShown(t.updates, p.cat, p.createdAt)) <==>
            !InOrder(t, p) && !RecentMark(t, p)
    ensures !FrozenEligible(t, p) ==> AlertShown(t.updates, p.cat, p.createdAt)
  {
    EligibleIffNoRecentMark(t, p);
    AlertShownIffUnexpiredMark(t.updates, p.cat, p.createdAt);
    if !InOrder(t, p) {
      var x :| x in Marks(t.updates, p.cat) && !Before(t.updates[x], p);
      assert Unexpired(t.updates[x], p.createdAt);
    }
  }

  const LATE_MARK := Update(5, None, None, Ordinary, None, 100, 2, true, None, Some(100 + NEEDS_HELP_EXPIRY), None,
      None, None, None)
  const OVERTAKEN := EMPTY.(users := map[1 := User("1")], cats := map[5 := Cat(None, None, None, Active)],
                            updates := map[10 := LATE_MARK], serials := {2})
  const OVERTAKER := NewUpdate(11, 12, 1, 5, 1, None, [], true, None, None, None, 50, None, 50)

  lemma OvertakenTablesRefer()
    ensures Referential(OVERTAKEN)
  {}

  lemma OvertakenTablesUnique()
    ensures Unique(OVERTAKEN)
  {}

  lemma OvertakenTablesAgree()
    ensures Attributed(OVERTAKEN) && WellFormed(OVERTAKEN)
  {}

  lemma OvertakenTablesConsistent()
    ensures Inv(OVERTAKEN)
  {
    hide Referential, Unique, Attributed, WellFormed;
    OvertakenTablesRefer();
    OvertakenTablesUnique();
    OvertakenTablesAgree();
  }

  lemma OvertakerAccepted()
    ensures CanCreate(OVERTAKEN, OVERTAKER)
  {}

  /** Such a state: a mark made at 100 was committed before one made at 50. */
  lemma OvertakenMarkStaysEligible()
    ensures Inv(OVERTAKEN) && CanCreate(OVERTAKEN, OVERTAKER) && FrozenEligible(OVERTAKEN, OVERTAKER)
    ensures AlertShown(OVERTAKEN.updates, 5, OVERTAKER.createdAt)
  {
    OvertakenTablesConsistent();
    OvertakerAccepted();
    hide Inv, CanCreate, CreateUpdate;
    assert 10 in Marks(OVERTAKEN.updates, 5) && !Before(LATE_MARK, OVERTAKER);
    assert forall x :: x in Marks(OVERTAKEN.updates, 5) ==> x == 10;
    DisagreementIsOvertaking(OVERTAKEN, OVERTAKER);
    EligibleIffNoRecentMark(OVERTAKEN, OVERTAKER);
  }

  // ---- over a run ----

  /** The row with this id and serial is a live mark. */
  predicate Marked(t: Tables, id: UpdateId, serial: int) {
    id in t.updates && t.updates[id].serial == serial && t.updates[id].needsHelp && Live(t.updates[id])
  }

  /** Clearing the flag, deleting the update, or erasing its author or its cat's owner. */
  predicate EndsMark(t: Tables, op: Op, id: UpdateId)
    requires id in t.updates
  {
    || (op.Correct? && op.correction.id == id && op.correction.clearNeedsHelp)
    || (op.Delete? && op.deletion.id == id)
    || (op.EraseAccount? && (t.updates[id].author == Some(op.account.id) || Owns(t, op.account.id, t.updates[id].cat)))
  }

  lemma MarkSurvivesPost(t: Tables, op: Op, id: UpdateId, serial: int)
    requires Marked(t, id, serial) && (op.Create? || op.Seed?)
    ensures Marked(ApplyUpdate(t, op), id, serial)
  {
    hide Eligible, ValidStatuses, StatusRows, CatExists;
  }

  lemma MarkSurvivesEdit(t: Tables, op: Op, id: UpdateId, serial: int)
    requires Marked(t, id, serial) && !EndsMark(t, op, id) && (op.Correct? || op.Delete?)
    ensures Marked(ApplyUpdate(t, op), id, serial)
  {
    hide StatusRows, ValidStatuses, HasStatus;
  }

  lemma MarkSurvivesWrite(t: Tables, op: Op, id: UpdateId, serial: int)
    requires Marked(t, id, serial) && !EndsMark(t, op, id)
    requires op.Create? || op.Seed? || op.Correct? || op.Delete? || op.Link?
    ensures Marked(Apply(t, op), id, serial)
  {
    if op.Link? {
      hide BackfillFollows, DeleteRedundantFollows;
    } else {
      hide ApplyUpdate;
      if op.Create? || op.Seed? { MarkSurvivesPost(t, op, id, serial); } else { MarkSurvivesEdit(t, op, id, serial); }
    }
  }

  lemma MarkSurvivesErasure(t: Tables, a: Account, id: UpdateId, serial: int)
    requires Marked(t, id, serial) && !EndsMark(t, EraseAccount(a), id)
    ensures Marked(DeleteAccount(t, a), id, serial)
  {
    hide DeleteAccount;
    DeletionErasesUpdates(t, a);
  }

  lemma MarkSurvivesOtherSteps(t: Tables, op: Op, id: UpdateId, serial: int)
    requires Marked(t, id, serial) && !EndsMark(t, op, id)
    ensures Marked(Apply(t, op), id, serial)
  {
    if op.EraseAccount? {
      hide DeleteAccount;
      MarkSurvivesErasure(t, op.account, id, serial);
    } else {
      hide Apply;
      if LeavesUpdates(op) { UpdatesLeft(t, op); } else { MarkSurvivesWrite(t, op, id, serial); }
    }
  }

  /** A mark that is gone after a run was ended by one of its steps. */
  lemma {:induction false} MarkLoss(t: Tables, ops: seq<Op>, id: UpdateId, serial: int) returns (k: nat)
    requires Marked(t, id, serial) && !Marked(Run(t, ops), id, serial)
    ensures k < |ops| && Marked(Run(t, ops[..k]), id, serial) && EndsMark(Run(t, ops[..k]), ops[k], id)
    ensures !Marked(Run(t, ops[..k + 1]), id, serial)
    decreases |ops|
  {
    hide Apply;
    var n := |ops| - 1;
    var mid := Run(t, ops[..n]);
    if Marked(mid, id, serial) {
      if !EndsMark(mid, ops[n], id) { MarkSurvivesOtherSteps(mid, ops[n], id, serial); }
      k := n;
      assert ops[..k + 1] == ops;
    } else {
      k := MarkLoss(t, ops[..n], id, serial);
      assert ops[..n][..k] == ops[..k] && ops[..n][..k + 1] == ops[..k + 1];
    }
  }

  /** Step i of the run creates a mark that is frozen as eligible. */
  ghost predicate EligibleAt(ops: seq<Op>, i: nat)
    requires i < |ops|
  {
    ops[i].Create? && CanCreate(Run(EMPTY, ops[..i]), ops[i].newUpdate)
    && FrozenEligible(Run(EMPTY, ops[..i]), ops[i].newUpdate)
  }

  /** Two marks of one cat, p first and q less than 72 hours later. */
  predicate Close(p: NewUpdate, q: NewUpdate) {
    && p.cat == q.cat && Newer(Place(q.createdAt, q.serial), Place(p.createdAt, p.serial))
    && q.createdAt < p.createdAt + NEEDS_HELP_EXPIRY
  }

  lemma EligibleMarkStored(ops: seq<Op>, i: nat)
    requires i < |ops| && EligibleAt(ops, i)
    ensures var p, t := ops[i].newUpdate, Run(EMPTY, ops[..i + 1]);
            Marked(t, p.id, p.serial) && t.updates[p.id] == NewRow(p)
  {
    hide Run, Inv, CanCreate, FrozenEligible, CreateUpdate, RecentMark;
    StepRuns(EMPTY, ops, i);
    Reachable(ops[..i]);
    EligibleIffNoRecentMark(Run(EMPTY, ops[..i]), ops[i].newUpdate);
    RowStored(Run(EMPTY, ops[..i]), ops[i].newUpdate);
  }

  lemma RowStored(t: Tables, p: NewUpdate)
    requires CanCreate(t, p)
    ensures p.id in CreateUpdate(t, p).updates && CreateUpdate(t, p).updates[p.id] == NewRow(p)
  {}

  lemma LiveRecentMarkBlocks(t: Tables, p: NewUpdate, q: NewUpdate)
    requires Inv(t) && CanCreate(t, q) && FrozenEligible(t, q) && Close(p, q)
    requires p.id in t.updates && t.updates[p.id].cat == p.cat && PlaceOf(t.updates[p.id]) == PlaceOf(NewRow(p))
    ensures !Marked(t, p.id, p.serial)
  {
    hide Inv, CanCreate, FrozenEligible;
    EligibleIffNoRecentMark(t, q);
    assert p.id in Marks(t.updates, q.cat) <==> Marked(t, p.id, p.serial);
  }

  lemma MarkGoneBefore(ops: seq<Op>, i: nat, j: nat)
    requires i < j < |ops| && EligibleAt(ops, i) && EligibleAt(ops, j) && Close(ops[i].newUpdate, ops[j].newUpdate)
    ensures !Marked(Run(EMPTY, ops[..j]), ops[i].newUpdate.id, ops[i].newUpdate.serial)
  {
    hide Run, Inv, CanCreate, FrozenEligible, Close;
    var p, q, t := ops[i].newUpdate, ops[j].newUpdate, Run(EMPTY, ops[..j]);
    EligibleMarkStored(ops, i);
    HistoryNeverRewritten(ops, i + 1, j);
    Reachable(ops[..j]);
    if p.id in t.updates && t.updates[p.id].serial == p.serial {
      assert Carried(NewRow(p), t.updates[p.id]);
      LiveRecentMarkBlocks(t, p, q);
    }
  }

  lemma SplitAt(ops: seq<Op>, i: nat, j: nat)
    requires i <= j <= |ops|
    ensures Run(EMPTY, ops[..j]) == Run(Run(EMPTY, ops[..i]), ops[i..j])
  {
    hide Run;
    RunSplits(EMPTY, ops[..j], i);
    assert ops[..j][..i] == ops[..i] && ops[..j][i..] == ops[i..j];
  }

  /** Two eligible marks of one cat less than 72 hours apart: between the two
      creations some step cleared, deleted or erased the earlier one. */
  lemma EligibleMarksAreSeparated(ops: seq<Op>, i: nat, j: nat) returns (k: nat)
    requires i < j < |ops| && EligibleAt(ops, i) && EligibleAt(ops, j) && Close(ops[i].newUpdate, ops[j].newUpdate)
    ensures i < k < j
    ensures var p, before, after := ops[i].newUpdate, Run(EMPTY, ops[..k]), Run(EMPTY, ops[..k + 1]);
            Marked(before, p.id, p.serial) && EndsMark(before, ops[k], p.id) && !Marked(after, p.id, p.serial)
  {
    hide Run, CanCreate, FrozenEligible, Close, EndsMark;
    var p := ops[i].newUpdate;
    var start, rest := Run(EMPTY, ops[..i + 1]), ops[i + 1..j];
    EligibleMarkStored(ops, i);
    MarkGoneBefore(ops, i, j);
    SplitAt(ops, i + 1, j);
    k := MarkLoss(start, rest, p.id, p.serial);
    SplitAt(ops, i + 1, i + 1 + k);
    SplitAt(ops, i + 1, i + 2 + k);
    assert rest[..k] == ops[i + 1..i + 1 + k] && rest[..k + 1] == ops[i + 1..i + 2 + k];
    k := k + i + 1;
  }
}
