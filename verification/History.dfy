/** What a run of writes can and cannot do to an update row. */
module History {
  import opened Sql
  import opened Schema
  import opened Writes
  import opened AccountDeletion
  import opened Machine

  /** b is a later version of row a: rewritten, never revived, never given the help flag. */
  predicate Carried(a: Update, b: Update) {
    && Rewritten(a, b)
    && (a.deletedAt.Some? ==> b.deletedAt == a.deletedAt)
    && (b.needsHelp ==> a.needsHelp)
  }

  /** Every row of `after` is a carried row of `before` under the same id, or has a serial never handed out before. */
  ghost predicate RowsCarried(before: map<UpdateId, Update>, serials: set<int>, after: map<UpdateId, Update>) {
    forall y :: y in after ==> (y in before && Carried(before[y], after[y])) || after[y].serial !in serials
  }

  /** A step that does not touch the updates table. */
  predicate LeavesUpdates(op: Op) {
    !(op.Link? || op.Create? || op.Seed? || op.Correct? || op.Delete? || op.EraseAccount?)
  }

  lemma UpdatesLeft(t: Tables, op: Op)
    requires LeavesUpdates(op)
    ensures Apply(t, op).updates == t.updates && Apply(t, op).serials == t.serials
  {
    hide ApplyIdentity, ApplySocial, ApplyCat, ApplyUpdate, LinkDevice, DeleteAccount;
  }

  lemma NewRowCarries(updates: map<UpdateId, Update>, serials: set<int>, id: UpdateId, u: Update)
    requires u.serial !in serials
    ensures RowsCarried(updates, serials, updates[id := u])
  {}

  lemma EditCarries(updates: map<UpdateId, Update>, serials: set<int>, id: UpdateId, u: Update)
    requires id in updates && Carried(updates[id], u)
    ensures RowsCarried(updates, serials, updates[id := u])
  {}

  lemma BackfillCarries(updates: map<UpdateId, Update>, serials: set<int>, d: DeviceId, u: UserId)
    ensures RowsCarried(updates, serials, BackfillAuthors(updates, d, u))
  {}

  lemma CreateCarriesRows(t: Tables, p: NewUpdate)
    ensures RowsCarried(t.updates, t.serials, CreateUpdate(t, p).updates) && t.serials <= CreateUpdate(t, p).serials
  {
    if CanCreate(t, p) { NewRowCarries(t.updates, t.serials, p.id, NewRow(p)); }
  }

  lemma SeedCarriesRows(t: Tables, p: SeedUpdateRow)
    ensures RowsCarried(t.updates, t.serials, SeedUpdate(t, p).updates) && t.serials <= SeedUpdate(t, p).serials
  {
    var r := SeedUpdate(t, p);
    if r != t { NewRowCarries(t.updates, t.serials, p.id, r.updates[p.id]); }
  }

  lemma CorrectCarriesRows(t: Tables, k: Correction)
    ensures RowsCarried(t.updates, t.serials, CorrectUpdate(t, k).updates) && CorrectUpdate(t, k).serials == t.serials
  {
    if CorrectionAccepted(k) && CorrectMatches(t, k) {
      EditCarries(t.updates, t.serials, k.id, CorrectedRow(t.updates[k.id], k));
    }
  }

  lemma DeleteCarriesRows(t: Tables, k: Deletion)
    ensures RowsCarried(t.updates, t.serials, DeleteUpdate(t, k).updates) && DeleteUpdate(t, k).serials == t.serials
  {
    if DeleteMatches(t, k) {
      EditCarries(t.updates, t.serials, k.id, t.updates[k.id].(deletedAt := Some(k.now)));
    }
  }

  lemma EraseCarriesRows(t: Tables, a: Account)
    ensures RowsCarried(t.updates, t.serials, DeleteAccount(t, a).updates) && DeleteAccount(t, a).serials == t.serials
  {
    DeletionErasesUpdates(t, a);
    DeletionErasesIdentity(t, a);
  }

  lemma ContentStepCarriesRows(t: Tables, op: Op)
    requires !LeavesUpdates(op) && !op.EraseAccount?
    ensures RowsCarried(t.updates, t.serials, Apply(t, op).updates) && t.serials <= Apply(t, op).serials
  {
    hide RowsCarried, ApplyIdentity, ApplySocial, ApplyCat, ApplyUpdate, LinkDevice, DeleteAccount;
    if op.Link? { LinkCarriesRows(t, op.device, op.user); } else { UpdateOpCarriesRows(t, op); }
  }

  lemma UpdateOpCarriesRows(t: Tables, op: Op)
    requires UpdateOp(op) && !LeavesUpdates(op)
    ensures RowsCarried(t.updates, t.serials, ApplyUpdate(t, op).updates) && t.serials <= ApplyUpdate(t, op).serials
  {
    hide RowsCarried, CreateUpdate, SeedUpdate, CorrectUpdate, DeleteUpdate;
    match op
    case Create(p) => CreateCarriesRows(t, p);
    case Seed(p) => SeedCarriesRows(t, p);
    case Correct(k) => CorrectCarriesRows(t, k);
    case Delete(k) => DeleteCarriesRows(t, k);
  }

  lemma LinkCarriesRows(t: Tables, d: DeviceId, u: UserId)
    ensures RowsCarried(t.updates, t.serials, LinkDevice(t, d, u).updates) && LinkDevice(t, d, u).serials == t.serials
  {
    BackfillCarries(t.updates, t.serials, d, u);
  }

  lemma StepCarriesRows(t: Tables, op: Op)
    ensures RowsCarried(t.updates, t.serials, Apply(t, op).updates) && t.serials <= Apply(t, op).serials
  {
    if op.EraseAccount? {
      hide DeleteAccount, RowsCarried;
      EraseCarriesRows(t, op.account);
    } else {
      hide Apply;
      if LeavesUpdates(op) { UpdatesLeft(t, op); } else { ContentStepCarriesRows(t, op); }
    }
  }

  /** The same row seen at two points of a run: the same id, cat, creation time
      and place in the order, the same author once it had one, and still
      deleted if it was deleted. Serials identify rows because they are never reused. */
  ghost predicate SameHistory(before: Tables, after: Tables) {
    && before.serials <= after.serials
    && (forall x, y ::
          x in before.updates && y in after.updates && before.updates[x].serial == after.updates[y].serial ==>
          x == y && Carried(before.updates[x], after.updates[y]))
  }

  lemma {:induction false} RunKeepsHistory(t: Tables, ops: seq<Op>)
    requires Inv(t)
    ensures SameHistory(t, Run(t, ops))
    decreases |ops|
  {
    hide Apply;
    if ops != [] {
      var mid := Run(t, ops[..|ops| - 1]);
      RunKeepsHistory(t, ops[..|ops| - 1]);
      RunKeepsInv(t, ops[..|ops| - 1]);
      StepCarriesRows(mid, ops[|ops| - 1]);
    }
  }

  /** Every run decomposes at every point, so rows keep their history between any two points of any run. */
  lemma {:induction false} RunSplits(t: Tables, ops: seq<Op>, i: nat)
    requires i <= |ops|
    ensures Run(t, ops) == Run(Run(t, ops[..i]), ops[i..])
    decreases |ops| - i
  {
    hide Apply;
    if i == |ops| {
      assert ops[..i] == ops;
    } else {
      RunSplits(t, ops, i + 1);
      assert ops[..i + 1][..i] == ops[..i];
      PrependStep(Run(t, ops[..i]), ops[i], ops[i + 1..]);
      assert [ops[i]] + ops[i + 1..] == ops[i..];
    }
  }

  lemma {:induction false} PrependStep(t: Tables, op: Op, rest: seq<Op>)
    ensures Run(t, [op] + rest) == Run(Apply(t, op), rest)
    decreases |rest|
  {
    hide Apply;
    if rest == [] {
      assert [op] + rest == [op] && [op][..0] == [];
      assert Run(t, [op][..0]) == t;
    } else {
      var k := |rest| - 1;
      assert ([op] + rest)[..|[op] + rest| - 1] == [op] + rest[..k];
      PrependStep(t, op, rest[..k]);
    }
  }

  lemma HistoryNeverRewritten(ops: seq<Op>, i: nat, j: nat)
    requires i <= j <= |ops|
    ensures SameHistory(Run(EMPTY, ops[..i]), Run(EMPTY, ops[..j]))
  {
    var prefix := ops[..j];
    RunSplits(EMPTY, prefix, i);
    assert prefix[..i] == ops[..i];
    Reachable(ops[..i]);
    RunKeepsHistory(Run(EMPTY, ops[..i]), prefix[i..]);
  }
}
