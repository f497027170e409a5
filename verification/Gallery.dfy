/** A cat's photo archive and its cover. */
module Gallery {
  import opened Sql
  import opened Schema
  import opened Writes
  import opened AccountDeletion
  import opened Machine
  import opened History

  /** The visibility filter of the archive list: hidden once every update that
      carries the photo is deleted, never hidden if no update carries it. */
  ghost predicate Shown(updates: map<UpdateId, Update>, c: CatId, m: MediaId) {
    || !(exists x :: x in updates && updates[x].cat == c && updates[x].media == Some(m))
    || (exists x :: x in updates && updates[x].cat == c && updates[x].media == Some(m) && Live(updates[x]))
  }

  predicate HasCover(t: Tables, c: CatId, m: MediaId) { c in t.cats && t.cats[c].cover == Some(m) }

  /** A new live row, with any media, hides nothing. */
  lemma NewRowHidesNothing(updates: map<UpdateId, Update>, id: UpdateId, u: Update, c: CatId, m: MediaId)
    requires Shown(updates, c, m) && id !in updates && Live(u)
    ensures Shown(updates[id := u], c, m)
  {
    var after := updates[id := u];
    if x :| x in updates && updates[x].cat == c && updates[x].media == Some(m) && Live(updates[x]) {
      assert x in after && after[x] == updates[x];
    } else if y :| y in after && after[y].cat == c && after[y].media == Some(m) {
      assert y == id;
    }
  }

  /** Rewriting rows hides the photo only by deleting a row that carries it. */
  lemma RewritesHideNothing(updates: map<UpdateId, Update>, after: map<UpdateId, Update>, c: CatId, m: MediaId)
    requires Shown(updates, c, m) && after.Keys == updates.Keys
    requires forall x :: x in updates ==> Rewritten(updates[x], after[x])
    requires forall x :: x in updates && updates[x].cat == c && updates[x].media == Some(m) && Live(updates[x]) ==>
                           Live(after[x])
    ensures Shown(after, c, m)
  {
    if x :| x in updates && updates[x].cat == c && updates[x].media == Some(m) && Live(updates[x]) {
      assert x in after;
    }
  }

  lemma DeleteSparesCover(t: Tables, k: Deletion, c: CatId, m: MediaId)
    requires HasCover(t, c, m) && Shown(t.updates, c, m)
    ensures Shown(DeleteUpdate(t, k).updates, c, m)
  {
    if DeleteMatches(t, k) { RewritesHideNothing(t.updates, DeleteUpdate(t, k).updates, c, m); }
  }

  lemma CorrectSparesCover(t: Tables, k: Correction, c: CatId, m: MediaId)
    requires Shown(t.updates, c, m)
    ensures Shown(CorrectUpdate(t, k).updates, c, m)
  {
    if CorrectionAccepted(k) && CorrectMatches(t, k) {
      RewritesHideNothing(t.updates, CorrectUpdate(t, k).updates, c, m);
    }
  }

  lemma CreateSparesCover(t: Tables, p: NewUpdate, c: CatId, m: MediaId)
    requires Shown(t.updates, c, m)
    ensures Shown(CreateUpdate(t, p).updates, c, m)
  {
    hide Eligible;
    if CanCreate(t, p) { NewRowHidesNothing(t.updates, p.id, NewRow(p), c, m); }
  }

  lemma SeedSparesCover(t: Tables, p: SeedUpdateRow, c: CatId, m: MediaId)
    requires Shown(t.updates, c, m)
    ensures Shown(SeedUpdate(t, p).updates, c, m)
  {
    var r := SeedUpdate(t, p);
    if r != t { NewRowHidesNothing(t.updates, p.id, r.updates[p.id], c, m); }
  }

  lemma LinkSparesCover(t: Tables, d: DeviceId, u: UserId, c: CatId, m: MediaId)
    requires Shown(t.updates, c, m)
    ensures Shown(LinkDevice(t, d, u).updates, c, m)
  {
    if CanLink(t, d, u) { RewritesHideNothing(t.updates, LinkDevice(t, d, u).updates, c, m); }
  }

  /** Erasing an account removes all the updates carrying a photo or none: they share its uploader as author. */
  lemma EraseSparesCover(t: Tables, a: Account, c: CatId, m: MediaId)
    requires Inv(t) && Shown(t.updates, c, m) && c in DeleteAccount(t, a).cats && m in DeleteAccount(t, a).media
    ensures Shown(DeleteAccount(t, a).updates, c, m)
  {
    var after := DeleteAccount(t, a).updates;
    DeletionErasesUpdates(t, a);
    DeletionErasesBelongings(t, a);
    hide DeleteAccount;
    if x :| x in t.updates && t.updates[x].cat == c && t.updates[x].media == Some(m) && Live(t.updates[x]) {
      assert t.updates[x].author == Some(t.media[m].uploader);
      assert x in after;
    }
  }

  lemma CoverStillStored(t: Tables, op: Op, c: CatId, m: MediaId)
    requires Inv(t) && HasCover(Apply(t, op), c, m)
    ensures m in Apply(t, op).media
  {
    KeptByStep(t, op);
    hide Apply;
  }

  lemma ContentStepKeepsCoverShown(t: Tables, op: Op, c: CatId, m: MediaId)
    requires HasCover(t, c, m) && Shown(t.updates, c, m) && !LeavesUpdates(op) && !op.EraseAccount?
    ensures Shown(Apply(t, op).updates, c, m)
  {
    hide Shown, ApplyUpdate, LinkDevice, DeleteAccount, HasCover;
    if op.Link? { LinkSparesCover(t, op.device, op.user, c, m); } else { UpdateOpSparesCover(t, op, c, m); }
  }

  lemma UpdateOpSparesCover(t: Tables, op: Op, c: CatId, m: MediaId)
    requires UpdateOp(op) && !LeavesUpdates(op) && HasCover(t, c, m) && Shown(t.updates, c, m)
    ensures Shown(ApplyUpdate(t, op).updates, c, m)
  {
    hide Shown, CreateUpdate, SeedUpdate, CorrectUpdate, DeleteUpdate;
    match op
    case Create(p) => CreateSparesCover(t, p, c, m);
    case Seed(p) => SeedSparesCover(t, p, c, m);
    case Correct(k) => CorrectSparesCover(t, k, c, m);
    case Delete(k) => DeleteSparesCover(t, k, c, m);
  }

  /** No step of any kind turns the entry of a cover that stays the cover from shown to hidden. */
  lemma StepKeepsCoverShown(t: Tables, op: Op, c: CatId, m: MediaId)
    requires Inv(t) && HasCover(t, c, m) && HasCover(Apply(t, op), c, m) && Shown(t.updates, c, m)
    ensures Shown(Apply(t, op).updates, c, m)
  {
    hide Inv, Shown;
    if op.EraseAccount? {
      hide DeleteAccount;
      CoverStillStored(t, op, c, m);
      EraseSparesCover(t, op.account, c, m);
    } else {
      hide Apply;
      if LeavesUpdates(op) { UpdatesLeft(t, op); } else { ContentStepKeepsCoverShown(t, op, c, m); }
    }
  }

  /** Over a run that never changes the cat's cover, the cover entry stays shown. */
  lemma {:induction false} RunKeepsCoverShown(t: Tables, ops: seq<Op>, c: CatId, m: MediaId)
    requires Inv(t) && Shown(t.updates, c, m)
    requires forall k :: 0 <= k <= |ops| ==> HasCover(Run(t, ops[..k]), c, m)
    ensures Shown(Run(t, ops).updates, c, m)
    decreases |ops|
  {
    hide Inv, Shown, Apply, HasCover;
    if ops != [] {
      var n := |ops| - 1;
      forall k | 0 <= k <= n ensures HasCover(Run(t, ops[..n][..k]), c, m) {
        assert ops[..n][..k] == ops[..k];
      }
      RunKeepsCoverShown(t, ops[..n], c, m);
      RunKeepsInv(t, ops[..n]);
      assert ops[..n + 1] == ops;
      StepKeepsCoverShown(Run(t, ops[..n]), ops[n], c, m);
    }
  }

  /** A cover set through the API lies in the cat's own archive, in every reachable state. */
  lemma CoversAlwaysArchived(ops: seq<Op>, c: CatId, m: MediaId)
    requires HasCover(Run(EMPTY, ops), c, m)
    ensures (c, m) in Run(EMPTY, ops).archive
  {
    Reachable(ops);
    hide Run, Referential, Unique, Attributed;
  }

  lemma CatWritesKeepArchive(t: Tables, op: Op)
    requires CatOp(op)
    ensures t.archive <= ApplyCat(t, op).archive
  {
    hide CanInsertMedium, TargetExists;
  }

  lemma UpdateWritesKeepArchive(t: Tables, op: Op)
    requires UpdateOp(op)
    ensures t.archive <= ApplyUpdate(t, op).archive
  {
    hide CanCreate, Eligible, StatusRows;
  }

  lemma ArchiveUntouched(t: Tables, op: Op)
    requires IdentityOp(op) || SocialOp(op) || op.Link?
    ensures Apply(t, op).archive == t.archive
  {
    hide ApplyIdentity, ApplySocial, ApplyCat, ApplyUpdate, DeleteAccount, BackfillFollows, BackfillAuthors;
  }

  lemma WritesKeepArchive(t: Tables, op: Op)
    requires !op.EraseAccount?
    ensures t.archive <= Apply(t, op).archive
  {
    hide ApplyIdentity, ApplySocial, ApplyCat, ApplyUpdate, LinkDevice, DeleteAccount;
    if CatOp(op) { CatWritesKeepArchive(t, op); }
    else if UpdateOp(op) { UpdateWritesKeepArchive(t, op); }
    else { ArchiveUntouched(t, op); }
  }

  /** An archive entry goes only with its cat or its photo. */
  lemma StepKeepsEntry(t: Tables, op: Op, c: CatId, m: MediaId)
    requires (c, m) in t.archive && c in Apply(t, op).cats && m in Apply(t, op).media
    ensures (c, m) in Apply(t, op).archive
  {
    hide ApplyIdentity, ApplySocial, ApplyCat, ApplyUpdate, LinkDevice, DeleteAccount;
    if op.EraseAccount? { DeletionErasesBelongings(t, op.account); } else { WritesKeepArchive(t, op); }
  }

  /** The step stores a cat or a photo under one of these ids. */
  predicate Mints(op: Op, c: CatId, m: MediaId) {
    || (op.AddMedium? && op.media == m)
    || (op.AddCat? && (op.cat == c || op.media == m))
    || (op.AddSeedCat? && op.cat == c)
  }

  lemma CatWritesMint(t: Tables, op: Op, c: CatId, m: MediaId)
    requires CatOp(op) && !Mints(op, c, m)
    ensures (c in ApplyCat(t, op).cats ==> c in t.cats) && (m in ApplyCat(t, op).media ==> m in t.media)
  {
    hide CanInsertMedium, TargetExists;
  }

  lemma PhotosUntouched(t: Tables, op: Op)
    requires !CatOp(op) && !op.EraseAccount?
    ensures Apply(t, op).cats == t.cats && Apply(t, op).media == t.media
  {
    hide ApplyIdentity, ApplySocial, ApplyCat, ApplyUpdate, DeleteAccount, BackfillFollows, BackfillAuthors;
  }

  lemma OnlyMintingAdds(t: Tables, op: Op, c: CatId, m: MediaId)
    requires !Mints(op, c, m)
    ensures (c in Apply(t, op).cats ==> c in t.cats) && (m in Apply(t, op).media ==> m in t.media)
  {
    hide ApplyIdentity, ApplySocial, ApplyCat, ApplyUpdate, LinkDevice, DeleteAccount, Mints;
    if op.EraseAccount? {
      ErasureAddsNothing(t, op.account, c, m);
    } else if CatOp(op) {
      CatWritesMint(t, op, c, m);
    } else {
      PhotosUntouched(t, op);
    }
  }

  lemma ErasureAddsNothing(t: Tables, a: Account, c: CatId, m: MediaId)
    ensures (c in DeleteAccount(t, a).cats ==> c in t.cats) && (m in DeleteAccount(t, a).media ==> m in t.media)
  {
    hide DeleteAccount;
    DeletionErasesBelongings(t, a);
  }

  /** Ids are not reused, so an archive entry checked at one point of a run still
      exists when the cover is written later, if the cat and the photo do. */
  lemma {:induction false} ArchiveEntriesPersist(t: Tables, ops: seq<Op>, c: CatId, m: MediaId)
    requires (c, m) in t.archive && c in Run(t, ops).cats && m in Run(t, ops).media
    requires forall k :: 0 <= k < |ops| ==> !Mints(ops[k], c, m)
    ensures (c, m) in Run(t, ops).archive
    decreases |ops|
  {
    hide Apply;
    if ops != [] {
      var n := |ops| - 1;
      OnlyMintingAdds(Run(t, ops[..n]), ops[n], c, m);
      ArchiveEntriesPersist(t, ops[..n], c, m);
      StepKeepsEntry(Run(t, ops[..n]), ops[n], c, m);
    }
  }

  // ---- choosing a hidden entry ----

  /** Step k of a run from t creates, successfully, an update of the cat with the photo. */
  ghost predicate RepostedAt(t: Tables, ops: seq<Op>, k: nat, c: CatId, m: MediaId)
    requires k < |ops|
  {
    Reposts(Run(t, ops[..k]), ops[k], c, m)
  }

  ghost predicate Reposts(t: Tables, op: Op, c: CatId, m: MediaId) {
    op.Create? && op.newUpdate.cat == c && op.newUpdate.media == Some(m) && CanCreate(t, op.newUpdate)
  }

  lemma RepostShows(t: Tables, op: Op, c: CatId, m: MediaId)
    requires Reposts(t, op, c, m)
    ensures Shown(Apply(t, op).updates, c, m)
  {
    hide Eligible, ValidStatuses, StatusRows, CatExists;
    var p := op.newUpdate;
    assert Apply(t, op).updates[p.id] == NewRow(p);
  }

  /** Some update carries the photo, and all that do are deleted. */
  lemma HiddenMeans(updates: map<UpdateId, Update>, c: CatId, m: MediaId) returns (x: UpdateId)
    requires !Shown(updates, c, m)
    ensures x in updates && updates[x].cat == c && updates[x].media == Some(m)
    ensures forall y :: y in updates && updates[y].cat == c && updates[y].media == Some(m) ==> !Live(updates[y])
  {
    x :| x in updates && updates[x].cat == c && updates[x].media == Some(m);
  }

  /** A row that carries the photo and stays, and no new or revived live one: still hidden. */
  lemma HiddenStays(before: map<UpdateId, Update>, after: map<UpdateId, Update>, c: CatId, m: MediaId)
    requires !Shown(before, c, m)
    requires forall x :: x in before && before[x].cat == c && before[x].media == Some(m) ==>
                           x in after && after[x].cat == c && after[x].media == Some(m)
    requires forall y :: y in after && after[y].cat == c && after[y].media == Some(m) && Live(after[y]) ==>
                           y in before && before[y].cat == c && before[y].media == Some(m) && Live(before[y])
    ensures !Shown(after, c, m)
  {
    var x := HiddenMeans(before, c, m);
    assert x in after;
  }

  lemma CreateKeepsHidden(t: Tables, p: NewUpdate, c: CatId, m: MediaId)
    requires !Shown(t.updates, c, m) && !Reposts(t, Create(p), c, m)
    ensures !Shown(CreateUpdate(t, p).updates, c, m)
  {
    hide Shown, Eligible, ValidStatuses, StatusRows, CatExists;
    if CanCreate(t, p) { HiddenStays(t.updates, t.updates[p.id := NewRow(p)], c, m); }
  }

  lemma SeedKeepsHidden(t: Tables, p: SeedUpdateRow, c: CatId, m: MediaId)
    requires !Shown(t.updates, c, m)
    ensures !Shown(SeedUpdate(t, p).updates, c, m)
  {
    hide Shown, ValidStatuses, StatusRows;
    HiddenStays(t.updates, SeedUpdate(t, p).updates, c, m);
  }

  lemma EditKeepsHidden(updates: map<UpdateId, Update>, id: UpdateId, u: Update, c: CatId, m: MediaId)
    requires !Shown(updates, c, m) && id in updates && Carried(updates[id], u)
    ensures !Shown(updates[id := u], c, m)
  {
    hide Shown;
    HiddenStays(updates, updates[id := u], c, m);
  }

  lemma CorrectKeepsHidden(t: Tables, k: Correction, c: CatId, m: MediaId)
    requires !Shown(t.updates, c, m)
    ensures !Shown(CorrectUpdate(t, k).updates, c, m)
  {
    hide Shown, CorrectionAccepted, CorrectWhere;
    if CorrectMatches(t, k) { EditKeepsHidden(t.updates, k.id, CorrectedRow(t.updates[k.id], k), c, m); }
  }

  lemma DeleteKeepsHidden(t: Tables, k: Deletion, c: CatId, m: MediaId)
    requires !Shown(t.updates, c, m)
    ensures !Shown(DeleteUpdate(t, k).updates, c, m)
  {
    hide Shown;
    if DeleteMatches(t, k) {
      assert Live(t.updates[k.id]);
      hide DeleteWhere;
      EditKeepsHidden(t.updates, k.id, t.updates[k.id].(deletedAt := Some(k.now)), c, m);
    }
  }

  lemma LinkKeepsHidden(t: Tables, d: DeviceId, u: UserId, c: CatId, m: MediaId)
    requires !Shown(t.updates, c, m)
    ensures !Shown(LinkDevice(t, d, u).updates, c, m)
  {
    hide Shown, BackfillFollows, DeleteRedundantFollows;
    HiddenStays(t.updates, LinkDevice(t, d, u).updates, c, m);
  }

  lemma ContentStepKeepsHidden(t: Tables, op: Op, c: CatId, m: MediaId)
    requires !Shown(t.updates, c, m) && !LeavesUpdates(op) && !op.EraseAccount? && !Reposts(t, op, c, m)
    ensures !Shown(Apply(t, op).updates, c, m)
  {
    hide Shown, Reposts, ApplyUpdate, LinkDevice, DeleteAccount;
    if op.Link? { LinkKeepsHidden(t, op.device, op.user, c, m); } else { UpdateOpKeepsHidden(t, op, c, m); }
  }

  lemma UpdateOpKeepsHidden(t: Tables, op: Op, c: CatId, m: MediaId)
    requires UpdateOp(op) && !LeavesUpdates(op) && !Shown(t.updates, c, m) && !Reposts(t, op, c, m)
    ensures !Shown(ApplyUpdate(t, op).updates, c, m)
  {
    hide Shown, Reposts, CreateUpdate, SeedUpdate, CorrectUpdate, DeleteUpdate;
    match op
    case Create(p) => CreateKeepsHidden(t, p, c, m);
    case Seed(p) => SeedKeepsHidden(t, p, c, m);
    case Correct(k) => CorrectKeepsHidden(t, k, c, m);
    case Delete(k) => DeleteKeepsHidden(t, k, c, m);
  }

  lemma EraseKeepsHidden(t: Tables, a: Account, c: CatId, m: MediaId)
    requires Inv(t) && !Shown(t.updates, c, m) && c in DeleteAccount(t, a).cats && m in DeleteAccount(t, a).media
    ensures !Shown(DeleteAccount(t, a).updates, c, m)
  {
    hide DeleteAccount, Shown, Unique, WellFormed;
    DeletionErasesUpdates(t, a);
    DeletionErasesBelongings(t, a);
    HiddenStays(t.updates, DeleteAccount(t, a).updates, c, m);
  }

  lemma StepKeepsHidden(t: Tables, op: Op, c: CatId, m: MediaId)
    requires Inv(t) && HasCover(Apply(t, op), c, m) && !Shown(t.updates, c, m) && !Reposts(t, op, c, m)
    ensures !Shown(Apply(t, op).updates, c, m)
  {
    hide Inv, Shown;
    if op.EraseAccount? {
      hide DeleteAccount;
      CoverStillStored(t, op, c, m);
      EraseKeepsHidden(t, op.account, c, m);
    } else {
      hide Apply, Reposts;
      if LeavesUpdates(op) { UpdatesLeft(t, op); } else { ContentStepKeepsHidden(t, op, c, m); }
    }
  }

  /** Over a run that keeps the cover, its entry is shown at the end exactly when
      it was shown at the start or some update posted it again. */
  lemma {:induction false} CoverShownIff(t: Tables, ops: seq<Op>, c: CatId, m: MediaId)
    requires Inv(t) && forall k :: 0 <= k <= |ops| ==> HasCover(Run(t, ops[..k]), c, m)
    ensures Shown(Run(t, ops).updates, c, m) <==>
            Shown(t.updates, c, m) || exists k :: 0 <= k < |ops| && RepostedAt(t, ops, k, c, m)
    decreases |ops|
  {
    hide Inv, Shown, Apply, HasCover, Reposts;
    if ops != [] {
      var n := |ops| - 1;
      var rest, mid := ops[..n], Run(t, ops[..n]);
      forall k | 0 <= k <= n ensures rest[..k] == ops[..k] {}
      CoverShownIff(t, rest, c, m);
      RunKeepsInv(t, rest);
      assert ops[..n + 1] == ops;
      assert RepostedAt(t, ops, n, c, m) <==> Reposts(mid, ops[n], c, m);
      assert forall k :: 0 <= k < n ==> (RepostedAt(t, ops, k, c, m) <==> RepostedAt(t, rest, k, c, m));
      if Shown(mid.updates, c, m) {
        StepKeepsCoverShown(mid, ops[n], c, m);
      } else if Reposts(mid, ops[n], c, m) {
        RepostShows(mid, ops[n], c, m);
      } else {
        StepKeepsHidden(mid, ops[n], c, m);
      }
    }
  }

  /** A chosen cover, as long as it stays the cover, is shown exactly when its
      entry was shown when it was chosen or an update has posted it since. */
  lemma ChosenCoverShownIff(t: Tables, c: CatId, u: UserId, m: MediaId, ops: seq<Op>)
    requires Inv(t) && CanSetCover(t, c, u, m)
    requires forall k :: 0 <= k <= |ops| ==> HasCover(Run(SetCover(t, c, u, m), ops[..k]), c, m)
    ensures Shown(Run(SetCover(t, c, u, m), ops).updates, c, m) <==>
            || Shown(t.updates, c, m)
            || exists k :: 0 <= k < |ops| && RepostedAt(SetCover(t, c, u, m), ops, k, c, m)
  {
    hide Inv, Shown, Run;
    KeptBySetCover(t, c, u, m);
    CoverShownIff(SetCover(t, c, u, m), ops, c, m);
  }

  const DELETED_POST := Update(5, Some(1), None, Ordinary, None, 0, 0, false, None, None, None, Some(1), Some(8), None)
  const AFTER_DELETE := EMPTY.(users := map[1 := User("1")],
                               media := map[7 := Medium("a", 1, None, None), 8 := Medium("b", 1, None, None)],
                               cats := map[5 := Cat(Some(1), None, Some(7), Active)], archive := {(5, 7), (5, 8)},
                               updates := map[10 := DELETED_POST], serials := {0})

  lemma AfterDeleteRefers()
    ensures Referential(AFTER_DELETE)
  {}

  lemma AfterDeleteUnique()
    ensures Unique(AFTER_DELETE)
  {}

  lemma AfterDeleteAgrees()
    ensures Attributed(AFTER_DELETE) && WellFormed(AFTER_DELETE)
  {}

  /** A hidden entry is accepted: its only update is deleted, and the owner makes it the cover. */
  lemma HiddenEntryBecomesCover()
    ensures Inv(AFTER_DELETE) && CanSetCover(AFTER_DELETE, 5, 1, 8)
    ensures !Shown(SetCover(AFTER_DELETE, 5, 1, 8).updates, 5, 8)
  {
    hide Referential, Unique, Attributed, WellFormed;
    AfterDeleteRefers();
    AfterDeleteUnique();
    AfterDeleteAgrees();
    assert AFTER_DELETE.updates[10].media == Some(8);
  }
}
