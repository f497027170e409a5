/** The store's transactions and the account service, statement by statement
    on a mutable database. */
module Stores {
  import opened Sql
  import opened Schema
  import opened Writes
  import opened AccountDeletion
  import opened Corrections
  import opened Collections
  import R = Retries
  import M = Machine
  import L = Linking

  // ---- ListAccountObjectKeys ----

  /** The photo lies in the archive of one of the account's cats. */
  predicate InOwnArchive(t: Tables, u: UserId, m: MediaId) { exists e :: e in t.archive && e.1 == m && Owns(t, u, e.0) }

  function AccountObjectKeys(t: Tables, u: UserId): set<string> {
    set m | m in t.media && (t.media[m].uploader == u || InOwnArchive(t, u, m)) :: t.media[m].objectKey
  }

  /** The keys are those of every deleted media row, plus exactly those of the
      media that other accounts uploaded into the account's cats' archives. */
  lemma KeysAreDeletedPlusArchived(t: Tables, a: Account, k: string)
    ensures k in AccountObjectKeys(t, a.id) <==>
            exists m :: m in t.media && t.media[m].objectKey == k
                        && (m !in DeleteAccount(t, a).media || InOwnArchive(t, a.id, m))
  {
    DeletionErasesBelongings(t, a);
    hide DeleteAccount;
  }

  /** A media row that survives the deletion loses its object exactly when it is in such an archive. */
  lemma SurvivorLosesObjectIff(t: Tables, a: Account, m: MediaId)
    requires MediaUnique(t.media) && m in DeleteAccount(t, a).media
    ensures m in t.media && DeleteAccount(t, a).media[m] == t.media[m]
    ensures t.media[m].objectKey in AccountObjectKeys(t, a.id) <==> InOwnArchive(t, a.id, m)
  {
    DeletionErasesBelongings(t, a);
    hide DeleteAccount;
  }

  function ObjectKeys(media: map<MediaId, Medium>): set<string> { set m | m in media :: media[m].objectKey }

  /** So a deletion that removes all its objects leaves objects and rows in
      balance exactly when no other account's photo is in the account's archives. */
  lemma BalanceKeptIff(t: Tables, a: Account)
    requires MediaUnique(t.media)
    ensures ObjectKeys(t.media) - AccountObjectKeys(t, a.id) == ObjectKeys(DeleteAccount(t, a).media) <==>
            (forall m :: m in t.media && t.media[m].uploader != a.id ==> !InOwnArchive(t, a.id, m))
  {
    DeletionErasesBelongings(t, a);
    var after := DeleteAccount(t, a).media;
    hide DeleteAccount, InOwnArchive;
    var left := ObjectKeys(t.media) - AccountObjectKeys(t, a.id);
    forall k | k in left ensures k in ObjectKeys(after) {
      var m :| m in t.media && t.media[m].objectKey == k;
      assert t.media[m].objectKey !in AccountObjectKeys(t, a.id);
      assert m in after && after[m].objectKey == k;
    }
    if m :| m in t.media && t.media[m].uploader != a.id && InOwnArchive(t, a.id, m) {
      var k := t.media[m].objectKey;
      assert k in AccountObjectKeys(t, a.id) && k !in left;
      assert m in after && after[m].objectKey == k && k in ObjectKeys(after);
    } else {
      forall k | k in ObjectKeys(after) ensures k in left {
        var m :| m in after && after[m].objectKey == k;
        assert m in t.media && t.media[m].objectKey == k && k in ObjectKeys(t.media);
      }
      assert left == ObjectKeys(after);
    }
  }

  /** What a correction or a delete answers; AlreadyDone is a success without effect. */
  datatype Answer = Done | AlreadyDone | InvalidStatuses | NotFound | NotAuthor | WindowExpired | HoldsUpCover

  /** The error each cause becomes; what is no ordinary undeleted row of the cat is not found. */
  function RefusalOf(c: Cause): Answer {
    match c
    case OtherAuthor => NotAuthor
    case WindowClosed => WindowExpired
    case CoversCat => HoldsUpCover
    case _ => NotFound
  }

  /** The answer to a correction with an acceptable status set, over the rows; deleted rows answer like unknown ones. */
  ghost predicate CorrectionAnswered(t: Tables, k: Correction, r: Answer) {
    var a := AttemptOf(k);
    && (r == Done <==> OwnOpen(t, a) && !LeavesHollow(t, k))
    && (r == InvalidStatuses <==> OwnOpen(t, a) && LeavesHollow(t, k))
    && (r == NotAuthor <==> Named(t, a) && t.updates[a.id].kind == Ordinary && t.updates[a.id].author != Some(a.author))
    && (r == WindowExpired <==> Own(t, a) && Live(t.updates[a.id]) && !OwnOpen(t, a))
    && (r == NotFound <==>
          !Named(t, a) || t.updates[a.id].kind == Legacy || (Own(t, a) && !Live(t.updates[a.id])))
    && r != AlreadyDone && r != HoldsUpCover
  }

  /** The same for a delete: only the author's own deleted row answers as already done. */
  ghost predicate DeletionAnswered(t: Tables, k: Deletion, r: Answer) {
    var a := AttemptToDelete(k);
    && (r == Done <==> OwnOpen(t, a) && !IsCover(t, a))
    && (r == HoldsUpCover <==> OwnOpen(t, a) && IsCover(t, a))
    && (r == AlreadyDone <==> Own(t, a) && !Live(t.updates[a.id]))
    && (r == NotAuthor <==> Named(t, a) && t.updates[a.id].kind == Ordinary && t.updates[a.id].author != Some(a.author))
    && (r == WindowExpired <==> Own(t, a) && Live(t.updates[a.id]) && !OwnOpen(t, a))
    && (r == NotFound <==> !Named(t, a) || t.updates[a.id].kind == Legacy)
    && r != InvalidStatuses
  }

  /** The statement matches exactly the caller's open rows that the correction does not hollow out. */
  lemma CorrectionDecided(t: Tables, k: Correction)
    requires Referential(t)
    ensures CorrectMatches(t, k) <==> OwnOpen(t, AttemptOf(k)) && !LeavesHollow(t, k)
    ensures CorrectMatches(t, k) ==> CorrectionAnswered(t, k, Done)
  {
    CorrectionMatchesIffNoCause(t, k);
    DiagnosisExact(t, AttemptOf(k), true);
    hide CorrectMatches, Diagnose, LeavesHollow, Referential;
  }

  lemma CorrectionExplained(t: Tables, k: Correction)
    requires Referential(t) && !CorrectMatches(t, k)
    ensures var d := Diagnose(t, AttemptOf(k), true);
            CorrectionAnswered(t, k, if d.None? then InvalidStatuses else RefusalOf(d.value))
  {
    CorrectionDecided(t, k);
    DiagnosisExact(t, AttemptOf(k), true);
    hide CorrectMatches, Diagnose, LeavesHollow, Referential;
  }

  lemma DeletionExplained(t: Tables, k: Deletion)
    requires Referential(t)
    ensures var d := Diagnose(t, AttemptToDelete(k), false);
            if DeleteMatches(t, k) then DeletionAnswered(t, k, Done)
            else
              && d.Some?
              && DeletionAnswered(t, k, if d.value == AlreadyDeleted then AlreadyDone else RefusalOf(d.value))
  {
    DeleteMatchesIffNoCause(t, k);
    DiagnosisExact(t, AttemptToDelete(k), false);
    hide DeleteMatches, Diagnose, Referential;
  }

  lemma Consistent(t: Tables)
    requires M.Inv(t)
    ensures Referential(t)
  {
    hide Referential, Unique, Attributed, M.WellFormed;
  }

  /** What posting an update answers. */
  datatype Posted = Existing(id: UpdateId) | New | InvalidSet | UnknownCat | UnknownMedia | Broken

  predicate OwnMedium(t: Tables, m: MediaId, author: UserId) { m in t.media && t.media[m].uploader == author }

  /** The constraints that the insert of the row may violate. */
  predicate Insertable(t: Tables, p: NewUpdate) {
    && (p.category.Some? ==> p.needsHelp)
    && p.author in t.users && Refers(p.device, t.devices.Keys)
    && p.id !in t.updates && p.outboxId !in t.outbox && p.serial !in t.serials
  }

  /** What the service has checked before the transaction. */
  ghost predicate Checked(t: Tables, p: NewUpdate) {
    && ValidStatuses(p.statuses, p.needsHelp) && CatExists(t, p.cat, p.author)
    && (p.media.Some? ==> OwnMedium(t, p.media.value, p.author))
  }

  /** The row, each status, last_update_at, the archive entry if there is media, the outbox row. */
  function Statements(p: NewUpdate): nat { |p.statuses| + 3 + if p.media.Some? then 1 else 0 }

  /** The tables after all of them. */
  function Written(t: Tables, p: NewUpdate): Tables {
    var updates := t.updates[p.id := NewRow(p)];
    t.(updates := updates, statuses := t.statuses + StatusRows(p.id, p.statuses),
       archive := if p.media.Some? then t.archive + {(p.cat, p.media.value)} else t.archive,
       outbox := t.outbox[p.outboxId := OutboxRow(p.id, p.cat, None, Eligible(updates, p.id), p.queuedAt)],
       serials := t.serials + {p.serial})
  }

  /** withTx: `fails` is the statement at which the transaction fails, if any;
      everything before it is then rolled back. */
  class Store {
    var db: Tables

    constructor (db: Tables)
      ensures this.db == db
    {
      this.db := db;
    }

    /** Store.DeleteAccount: the keys, then the fifteen statements, all or nothing. No statement
        violates a foreign key. */
    method DeleteAccount(a: Account, fails: Option<nat>) returns (keys: Option<set<string>>)
      requires M.Inv(db)
      modifies this
      ensures M.Inv(db)
      ensures keys == None ==> db == old(db)
      ensures keys.Some? ==>
                db == AccountDeletion.DeleteAccount(old(db), a) && keys.value == AccountObjectKeys(old(db), a.id)
      ensures keys.Some? <==> !(fails.Some? && fails.value < |STEPS|)
    {
      ghost var start := db;
      hide M.Inv, Exec;
      var saved, found := db, AccountObjectKeys(db, a.id);
      var i := 0;
      while i < |STEPS|
        invariant i <= |STEPS| && db == After(start, a, i)
        invariant fails.Some? ==> i <= fails.value
      {
        if fails == Some(i) {
          db := saved;
          return None;
        }
        db := Exec(db, STEPS[i], a);
        i := i + 1;
        ReferencesHold(start, a, i);
        assert Referential(db);
      }
      M.KeptByErase(start, a);
      return Some(found);
    }

    /** GetUpdateByIdempotencyKey */
    method GetUpdateByIdempotencyKey(r: R.Request) returns (found: Option<UpdateId>)
      ensures R.LookupReturns(db.updates, r, found)
    {
      var rest := db.updates.Keys;
      while rest != {}
        invariant rest <= db.updates.Keys
        invariant forall x :: x in db.updates && Keyed(db.updates[x], r.author, r.key) ==> x in rest
        decreases |rest|
      {
        ghost var some := Member(rest);
        var x :| x in rest;
        if Keyed(db.updates[x], r.author, r.key) { return Some(x); }
        rest := rest - {x};
      }
      return None;
    }

    /** CatsService.CreateOrdinaryUpdate with no other write in between: an earlier update with
        the key, else the checks, else the transaction, which `fails` may break at any statement. */
    method CreateOrdinaryUpdate(p: NewUpdate, fails: Option<nat>) returns (r: Posted)
      requires M.Inv(db)
      modifies this
      ensures M.Inv(db)
      ensures r == New ==> db == CreateUpdate(old(db), p)
      ensures r != New ==> db == old(db)
      ensures r == New <==> CanCreate(old(db), p) && !(fails.Some? && fails.value < Statements(p))
      ensures r.Existing? <==> !KeyFree(old(db).updates, p.author, p.key)
      ensures r.Existing? ==> r.id in db.updates && p.key.Some? && Keyed(db.updates[r.id], p.author, p.key.value)
      ensures KeyFree(old(db).updates, p.author, p.key) ==>
                && (r == InvalidSet <==> !ValidStatuses(p.statuses, p.needsHelp))
                && (r == UnknownCat <==>
                      ValidStatuses(p.statuses, p.needsHelp) && !CatExists(old(db), p.cat, p.author))
                && (r == UnknownMedia <==>
                      && ValidStatuses(p.statuses, p.needsHelp) && CatExists(old(db), p.cat, p.author)
                      && p.media.Some? && !OwnMedium(old(db), p.media.value, p.author))
                && (r == Broken <==>
                      && Checked(old(db), p)
                      && (!Insertable(old(db), p) || (fails.Some? && fails.value < Statements(p))))
    {
      hide M.Inv, ValidStatuses, CreateUpdate, Keyed, Insertable;
      AcceptedIff(db, p);
      if p.key.Some? {
        var found := GetUpdateByIdempotencyKey(R.Request(p.author, p.key.value));
        if found.Some? { return Existing(found.value); }
      }
      var ok := ValidateStatusSet(p.statuses, p.needsHelp);
      if !ok { return InvalidSet; }
      if !CatExists(db, p.cat, p.author) { return UnknownCat; }
      if p.media.Some? && !OwnMedium(db, p.media.value, p.author) { return UnknownMedia; }
      ok := InsertUpdate(p, fails);
      return if ok then New else Broken;
    }

    /** Store.CreateOrdinaryUpdate, all or nothing. */
    method InsertUpdate(p: NewUpdate, fails: Option<nat>) returns (ok: bool)
      requires M.Inv(db) && Checked(db, p) && KeyFree(db.updates, p.author, p.key)
      modifies this
      ensures M.Inv(db)
      ensures ok <==> CanCreate(old(db), p) && !(fails.Some? && fails.value < Statements(p))
      ensures db == if ok then CreateUpdate(old(db), p) else old(db)
    {
      hide M.Inv, KeyFree, CanCreate, CreateUpdate, Checked, Insertable, Written;
      CanCreateIff(db, p);
      CreateIsWritten(db, p);
      M.KeptByCreate(db, p);
      var saved := db;
      ok := RunInserts(p, fails);
      if !ok { db := saved; }
    }

    /** The row, its statuses, the cat's last_update_at (not part of the tables here), the archive entry and
        the outbox row. */
    method RunInserts(p: NewUpdate, fails: Option<nat>) returns (ok: bool)
      modifies this
      ensures ok <==> Insertable(old(db), p) && !(fails.Some? && fails.value < Statements(p))
      ensures ok ==> db == Written(old(db), p)
    {
      hide Eligible, Insertable, NewRow, StatusRows;
      if !Insertable(db, p) || fails == Some(0) { return false; }
      db := db.(updates := db.updates[p.id := NewRow(p)], serials := db.serials + {p.serial});
      ok := InsertStatuses(p, fails);
      if ok { ok := InsertReferences(p, fails); }
    }

    /** One row per status; `fails` counts the statements of the whole transaction. */
    method InsertStatuses(p: NewUpdate, fails: Option<nat>) returns (ok: bool)
      requires fails != Some(0)
      modifies this
      ensures ok <==> !(fails.Some? && fails.value <= |p.statuses|)
      ensures ok ==> db == old(db).(statuses := old(db).statuses + StatusRows(p.id, p.statuses))
    {
      ghost var start := db;
      hide StatusRows;
      StatusRowsStart(p.id, p.statuses);
      for j := 0 to |p.statuses|
        invariant db == start.(statuses := start.statuses + StatusRows(p.id, p.statuses[..j]))
        invariant fails.Some? ==> fails.value > j
      {
        if fails == Some(1 + j) { return false; }
        StatusRowsGrow(p.id, p.statuses, j);
        db := db.(statuses := db.statuses + {(p.id, p.statuses[j])});
      }
      assert p.statuses[..|p.statuses|] == p.statuses;
      return true;
    }

    /** last_update_at, then the archive entry, then the outbox row with its frozen eligibility. */
    method InsertReferences(p: NewUpdate, fails: Option<nat>) returns (ok: bool)
      requires p.id in db.updates && !(fails.Some? && fails.value <= |p.statuses|)
      modifies this
      ensures ok <==> !(fails.Some? && fails.value < Statements(p))
      ensures ok ==>
              var t := old(db);
              db == t.(archive := if p.media.Some? then t.archive + {(p.cat, p.media.value)} else t.archive,
                       outbox := t.outbox[p.outboxId :=
                         OutboxRow(p.id, p.cat, None, Eligible(t.updates, p.id), p.queuedAt)])
    {
      hide Eligible;
      var last := |p.statuses| + 1;
      if fails == Some(last) { return false; }
      if p.media.Some? {
        last := last + 1;
        if fails == Some(last) { return false; }
        db := db.(archive := db.archive + {(p.cat, p.media.value)});
      }
      if fails == Some(last + 1) { return false; }
      var eligible := Eligible(db.updates, p.id);
      db := db.(outbox := db.outbox[p.outboxId := OutboxRow(p.id, p.cat, None, eligible, p.queuedAt)]);
      return true;
    }

    /** Store.CreateCatWithMedia: the photo's media row, the cat that names it as cover and its first archive
        entry, all or nothing. */
    method CreateCatWithMedia(c: CatId, id: MediaId, m: Medium, fails: Option<nat>) returns (ok: bool)
      requires M.Inv(db) && m.idempotencyKey.None?
      modifies this
      ensures M.Inv(db)
      ensures ok <==> c !in old(db).cats && CanInsertMedium(old(db), id, m) && !(fails.Some? && fails.value < 3)
      ensures db == if ok then CreateCat(old(db), c, id, m) else old(db)
    {
      hide M.Inv, CanInsertMedium;
      var saved := db;
      M.KeptByCreateCat(db, c, id, m);
      if fails == Some(0) || !CanInsertMedium(db, id, m) { return false; }
      db := db.(media := db.media[id := m]);
      if fails == Some(1) || c in db.cats {
        db := saved;
        return false;
      }
      db := db.(cats := db.cats[c := Cat(Some(m.uploader), m.device, Some(id), Active)]);
      if fails == Some(2) {
        db := saved;
        return false;
      }
      db := db.(archive := db.archive + {(c, id)});
      return true;
    }

    /** CatsService.CorrectOwnUpdate: validate, run the conditional statement, replace the statuses, or explain. */
    method CorrectOwnUpdate(k: Correction) returns (r: Answer)
      requires M.Inv(db)
      modifies this
      ensures M.Inv(db) && db == CorrectUpdate(old(db), k)
      ensures r != Done ==> db == old(db)
      ensures r == InvalidStatuses <==>
              !CorrectionAccepted(k) || (OwnOpen(old(db), AttemptOf(k)) && LeavesHollow(old(db), k))
      ensures CorrectionAccepted(k) ==> CorrectionAnswered(old(db), k, r)
    {
      ghost var start := db;
      hide M.Inv, CorrectMatches, CorrectedRow, CorrectionAnswered, OwnOpen, LeavesHollow;
      assert Referential(db) by { Consistent(db); }
      CorrectionDecided(db, k);
      if k.statuses.Some? {
        var ok := ValidateStatusSet(k.statuses.value, !k.clearNeedsHelp);
        if !ok { return InvalidStatuses; }
      }
      if !CorrectMatches(db, k) {
        r := ExplainCorrection(k);
        return;
      }
      MatchedRowExists(db, k);
      db := db.(updates := db.updates[k.id := CorrectedRow(db.updates[k.id], k)]);
      if k.statuses.Some? {
        var statuses := k.statuses.value;
        db := db.(statuses := WithoutStatuses(db.statuses, k.id));
        ghost var mid := db;
        for j := 0 to |statuses|
          invariant db == mid.(statuses := mid.statuses + StatusRows(k.id, statuses[..j]))
        {
          StatusRowsGrow(k.id, statuses, j);
          db := db.(statuses := db.statuses + {(k.id, statuses[j])});
        }
        assert statuses[..|statuses|] == statuses;
      }
      M.KeptByCorrect(start, k);
      return Done;
    }

    /** resolveCorrectionFailure for a correction: a deleted row is refused, like an unknown one. */
    method ExplainCorrection(k: Correction) returns (r: Answer)
      requires M.Inv(db) && !CorrectMatches(db, k)
      ensures r != Done && CorrectionAnswered(db, k, r)
      ensures r == InvalidStatuses <==> OwnOpen(db, AttemptOf(k)) && LeavesHollow(db, k)
    {
      var d := Diagnose(db, AttemptOf(k), true);
      Consistent(db);
      CorrectionExplained(db, k);
      hide M.Inv, CorrectMatches, Diagnose;
      if d.None? { return InvalidStatuses; }
      return RefusalOf(d.value);
    }

    /** CatsService.DeleteOwnUpdate with no other write in between. */
    method DeleteOwnUpdate(k: Deletion) returns (r: Answer)
      requires M.Inv(db)
      modifies this
      ensures M.Inv(db) && db == DeleteUpdate(old(db), k)
      ensures r != Done ==> db == old(db)
      ensures DeletionAnswered(old(db), k, r)
    {
      hide M.Inv, Diagnose, DeletionAnswered, DeleteWhere;
      Consistent(db);
      DeletionExplained(db, k);
      M.KeptByDelete(db, k);
      if DeleteMatches(db, k) {
        db := db.(updates := db.updates[k.id := db.updates[k.id].(deletedAt := Some(k.now))]);
        return Done;
      }
      var d := Diagnose(db, AttemptToDelete(k), false);
      if d.value == AlreadyDeleted { return AlreadyDone; }
      return RefusalOf(d.value);
    }

    /** AuthService.linkDevice, one statement at a time: (user, cat) stays unique after each of them. */
    method LinkDevice(d: DeviceId, u: UserId) returns (ok: bool)
      requires M.Inv(db)
      modifies this
      ensures M.Inv(db) && db == Writes.LinkDevice(old(db), d, u)
      ensures ok == CanLink(old(db), d, u)
      ensures ok ==>
                L.FollowedBy(db.follows, u) == L.FollowedBy(old(db).follows, u) + L.UnownedFollows(old(db).follows, d)
    {
      ghost var start := db;
      M.KeptByLink(db, d, u);
      L.LinkMergesFollows(db, d, u);
      assert FollowsUnique(db.follows);
      hide M.Inv;
      if d !in db.devices || u !in db.users { return false; }
      var device := db.devices[d];
      if device.user.Some? {
        if device.user.value != u { return false; }
      } else {
        db := db.(devices := db.devices[d := device.(user := Some(u))]);
      }
      M.LinkedFollowsUnique(db.follows, d, u);
      hide FollowsUnique, BackfillFollows, DeleteRedundantFollows, BackfillAuthors;
      db := db.(follows := DeleteRedundantFollows(db.follows, d, u));
      assert FollowsUnique(db.follows);
      db := db.(follows := BackfillFollows(db.follows, d, u));
      assert FollowsUnique(db.follows);
      db := db.(updates := BackfillAuthors(db.updates, d, u));
      assert start.devices[d := start.devices[d].(user := Some(u))] == db.devices;
      return true;
    }
  }

  lemma ReferencesHold(t: Tables, a: Account, i: nat)
    requires M.Inv(t) && i <= |STEPS|
    ensures Referential(After(t, a, i))
  {
    EveryStatementKeepsReferences(t, a, i);
  }

  lemma AcceptedIff(t: Tables, p: NewUpdate)
    ensures CanCreate(t, p) <==> KeyFree(t.updates, p.author, p.key) && Checked(t, p) && Insertable(t, p)
  {
    hide ValidStatuses, CatExists, KeyFree;
  }

  lemma CanCreateIff(t: Tables, p: NewUpdate)
    requires Checked(t, p) && KeyFree(t.updates, p.author, p.key)
    ensures CanCreate(t, p) <==> Insertable(t, p)
  {
    hide ValidStatuses, CatExists, KeyFree;
  }

  lemma CreateIsWritten(t: Tables, p: NewUpdate)
    ensures CanCreate(t, p) ==> CreateUpdate(t, p) == Written(t, p)
  {
    hide Eligible, NewRow, StatusRows, CanCreate;
  }

  lemma StatusRowsStart(u: UpdateId, statuses: seq<string>)
    ensures StatusRows(u, statuses[..0]) == {}
  {}

  lemma StatusRowsGrow(u: UpdateId, statuses: seq<string>, j: nat)
    requires j < |statuses|
    ensures StatusRows(u, statuses[..j + 1]) == StatusRows(u, statuses[..j]) + {(u, statuses[j])}
  {
    assert statuses[..j + 1] == statuses[..j] + [statuses[j]];
  }

  lemma MatchedRowExists(t: Tables, k: Correction)
    requires CorrectMatches(t, k)
    ensures k.id in t.updates
  {}

  /** Accounts over the database and the object store. */
  class AccountsService {
    const store: Store
    var objects: set<string>

    constructor (store: Store, objects: set<string>)
      ensures this.store == store && this.objects == objects
    {
      this.store := store;
      this.objects := objects;
    }

    /** AccountsService.Delete: an absent account is already a success; objects go after the commit,
        one by one, and a failed removal (a key in `stuck`) is only logged. */
    method Delete(u: UserId, now: Time, fails: Option<nat>, stuck: set<string>) returns (ok: bool)
      requires M.Inv(store.db)
      modifies this, store
      ensures M.Inv(store.db)
      ensures ok <==> u !in old(store.db).users || !(fails.Some? && fails.value < |STEPS|)
      ensures !ok ==> store.db == old(store.db) && objects == old(objects)
      ensures ok && u !in old(store.db).users ==> store.db == old(store.db) && objects == old(objects)
      ensures ok && u in old(store.db).users ==>
              && store.db == AccountDeletion.DeleteAccount(old(store.db), Account(u, old(store.db).users[u].phone, now))
                && objects == old(objects) - (AccountObjectKeys(old(store.db), u) - stuck)
    {
      hide M.Inv;
      if u !in store.db.users { return true; }
      var a := Account(u, store.db.users[u].phone, now);
      var keys := store.DeleteAccount(a, fails);
      if keys.None? { return false; }
      ghost var before := objects;
      var rest := keys.value;
      while rest != {}
        invariant rest <= keys.value && objects == before - ((keys.value - rest) - stuck)
        decreases |rest|
        modifies this
      {
        var key :| key in rest;
        rest := rest - {key};
        if key !in stuck { objects := objects - {key}; }
      }
      return true;
    }
  }
}
