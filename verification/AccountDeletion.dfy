/** Store.DeleteAccount: fifteen statements in one transaction. */
module AccountDeletion {
  import opened Sql
  import opened Schema

  datatype Statement =
    | DeleteNotifications | DeleteOutbox | DeleteUpdateStatuses | DeleteUpdates | DeleteFollows | DeleteReports
    | DeleteBlocks | ClearCovers | DeleteCatMedia | DeleteCats | DeleteMedia | DetachDevices | DeleteRefreshTokens
    | DeleteOtpCodes | DeleteUser

  const STEPS: seq<Statement> := [
    DeleteNotifications, DeleteOutbox, DeleteUpdateStatuses, DeleteUpdates, DeleteFollows, DeleteReports,
    DeleteBlocks, ClearCovers, DeleteCatMedia, DeleteCats, DeleteMedia, DetachDevices, DeleteRefreshTokens,
    DeleteOtpCodes, DeleteUser]

  datatype Account = Account(id: UserId, phone: string, now: Time)

  // ---- the subselects ----

  function DevicesOf(devices: map<DeviceId, Device>, u: UserId): set<DeviceId> {
    set d | d in devices && devices[d].user == Some(u)
  }

  function CatsOf(cats: map<CatId, Cat>, u: UserId): set<CatId> {
    set c | c in cats && cats[c].owner == Some(u)
  }

  function MediaOf(media: map<MediaId, Medium>, u: UserId): set<MediaId> {
    set m | m in media && media[m].uploader == u
  }

  function WrittenBy(updates: map<UpdateId, Update>, u: UserId): set<UpdateId> {
    set x | x in updates && updates[x].author == Some(u)
  }

  /** Updates the account wrote anywhere, or anyone wrote on one of `cats`. */
  function Doomed(updates: map<UpdateId, Update>, cats: set<CatId>, u: UserId): set<UpdateId> {
    set x | x in updates && (updates[x].author == Some(u) || updates[x].cat in cats)
  }

  // ---- what each statement leaves of its table ----

  function KeepNotifications(s: map<NotificationId, Notification>, devices: set<DeviceId>, cats: set<CatId>,
                             updates: set<UpdateId>)
    : map<NotificationId, Notification>
  {
    map n | n in s && !(s[n].device in devices || s[n].cat in cats || s[n].update in updates) :: s[n]
  }

  function KeepOutbox(s: map<OutboxId, OutboxRow>, cats: set<CatId>, updates: set<UpdateId>): map<OutboxId, OutboxRow> {
    map o | o in s && !(s[o].cat in cats || s[o].update in updates) :: s[o]
  }

  function KeepStatuses(s: set<(UpdateId, string)>, updates: set<UpdateId>): set<(UpdateId, string)> {
    set x | x in s && x.0 !in updates
  }

  function KeepFollows(s: set<Follow>, u: UserId, cats: set<CatId>): set<Follow> {
    set f | f in s && !(f.user == Some(u) || f.cat in cats)
  }

  predicate Targets(r: Report, cats: set<CatId>, updates: set<UpdateId>, media: set<MediaId>) {
    match r.target
    case CatTarget(c) => c in cats
    case UpdateTarget(x) => x in updates
    case MediaTarget(m) => m in media
  }

  function KeepReports(s: map<ReportId, Report>, u: UserId, cats: set<CatId>, updates: set<UpdateId>,
                       media: set<MediaId>)
    : map<ReportId, Report>
  {
    map r | r in s && !(s[r].reporter == u || Targets(s[r], cats, updates, media)) :: s[r]
  }

  function KeepBlocks(s: set<(UserId, UserId)>, u: UserId): set<(UserId, UserId)> {
    set b | b in s && !(b.0 == u || b.1 == u)
  }

  function Uncovered(c: Cat, media: set<MediaId>): Cat {
    if c.cover.Some? && c.cover.value in media then c.(cover := None) else c
  }

  function ClearCoversOf(s: map<CatId, Cat>, media: set<MediaId>): map<CatId, Cat> {
    map c | c in s :: Uncovered(s[c], media)
  }

  function KeepArchive(s: set<(CatId, MediaId)>, cats: set<CatId>, media: set<MediaId>): set<(CatId, MediaId)> {
    set e | e in s && !(e.0 in cats || e.1 in media)
  }

  function Detach(s: map<DeviceId, Device>, u: UserId, now: Time): map<DeviceId, Device> {
    map d | d in s :: if s[d].user == Some(u) then s[d].(user := None, revokedAt := Some(now)) else s[d]
  }

  function KeepTokens(s: map<TokenId, RefreshToken>, u: UserId): map<TokenId, RefreshToken> {
    map k | k in s && s[k].user != u :: s[k]
  }

  function KeepOtps(s: map<OtpId, OtpCode>, phone: string): map<OtpId, OtpCode> {
    map o | o in s && s[o].phone != phone :: s[o]
  }

  /** One statement, its subselects evaluated on the tables as they are when it runs. */
  function Exec(t: Tables, s: Statement, a: Account): Tables {
    var u := a.id;
    match s
    case DeleteNotifications =>
      t.(notifications := KeepNotifications(t.notifications, DevicesOf(t.devices, u), CatsOf(t.cats, u),
          WrittenBy(t.updates, u)))
    case DeleteOutbox => t.(outbox := KeepOutbox(t.outbox, CatsOf(t.cats, u), WrittenBy(t.updates, u)))
    case DeleteUpdateStatuses => t.(statuses := KeepStatuses(t.statuses, Doomed(t.updates, CatsOf(t.cats, u), u)))
    case DeleteUpdates => t.(updates := t.updates - Doomed(t.updates, CatsOf(t.cats, u), u))
    case DeleteFollows => t.(follows := KeepFollows(t.follows, u, CatsOf(t.cats, u)))
    case DeleteReports =>
      t.(reports := KeepReports(t.reports, u, CatsOf(t.cats, u), Doomed(t.updates, CatsOf(t.cats, u), u),
          MediaOf(t.media, u)))
    case DeleteBlocks => t.(blocks := KeepBlocks(t.blocks, u))
    case ClearCovers => t.(cats := ClearCoversOf(t.cats, MediaOf(t.media, u)))
    case DeleteCatMedia => t.(archive := KeepArchive(t.archive, CatsOf(t.cats, u), MediaOf(t.media, u)))
    case DeleteCats => t.(cats := t.cats - CatsOf(t.cats, u))
    case DeleteMedia => t.(media := t.media - MediaOf(t.media, u))
    case DetachDevices => t.(devices := Detach(t.devices, u, a.now))
    case DeleteRefreshTokens => t.(tokens := KeepTokens(t.tokens, u))
    case DeleteOtpCodes => t.(otps := KeepOtps(t.otps, a.phone))
    case DeleteUser => t.(users := t.users - {u})
  }

  /** The tables after the first k statements. */
  function After(t: Tables, a: Account, k: nat): Tables
    requires k <= |STEPS|
  {
    if k == 0 then t else Exec(After(t, a, k - 1), STEPS[k - 1], a)
  }

  function DeleteAccount(t: Tables, a: Account): Tables { After(t, a, |STEPS|) }

  // ---- the order-free meaning of the fifteen statements ----

  /** The tables with the first k tables (in statement order) in their final
      form, each filtered by the tables as they were before the deletion.
      Reports against updates are kept: the empty set below. */
  function Mixed(t: Tables, a: Account, k: nat): Tables {
    var u := a.id;
    var devices, cats, media := DevicesOf(t.devices, u), CatsOf(t.cats, u), MediaOf(t.media, u);
    var written, doomed := WrittenBy(t.updates, u), Doomed(t.updates, cats, u);
    t.(notifications := if k >= 1 then KeepNotifications(t.notifications, devices, cats, written) else t.notifications,
       outbox := if k >= 2 then KeepOutbox(t.outbox, cats, written) else t.outbox,
       statuses := if k >= 3 then KeepStatuses(t.statuses, doomed) else t.statuses,
       updates := if k >= 4 then t.updates - doomed else t.updates,
       follows := if k >= 5 then KeepFollows(t.follows, u, cats) else t.follows,
       reports := if k >= 6 then KeepReports(t.reports, u, cats, {}, media) else t.reports,
       blocks := if k >= 7 then KeepBlocks(t.blocks, u) else t.blocks,
       cats := if k >= 10 then ClearCoversOf(t.cats, media) - cats else if k >= 8 then ClearCoversOf(t.cats, media)
           else t.cats,
       archive := if k >= 9 then KeepArchive(t.archive, cats, media) else t.archive,
       media := if k >= 11 then t.media - media else t.media,
       devices := if k >= 12 then Detach(t.devices, u, a.now) else t.devices,
       tokens := if k >= 13 then KeepTokens(t.tokens, u) else t.tokens,
       otps := if k >= 14 then KeepOtps(t.otps, a.phone) else t.otps,
       users := if k >= 15 then t.users - {u} else t.users)
  }

  /** Everything the deletion removes, all tables at once: no statement order, no intermediate state. */
  function Purged(t: Tables, a: Account): Tables { Mixed(t, a, 15) }

  lemma ClearingKeepsOwners(cats: map<CatId, Cat>, media: set<MediaId>, u: UserId)
    ensures CatsOf(ClearCoversOf(cats, media), u) == CatsOf(cats, u)
  {
    assert forall c :: c in CatsOf(ClearCoversOf(cats, media), u) <==> c in CatsOf(cats, u);
  }

  lemma NothingDoomedTwice(updates: map<UpdateId, Update>, cats: set<CatId>, u: UserId)
    ensures Doomed(updates - Doomed(updates, cats, u), cats, u) == {}
  {}

  lemma ContentStatements(t: Tables, a: Account)
    ensures Exec(Mixed(t, a, 0), DeleteNotifications, a) == Mixed(t, a, 1)
    ensures Exec(Mixed(t, a, 1), DeleteOutbox, a) == Mixed(t, a, 2)
    ensures Exec(Mixed(t, a, 2), DeleteUpdateStatuses, a) == Mixed(t, a, 3)
    ensures Exec(Mixed(t, a, 3), DeleteUpdates, a) == Mixed(t, a, 4)
    ensures Exec(Mixed(t, a, 4), DeleteFollows, a) == Mixed(t, a, 5)
  {
    hide DevicesOf, CatsOf, MediaOf, WrittenBy, Doomed, KeepNotifications, KeepOutbox, KeepStatuses, KeepFollows;
    hide KeepReports, KeepBlocks, ClearCoversOf, KeepArchive, Detach, KeepTokens, KeepOtps;
  }

  lemma ReferenceStatements(t: Tables, a: Account)
    ensures Exec(Mixed(t, a, 5), DeleteReports, a) == Mixed(t, a, 6)
    ensures Exec(Mixed(t, a, 6), DeleteBlocks, a) == Mixed(t, a, 7)
    ensures Exec(Mixed(t, a, 7), ClearCovers, a) == Mixed(t, a, 8)
    ensures Exec(Mixed(t, a, 8), DeleteCatMedia, a) == Mixed(t, a, 9)
  {
    hide DevicesOf, CatsOf, MediaOf, WrittenBy, Doomed, KeepNotifications, KeepOutbox, KeepStatuses, KeepFollows;
    hide KeepReports, KeepBlocks, ClearCoversOf, KeepArchive, Detach, KeepTokens, KeepOtps;
    NothingDoomedTwice(t.updates, CatsOf(t.cats, a.id), a.id);
    ClearingKeepsOwners(t.cats, MediaOf(t.media, a.id), a.id);
  }

  lemma OwnershipStatements(t: Tables, a: Account)
    ensures Exec(Mixed(t, a, 9), DeleteCats, a) == Mixed(t, a, 10)
    ensures Exec(Mixed(t, a, 10), DeleteMedia, a) == Mixed(t, a, 11)
    ensures Exec(Mixed(t, a, 11), DetachDevices, a) == Mixed(t, a, 12)
  {
    hide DevicesOf, CatsOf, MediaOf, WrittenBy, Doomed, KeepNotifications, KeepOutbox, KeepStatuses, KeepFollows;
    hide KeepReports, KeepBlocks, ClearCoversOf, KeepArchive, Detach, KeepTokens, KeepOtps;
    ClearingKeepsOwners(t.cats, MediaOf(t.media, a.id), a.id);
  }

  lemma IdentityStatements(t: Tables, a: Account)
    ensures Exec(Mixed(t, a, 12), DeleteRefreshTokens, a) == Mixed(t, a, 13)
    ensures Exec(Mixed(t, a, 13), DeleteOtpCodes, a) == Mixed(t, a, 14)
    ensures Exec(Mixed(t, a, 14), DeleteUser, a) == Mixed(t, a, 15)
  {
    hide DevicesOf, CatsOf, MediaOf, WrittenBy, Doomed, KeepNotifications, KeepOutbox, KeepStatuses, KeepFollows;
    hide KeepReports, KeepBlocks, ClearCoversOf, KeepArchive, Detach, KeepTokens, KeepOtps;
  }

  lemma StatementIsMixed(t: Tables, a: Account, k: nat)
    requires 0 < k <= 15
    ensures Exec(Mixed(t, a, k - 1), STEPS[k - 1], a) == Mixed(t, a, k)
  {
    hide Exec, Mixed;
    if k <= 5 { ContentStatements(t, a); }
    else if k <= 9 { ReferenceStatements(t, a); }
    else if k <= 12 { OwnershipStatements(t, a); }
    else { IdentityStatements(t, a); }
  }

  lemma NothingMixed(t: Tables, a: Account)
    ensures Mixed(t, a, 0) == t
  {}

  lemma {:induction false} PrefixIsMixed(t: Tables, a: Account, k: nat)
    requires k <= 15
    ensures After(t, a, k) == Mixed(t, a, k)
  {
    hide Exec, Mixed;
    if k == 0 {
      NothingMixed(t, a);
    } else {
      PrefixIsMixed(t, a, k - 1);
      StatementIsMixed(t, a, k);
    }
  }

  /** The statement sequence computes exactly the order-free deletion, on any tables. */
  lemma DeleteAccountIsPurge(t: Tables, a: Account)
    ensures DeleteAccount(t, a) == Purged(t, a)
  {
    PrefixIsMixed(t, a, 15);
  }

  // ---- foreign-key safety of every prefix ----

  lemma DevicesStay(t: Tables, a: Account, k: nat)
    requires k <= 15 && DevicesRefer(t.devices, t.users.Keys)
    ensures var m := Mixed(t, a, k); DevicesRefer(m.devices, m.users.Keys)
  {}

  lemma TokensStay(t: Tables, a: Account, k: nat)
    requires k <= 15 && TokensRefer(t.tokens, t.users.Keys)
    ensures var m := Mixed(t, a, k); TokensRefer(m.tokens, m.users.Keys)
  {}

  lemma MediaStay(t: Tables, a: Account, k: nat)
    requires k <= 15 && MediaRefer(t.media, t.users.Keys, t.devices.Keys)
    ensures var m := Mixed(t, a, k); MediaRefer(m.media, m.users.Keys, m.devices.Keys)
  {}

  lemma CatsStay(t: Tables, a: Account, k: nat)
    requires k <= 15 && CatsRefer(t.cats, t.users.Keys, t.devices.Keys, t.media.Keys)
    ensures var m := Mixed(t, a, k); CatsRefer(m.cats, m.users.Keys, m.devices.Keys, m.media.Keys)
  {
    if k < 8 { CatsStayUntouched(t, a, k); } else if k < 10 { CatsStayUncovered(t, a, k); }
    else { CatsStayDeleted(t, a, k); }
  }

  lemma CatsStayUntouched(t: Tables, a: Account, k: nat)
    requires k < 8 && CatsRefer(t.cats, t.users.Keys, t.devices.Keys, t.media.Keys)
    ensures var m := Mixed(t, a, k); CatsRefer(m.cats, m.users.Keys, m.devices.Keys, m.media.Keys)
  {}

  lemma CatsStayUncovered(t: Tables, a: Account, k: nat)
    requires 8 <= k < 10 && CatsRefer(t.cats, t.users.Keys, t.devices.Keys, t.media.Keys)
    ensures var m := Mixed(t, a, k); CatsRefer(m.cats, m.users.Keys, m.devices.Keys, m.media.Keys)
  {}

  lemma CatsStayDeleted(t: Tables, a: Account, k: nat)
    requires 10 <= k <= 15 && CatsRefer(t.cats, t.users.Keys, t.devices.Keys, t.media.Keys)
    ensures var m := Mixed(t, a, k); CatsRefer(m.cats, m.users.Keys, m.devices.Keys, m.media.Keys)
  {}

  lemma ArchiveStays(t: Tables, a: Account, k: nat)
    requires k <= 15 && ArchiveRefers(t.archive, t.cats.Keys, t.media.Keys)
    ensures var m := Mixed(t, a, k); ArchiveRefers(m.archive, m.cats.Keys, m.media.Keys)
  {}

  lemma TraitsStay(t: Tables, a: Account, k: nat)
    requires k <= 15 && TraitsRefer(t.traits, t.cats.Keys)
    ensures var m := Mixed(t, a, k); k <= 9 || TraitsOwnerless(t.traits, t.cats) ==> TraitsRefer(m.traits, m.cats.Keys)
  {}

  lemma UpdatesStay(t: Tables, a: Account, k: nat)
    requires k <= 15 && UpdatesRefer(t.updates, t.cats.Keys, t.users.Keys, t.devices.Keys, t.media.Keys)
             && MediaByAuthor(t.updates, t.media)
    ensures var m := Mixed(t, a, k); UpdatesRefer(m.updates, m.cats.Keys, m.users.Keys, m.devices.Keys, m.media.Keys)
  {}

  lemma StatusesStay(t: Tables, a: Account, k: nat)
    requires k <= 15 && StatusesRefer(t.statuses, t.updates.Keys)
    ensures var m := Mixed(t, a, k); StatusesRefer(m.statuses, m.updates.Keys)
  {}

  lemma OutboxStays(t: Tables, a: Account, k: nat)
    requires k <= 15 && OutboxRefers(t.outbox, t.updates.Keys, t.cats.Keys) && OutboxAgrees(t.outbox, t.updates)
    ensures var m := Mixed(t, a, k); OutboxRefers(m.outbox, m.updates.Keys, m.cats.Keys)
  {}

  lemma NotificationsStay(t: Tables, a: Account, k: nat)
    requires k <= 15 && NotificationsRefer(t.notifications, t.devices.Keys, t.cats.Keys, t.updates.Keys)
             && NotificationsAgree(t.notifications, t.updates)
    ensures var m := Mixed(t, a, k); NotificationsRefer(m.notifications, m.devices.Keys, m.cats.Keys, m.updates.Keys)
  {}

  lemma FollowsStay(t: Tables, a: Account, k: nat)
    requires k <= 15 && FollowsRefer(t.follows, t.users.Keys, t.devices.Keys, t.cats.Keys)
    ensures var m := Mixed(t, a, k); FollowsRefer(m.follows, m.users.Keys, m.devices.Keys, m.cats.Keys)
  {}

  lemma ReportsAndBlocksStay(t: Tables, a: Account, k: nat)
    requires k <= 15 && ReportsRefer(t.reports, t.users.Keys) && BlocksRefer(t.blocks, t.users.Keys)
    ensures var m := Mixed(t, a, k); ReportsRefer(m.reports, m.users.Keys) && BlocksRefer(m.blocks, m.users.Keys)
  {}

  /** Every statement leaves every foreign key intact, so the transaction never fails on one. */
  lemma EveryStatementKeepsReferences(t: Tables, a: Account, k: nat)
    requires k <= |STEPS|
    requires Referential(t) && Attributed(t)
    ensures Referential(After(t, a, k))
  {
    PrefixIsMixed(t, a, k);
    DevicesStay(t, a, k); TokensStay(t, a, k); MediaStay(t, a, k); CatsStay(t, a, k); ArchiveStays(t, a, k);
    TraitsStay(t, a, k); UpdatesStay(t, a, k); StatusesStay(t, a, k); OutboxStays(t, a, k);
    NotificationsStay(t, a, k); FollowsStay(t, a, k); ReportsAndBlocksStay(t, a, k);
  }

  /** The traits condition is exact: with a trait on one of the account's own
      cats the delete-cats statement breaks a foreign key, and nothing earlier does. */
  lemma TraitsDecideDeletion(t: Tables, a: Account)
    requires Referential(t) && OutboxAgrees(t.outbox, t.updates) && NotificationsAgree(t.notifications, t.updates)
             && MediaByAuthor(t.updates, t.media)
    ensures Referential(After(t, a, 9))
    ensures Referential(After(t, a, 10)) <==> (forall e :: e in t.traits ==> t.cats[e.0].owner != Some(a.id))
  {
    PrefixIsMixed(t, a, 9);
    PrefixIsMixed(t, a, 10);
    forall k: nat | 9 <= k <= 10
      ensures var m := Mixed(t, a, k); Referential(Mixed(t, a, k)) <==> TraitsRefer(m.traits, m.cats.Keys)
    {
      DevicesStay(t, a, k); TokensStay(t, a, k); MediaStay(t, a, k); CatsStay(t, a, k); ArchiveStays(t, a, k);
      UpdatesStay(t, a, k); StatusesStay(t, a, k); OutboxStays(t, a, k);
      NotificationsStay(t, a, k); FollowsStay(t, a, k); ReportsAndBlocksStay(t, a, k);
    }
    TraitsStay(t, a, 9);
    assert forall e :: e in t.traits ==> (e.0 in Mixed(t, a, 10).cats <==> t.cats[e.0].owner != Some(a.id));
  }

  // ---- exactly what is removed ----

  predicate Owns(t: Tables, u: UserId, c: CatId) { c in t.cats && t.cats[c].owner == Some(u) }
  predicate Wrote(t: Tables, u: UserId, x: UpdateId) { x in t.updates && t.updates[x].author == Some(u) }
  predicate Uploaded(t: Tables, u: UserId, m: MediaId) { m in t.media && t.media[m].uploader == u }
  predicate Linked(t: Tables, u: UserId, d: DeviceId) { d in t.devices && t.devices[d].user == Some(u) }

  /** Updates and their statuses: a row goes exactly when the account wrote the update or owns its cat. */
  ghost predicate UpdatesErased(t: Tables, r: Tables, u: UserId) {
    && (forall x :: x in r.updates <==>
          x in t.updates && t.updates[x].author != Some(u) && !Owns(t, u, t.updates[x].cat))
    && (forall x :: x in r.updates ==> r.updates[x] == t.updates[x])
    && (forall s :: s in r.statuses <==> s in t.statuses && !(s.0 in t.updates && s.0 !in r.updates))
  }

  /** Queued notifications: gone exactly with their cat or their author. */
  ghost predicate OutboxErased(t: Tables, r: Tables, u: UserId) {
    && (forall o :: o in r.outbox <==>
          o in t.outbox && !Owns(t, u, t.outbox[o].cat) && !Wrote(t, u, t.outbox[o].update))
    && (forall o :: o in r.outbox ==> r.outbox[o] == t.outbox[o])
  }

  /** Delivered notifications: gone exactly with their device's account, their cat or their update's author. */
  ghost predicate NotificationsErased(t: Tables, r: Tables, u: UserId) {
    && (forall n :: n in r.notifications <==>
          (n in t.notifications && !Linked(t, u, t.notifications[n].device)
           && !Owns(t, u, t.notifications[n].cat) && !Wrote(t, u, t.notifications[n].update)))
    && (forall n :: n in r.notifications ==> r.notifications[n] == t.notifications[n])
  }

  ghost predicate FollowsErased(t: Tables, r: Tables, u: UserId) {
    forall f :: f in r.follows <==> f in t.follows && f.user != Some(u) && !Owns(t, u, f.cat)
  }

  /** Cats, archive and media. Another owner's cat survives and loses at most its cover. */
  ghost predicate BelongingsErased(t: Tables, r: Tables, u: UserId) {
    && (forall c :: c in r.cats <==> c in t.cats && t.cats[c].owner != Some(u))
    && (forall c :: c in r.cats ==>
          r.cats[c] == if t.cats[c].cover.Some? && Uploaded(t, u, t.cats[c].cover.value) then t.cats[c].(cover := None)
              else t.cats[c])
    && (forall e :: e in r.archive <==> e in t.archive && !Owns(t, u, e.0) && !Uploaded(t, u, e.1))
    && (forall m :: m in r.media <==> m in t.media && t.media[m].uploader != u)
    && (forall m :: m in r.media ==> r.media[m] == t.media[m])
  }

  /** Identity: devices survive as unlinked, revoked installations. */
  ghost predicate IdentityErased(t: Tables, r: Tables, a: Account) {
    && r.users == t.users - {a.id}
    && r.devices.Keys == t.devices.Keys
    && (forall d :: d in r.devices ==>
          r.devices[d] == if Linked(t, a.id, d) then t.devices[d].(user := None, revokedAt := Some(a.now))
              else t.devices[d])
    && (forall k :: k in r.tokens <==> k in t.tokens && t.tokens[k].user != a.id)
    && (forall k :: k in r.tokens ==> r.tokens[k] == t.tokens[k])
    && (forall o :: o in r.otps <==> o in t.otps && t.otps[o].phone != a.phone)
    && (forall o :: o in r.otps ==> r.otps[o] == t.otps[o])
    && (forall b :: b in r.blocks <==> b in t.blocks && b.0 != a.id && b.1 != a.id)
    && r.traits == t.traits && r.serials == t.serials
  }

  lemma FinalTables(t: Tables, a: Account) returns (d: Tables)
    ensures d == DeleteAccount(t, a)
    ensures var u := a.id;
            var devices, cats, media, written := DevicesOf(t.devices, u), CatsOf(t.cats, u), MediaOf(t.media, u),
                WrittenBy(t.updates, u);
            && d.notifications == KeepNotifications(t.notifications, devices, cats, written)
            && d.outbox == KeepOutbox(t.outbox, cats, written)
            && d.statuses == KeepStatuses(t.statuses, Doomed(t.updates, cats, u))
            && d.updates == t.updates - Doomed(t.updates, cats, u)
            && d.follows == KeepFollows(t.follows, u, cats)
            && d.reports == KeepReports(t.reports, u, cats, {}, media)
            && d.blocks == KeepBlocks(t.blocks, u)
            && d.cats == ClearCoversOf(t.cats, media) - cats
            && d.archive == KeepArchive(t.archive, cats, media)
            && d.media == t.media - media
            && d.devices == Detach(t.devices, u, a.now)
            && d.tokens == KeepTokens(t.tokens, u)
            && d.otps == KeepOtps(t.otps, a.phone)
            && d.users == t.users - {u}
            && d.traits == t.traits && d.serials == t.serials
  {
    d := DeleteAccount(t, a);
    DeleteAccountIsPurge(t, a);
  }

  lemma DeletionErasesUpdates(t: Tables, a: Account)
    ensures UpdatesErased(t, DeleteAccount(t, a), a.id)
  {
    var d := FinalTables(t, a);
    assert UpdatesErased(t, d, a.id);
  }

  lemma DeletionErasesOutbox(t: Tables, a: Account)
    ensures OutboxErased(t, DeleteAccount(t, a), a.id)
  {
    var d := FinalTables(t, a);
    assert OutboxErased(t, d, a.id);
  }

  lemma DeletionErasesNotifications(t: Tables, a: Account)
    ensures NotificationsErased(t, DeleteAccount(t, a), a.id)
  {
    var d := FinalTables(t, a);
    assert NotificationsErased(t, d, a.id);
  }

  lemma DeletionErasesFollows(t: Tables, a: Account)
    ensures FollowsErased(t, DeleteAccount(t, a), a.id)
  {
    var d := FinalTables(t, a);
    assert FollowsErased(t, d, a.id);
  }

  lemma DeletionErasesBelongings(t: Tables, a: Account)
    ensures BelongingsErased(t, DeleteAccount(t, a), a.id)
  {
    var d := FinalTables(t, a);
    assert BelongingsErased(t, d, a.id);
  }

  lemma DeletionErasesIdentity(t: Tables, a: Account)
    ensures IdentityErased(t, DeleteAccount(t, a), a)
  {
    var d := FinalTables(t, a);
    assert IdentityErased(t, d, a);
  }

  /** No row of any table names the account. */
  ghost predicate Unnamed(t: Tables, u: UserId) {
    && u !in t.users
    && (forall d :: d in t.devices ==> t.devices[d].user != Some(u))
    && (forall k :: k in t.tokens ==> t.tokens[k].user != u)
    && (forall m :: m in t.media ==> t.media[m].uploader != u)
    && (forall c :: c in t.cats ==> t.cats[c].owner != Some(u))
    && (forall x :: x in t.updates ==> t.updates[x].author != Some(u))
    && (forall f :: f in t.follows ==> f.user != Some(u))
    && (forall r :: r in t.reports ==> t.reports[r].reporter != u)
    && (forall b :: b in t.blocks ==> b.0 != u && b.1 != u)
  }

  lemma NoTraceRemains(t: Tables, a: Account)
    ensures Unnamed(DeleteAccount(t, a), a.id)
    ensures forall o :: o in DeleteAccount(t, a).otps ==> DeleteAccount(t, a).otps[o].phone != a.phone
  {
    DeletionErasesUpdates(t, a);
    DeletionErasesFollows(t, a);
    DeletionErasesBelongings(t, a);
    DeletionErasesIdentity(t, a);
    forall r | r in DeleteAccount(t, a).reports ensures DeleteAccount(t, a).reports[r].reporter != a.id {
      ReportersErased(t, a, r);
    }
  }

  lemma ReportersErased(t: Tables, a: Account, r: ReportId)
    requires r in DeleteAccount(t, a).reports
    ensures r in t.reports && DeleteAccount(t, a).reports[r] == t.reports[r] && t.reports[r].reporter != a.id
  {
    DeleteAccountIsPurge(t, a);
  }

  /** A second run finds nothing to do, whatever its clock says. */
  lemma SecondRunIsNoop(t: Tables, a: Account, later: Time)
    ensures DeleteAccount(DeleteAccount(t, a), a.(now := later)) == DeleteAccount(t, a)
  {
    var r := DeleteAccount(t, a);
    NoTraceRemains(t, a);
    NoTraceMeansNoop(r, a.(now := later));
  }

  lemma NoTraceMeansNoop(t: Tables, a: Account)
    requires Unnamed(t, a.id) && (forall o :: o in t.otps ==> t.otps[o].phone != a.phone)
    ensures DeleteAccount(t, a) == t
  {
    NothingSelected(t.devices, t.cats, t.media, t.updates, a.id);
    NoContentFiltered(t.notifications, t.outbox, t.statuses, t.follows, t.reports, a.id);
    NoBelongingsFiltered(t.cats, t.archive, t.blocks, a.id);
    NoIdentityFiltered(t.devices, t.tokens, t.otps, t.users, a);
    DeleteAccountIsPurge(t, a);
  }

  lemma NothingSelected(devices: map<DeviceId, Device>, cats: map<CatId, Cat>, media: map<MediaId, Medium>,
                        updates: map<UpdateId, Update>, u: UserId)
    requires forall d :: d in devices ==> devices[d].user != Some(u)
    requires forall c :: c in cats ==> cats[c].owner != Some(u)
    requires forall m :: m in media ==> media[m].uploader != u
    requires forall x :: x in updates ==> updates[x].author != Some(u)
    ensures DevicesOf(devices, u) == {} && CatsOf(cats, u) == {} && MediaOf(media, u) == {}
    ensures WrittenBy(updates, u) == {} && Doomed(updates, {}, u) == {}
    ensures cats - {} == cats && media - {} == media && updates - {} == updates
  {
    assert forall d :: d !in DevicesOf(devices, u);
    assert forall c :: c !in CatsOf(cats, u);
    assert forall m :: m !in MediaOf(media, u);
    assert forall x :: x !in WrittenBy(updates, u) && x !in Doomed(updates, {}, u);
  }

  lemma NoContentFiltered(notifications: map<NotificationId, Notification>, outbox: map<OutboxId, OutboxRow>,
                          statuses: set<(UpdateId, string)>, follows: set<Follow>, reports: map<ReportId, Report>,
                          u: UserId)
    requires forall f :: f in follows ==> f.user != Some(u)
    requires forall r :: r in reports ==> reports[r].reporter != u
    ensures KeepNotifications(notifications, {}, {}, {}) == notifications
    ensures KeepOutbox(outbox, {}, {}) == outbox && KeepStatuses(statuses, {}) == statuses
    ensures KeepFollows(follows, u, {}) == follows && KeepReports(reports, u, {}, {}, {}) == reports
  {
    assert forall r :: r in KeepReports(reports, u, {}, {}, {}) <==> r in reports;
  }

  lemma NoBelongingsFiltered(cats: map<CatId, Cat>, archive: set<(CatId, MediaId)>, blocks: set<(UserId, UserId)>,
                             u: UserId)
    requires forall b :: b in blocks ==> b.0 != u && b.1 != u
    ensures ClearCoversOf(cats, {}) == cats && KeepArchive(archive, {}, {}) == archive
            && KeepBlocks(blocks, u) == blocks
  {
    assert forall c :: c in cats ==> Uncovered(cats[c], {}) == cats[c];
    assert forall c :: c in ClearCoversOf(cats, {}) <==> c in cats;
  }

  lemma NoIdentityFiltered(devices: map<DeviceId, Device>, tokens: map<TokenId, RefreshToken>,
                           otps: map<OtpId, OtpCode>,
                           users: map<UserId, User>, a: Account)
    requires a.id !in users
    requires forall d :: d in devices ==> devices[d].user != Some(a.id)
    requires forall k :: k in tokens ==> tokens[k].user != a.id
    requires forall o :: o in otps ==> otps[o].phone != a.phone
    ensures Detach(devices, a.id, a.now) == devices && KeepTokens(tokens, a.id) == tokens
    ensures KeepOtps(otps, a.phone) == otps && users - {a.id} == users
  {
    assert forall d :: d in Detach(devices, a.id, a.now) <==> d in devices;
    assert forall d :: d in devices ==> Detach(devices, a.id, a.now)[d] == devices[d];
    assert forall k :: k in KeepTokens(tokens, a.id) <==> k in tokens;
    assert forall o :: o in KeepOtps(otps, a.phone) <==> o in otps;
    assert forall x :: x in users - {a.id} <==> x in users;
  }

  // ---- reports ----

  /** DeleteAccountReports runs after the updates are gone, so its update
      subselect is always empty: a report survives exactly when another account
      filed it and its target is not one of the account's cats or media. */
  lemma ReportsKept(t: Tables, a: Account, r: ReportId)
    requires r in t.reports
    ensures r in DeleteAccount(t, a).reports <==>
            t.reports[r].reporter != a.id && (match t.reports[r].target
                                              case CatTarget(c) => !Owns(t, a.id, c)
                                              case UpdateTarget(_) => true
                                              case MediaTarget(m) => !Uploaded(t, a.id, m))
    ensures r in DeleteAccount(t, a).reports ==> DeleteAccount(t, a).reports[r] == t.reports[r]
  {
    DeleteAccountIsPurge(t, a);
  }

  /** When the targets existed before, a surviving report loses its target
      exactly when it names an update that the deletion removed. */
  lemma ReportsLeftBehind(t: Tables, a: Account, r: ReportId)
    requires r in t.reports && TargetExists(t, t.reports[r].target)
    ensures var d := DeleteAccount(t, a);
            r in d.reports && !TargetExists(d, t.reports[r].target) <==>
            t.reports[r].reporter != a.id && t.reports[r].target.UpdateTarget?
            && t.reports[r].target.update in Doomed(t.updates, CatsOf(t.cats, a.id), a.id)
  {
    ReportsKept(t, a, r);
    DeletionErasesUpdates(t, a);
    DeletionErasesBelongings(t, a);
  }
}
