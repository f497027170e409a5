/** Every run of the backend's writes, account deletion included, keeps the
    references, the unique indexes and the cross-table facts. */
module Machine {
  import opened Sql
  import opened Schema
  import opened Writes
  import opened AccountDeletion

  /** One committed write. */
  datatype Op =
    | AddUser(user: UserId, phone: string)
    | AddDevice(device: DeviceId)
    | PushToken(device: DeviceId, token: string)
    | RetirePushToken(device: DeviceId, token: string)
    | Revoke(device: DeviceId, now: Time)
    | Link(device: DeviceId, user: UserId)
    | Unlink(device: DeviceId, user: UserId)
    | AddFollow(user: UserId, via: Option<DeviceId>, cat: CatId)
    | AddGuestFollow(device: DeviceId, cat: CatId)
    | RemoveFollow(user: UserId, cat: CatId)
    | AddMedium(media: MediaId, medium: Medium)
    | AddCat(cat: CatId, media: MediaId, medium: Medium)
    | AddSeedCat(cat: CatId)
    | AddSeedTrait(cat: CatId, traitKey: string)
    | Create(newUpdate: NewUpdate)
    | Seed(seeded: SeedUpdateRow)
    | Correct(correction: Correction)
    | Delete(deletion: Deletion)
    | ChangeCover(cat: CatId, user: UserId, media: MediaId)
    | RemoveCat(cat: CatId, user: UserId)
    | AddNotification(notification: NotificationId, device: DeviceId, outbox: OutboxId, now: Time)
    | Process(outbox: OutboxId, now: Time)
    | AddReport(report: ReportId, user: UserId, target: Target)
    | AddBlock(user: UserId, blocked: UserId)
    | RemoveBlock(user: UserId, blocked: UserId)
    | AddToken(tokenId: TokenId, user: UserId, expiresAt: Time)
    | EndToken(tokenId: TokenId, now: Time)
    | AddOtp(otp: OtpId, code: OtpCode)
    | EraseAccount(account: Account)

  /** Writes to accounts, devices, sessions and codes. */
  predicate IdentityOp(op: Op) {
    || op.AddUser? || op.AddDevice? || op.PushToken? || op.RetirePushToken? || op.Revoke? || op.Unlink?
    || op.AddToken? || op.EndToken? || op.AddOtp?
  }

  /** Writes to follows and blocks. */
  predicate SocialOp(op: Op) {
    op.AddFollow? || op.AddGuestFollow? || op.RemoveFollow? || op.AddBlock? || op.RemoveBlock?
  }

  /** Writes to cats and their photos, traits and reports. */
  predicate CatOp(op: Op) {
    || op.AddMedium? || op.AddCat? || op.AddSeedCat? || op.AddSeedTrait? || op.ChangeCover? || op.RemoveCat?
    || op.AddReport?
  }

  /** Writes to updates, their outbox rows and notifications. */
  predicate UpdateOp(op: Op) {
    op.Create? || op.Seed? || op.Correct? || op.Delete? || op.AddNotification? || op.Process?
  }

  ghost function ApplyIdentity(t: Tables, op: Op): (r: Tables)
    requires IdentityOp(op)
    ensures r.media == t.media && r.cats == t.cats && r.archive == t.archive
    ensures r.outbox == t.outbox && r.notifications == t.notifications
    ensures r.updates == t.updates && r.serials == t.serials
  {
    match op
    case AddUser(u, phone) => CreateUser(t, u, phone)
    case AddDevice(d) => RegisterDevice(t, d)
    case PushToken(d, token) => SetPushToken(t, d, token)
    case RetirePushToken(d, token) => ClearPushToken(t, d, token)
    case Revoke(d, now) => RevokeDevice(t, d, now)
    case Unlink(d, u) => UnlinkDevice(t, d, u)
    case AddToken(k, u, expiresAt) => IssueToken(t, k, u, expiresAt)
    case EndToken(k, now) => RevokeToken(t, k, now)
    case AddOtp(o, code) => StoreOtp(t, o, code)
  }

  ghost function ApplySocial(t: Tables, op: Op): (r: Tables)
    requires SocialOp(op)
    ensures r.media == t.media && r.cats == t.cats && r.archive == t.archive
    ensures r.outbox == t.outbox && r.notifications == t.notifications
    ensures r.updates == t.updates && r.serials == t.serials
  {
    match op
    case AddFollow(u, d, c) => FollowCat(t, u, d, c)
    case AddGuestFollow(d, c) => GuestFollow(t, d, c)
    case RemoveFollow(u, c) => UnfollowCat(t, u, c)
    case AddBlock(a, b) => Block(t, a, b)
    case RemoveBlock(a, b) => Unblock(t, a, b)
  }

  ghost function ApplyCat(t: Tables, op: Op): (r: Tables)
    requires CatOp(op)
    ensures r.outbox == t.outbox && r.notifications == t.notifications
    ensures r.updates == t.updates && r.serials == t.serials
  {
    match op
    case AddMedium(id, m) => UploadMedium(t, id, m)
    case AddCat(c, id, m) => CreateCat(t, c, id, m)
    case AddSeedCat(c) => SeedCat(t, c)
    case AddSeedTrait(c, key) => SeedTrait(t, c, key)
    case ChangeCover(c, u, m) => SetCover(t, c, u, m)
    case RemoveCat(c, u) => SoftDeleteCat(t, c, u)
    case AddReport(r, u, target) => FileReport(t, r, u, target)
  }

  ghost function ApplyUpdate(t: Tables, op: Op): (r: Tables)
    requires UpdateOp(op)
    ensures r.media == t.media && r.cats == t.cats
    ensures !op.AddNotification? ==> r.notifications == t.notifications
    ensures !op.Create? && !op.Process? ==> r.outbox == t.outbox
    ensures !op.Create? ==> r.archive == t.archive
    ensures op.AddNotification? || op.Process? ==> r.updates == t.updates && r.serials == t.serials
  {
    match op
    case Create(p) => CreateUpdate(t, p)
    case Seed(p) => SeedUpdate(t, p)
    case Correct(k) => CorrectUpdate(t, k)
    case Delete(k) => DeleteUpdate(t, k)
    case AddNotification(n, d, o, now) => Notify(t, n, d, o, now)
    case Process(o, now) => MarkProcessed(t, o, now)
  }

  ghost function Apply(t: Tables, op: Op): Tables {
    if IdentityOp(op) then ApplyIdentity(t, op)
    else if SocialOp(op) then ApplySocial(t, op)
    else if CatOp(op) then ApplyCat(t, op)
    else if UpdateOp(op) then ApplyUpdate(t, op)
    else if op.Link? then LinkDevice(t, op.device, op.user)
    else DeleteAccount(t, op.account)
  }

  ghost function Run(t: Tables, ops: seq<Op>): Tables
    decreases |ops|
  {
    if ops == [] then t else Apply(Run(t, ops[..|ops| - 1]), ops[|ops| - 1])
  }

  lemma StepRuns(t: Tables, ops: seq<Op>, k: nat)
    requires k < |ops|
    ensures Run(t, ops[..k + 1]) == Apply(Run(t, ops[..k]), ops[k]) && Run(t, []) == t
  {
    hide Apply;
    assert ops[..k + 1][..k] == ops[..k];
  }

  /** A cover lies in the cat's own archive. */
  ghost predicate CoversArchived(cats: map<CatId, Cat>, archive: set<(CatId, MediaId)>) {
    forall c :: c in cats && cats[c].cover.Some? ==> (c, cats[c].cover.value) in archive
  }

  /** An update's media lies in its cat's archive. */
  ghost predicate UpdateMediaArchived(updates: map<UpdateId, Update>, archive: set<(CatId, MediaId)>) {
    forall x :: x in updates && updates[x].media.Some? ==> (updates[x].cat, updates[x].media.value) in archive
  }

  /** An update has an expiry exactly when it carries the help flag, 72 hours after its creation. */
  ghost predicate ExpiriesFixed(updates: map<UpdateId, Update>) {
    forall x :: x in updates ==>
      updates[x].expiresAt == if updates[x].needsHelp then Some(updates[x].createdAt + NEEDS_HELP_EXPIRY) else None
  }

  /** A live update has a status or the help flag. */
  ghost predicate NotHollow(updates: map<UpdateId, Update>, statuses: set<(UpdateId, string)>) {
    forall x :: x in updates && Live(updates[x]) ==> updates[x].needsHelp || HasStatus(statuses, x)
  }

  ghost predicate StatusesApproved(statuses: set<(UpdateId, string)>) {
    forall s :: s in statuses ==> s.1 in APPROVED_STATUSES
  }

  /** Rows that guests left, and that linking a device later gives an author, carry no Idempotency-Key. */
  ghost predicate KeysHaveAuthors(updates: map<UpdateId, Update>) {
    forall x :: x in updates && updates[x].key.Some? ==> updates[x].author.Some?
  }

  ghost predicate WellFormed(t: Tables) {
    && CoversArchived(t.cats, t.archive) && UpdateMediaArchived(t.updates, t.archive)
    && ExpiriesFixed(t.updates) && NotHollow(t.updates, t.statuses) && StatusesApproved(t.statuses)
    && KeysHaveAuthors(t.updates)
  }

  ghost predicate Inv(t: Tables) { Referential(t) && Unique(t) && Attributed(t) && WellFormed(t) }

  // ---- replacing one table: only its own predicates have to be checked again ----

  lemma MoreDevicesReferred(t: Tables, devices: map<DeviceId, Device>)
    requires Referential(t) && t.devices.Keys <= devices.Keys && DevicesRefer(devices, t.users.Keys)
    ensures Referential(t.(devices := devices))
  {}

  lemma KeptByDevices(t: Tables, devices: map<DeviceId, Device>)
    requires Inv(t) && t.devices.Keys <= devices.Keys && DevicesRefer(devices, t.users.Keys)
    ensures Inv(t.(devices := devices))
  {
    hide Referential, DevicesRefer, PhonesUnique, FollowsUnique, MediaUnique, OutboxUnique, NotificationsUnique;
    hide SerialsUnique, OutboxAgrees, NotificationsAgree, MediaByAuthor, TraitsOwnerless;
    hide CoversArchived, UpdateMediaArchived, ExpiriesFixed, NotHollow, StatusesApproved;
    hide UpdateKeysUnique, KeysHaveAuthors;
    MoreDevicesReferred(t, devices);
  }

  lemma MoreUsersReferred(t: Tables, users: map<UserId, User>)
    requires Referential(t) && t.users.Keys <= users.Keys
    ensures Referential(t.(users := users))
  {}

  lemma KeptByUsers(t: Tables, users: map<UserId, User>)
    requires Inv(t) && t.users.Keys <= users.Keys && PhonesUnique(users)
    ensures Inv(t.(users := users))
  {
    hide Referential, PhonesUnique, FollowsUnique, MediaUnique, OutboxUnique, NotificationsUnique, SerialsUnique;
    hide OutboxAgrees, NotificationsAgree, MediaByAuthor, TraitsOwnerless;
    hide CoversArchived, UpdateMediaArchived, ExpiriesFixed, NotHollow, StatusesApproved;
    hide UpdateKeysUnique, KeysHaveAuthors;
    MoreUsersReferred(t, users);
  }

  lemma KeptByFollows(t: Tables, follows: set<Follow>)
    requires Inv(t) && FollowsRefer(follows, t.users.Keys, t.devices.Keys, t.cats.Keys) && FollowsUnique(follows)
    ensures Inv(t.(follows := follows))
  {}

  lemma KeptByBlocks(t: Tables, blocks: set<(UserId, UserId)>)
    requires Inv(t) && BlocksRefer(blocks, t.users.Keys)
    ensures Inv(t.(blocks := blocks))
  {}

  lemma KeptByTokens(t: Tables, tokens: map<TokenId, RefreshToken>)
    requires Inv(t) && TokensRefer(tokens, t.users.Keys)
    ensures Inv(t.(tokens := tokens))
  {}

  lemma KeptByReports(t: Tables, reports: map<ReportId, Report>)
    requires Inv(t) && ReportsRefer(reports, t.users.Keys)
    ensures Inv(t.(reports := reports))
  {}

  lemma KeptByOtps(t: Tables, otps: map<OtpId, OtpCode>)
    requires Inv(t)
    ensures Inv(t.(otps := otps))
  {}

  lemma KeptByNotifications(t: Tables, notifications: map<NotificationId, Notification>)
    requires Inv(t) && NotificationsUnique(notifications) && NotificationsAgree(notifications, t.updates)
    requires NotificationsRefer(notifications, t.devices.Keys, t.cats.Keys, t.updates.Keys)
    ensures Inv(t.(notifications := notifications))
  {}

  lemma KeptByOutbox(t: Tables, outbox: map<OutboxId, OutboxRow>)
    requires Inv(t) && OutboxUnique(outbox) && OutboxAgrees(outbox, t.updates)
             && OutboxRefers(outbox, t.updates.Keys, t.cats.Keys)
    ensures Inv(t.(outbox := outbox))
  {}

  lemma KeptByUpdates(t: Tables, updates: map<UpdateId, Update>, statuses: set<(UpdateId, string)>)
    requires Inv(t) && updates.Keys == t.updates.Keys
    requires UpdatesRefer(updates, t.cats.Keys, t.users.Keys, t.devices.Keys, t.media.Keys)
             && SerialsUnique(updates, t.serials)
    requires OutboxAgrees(t.outbox, updates) && NotificationsAgree(t.notifications, updates)
    requires MediaByAuthor(updates, t.media) && UpdateMediaArchived(updates, t.archive) && ExpiriesFixed(updates)
    requires UpdateKeysUnique(updates) && KeysHaveAuthors(updates)
    requires StatusesRefer(statuses, t.updates.Keys) && StatusesApproved(statuses) && NotHollow(updates, statuses)
    ensures Inv(t.(updates := updates, statuses := statuses))
  {}

  // ---- accounts and devices ----

  lemma KeptByCreateUser(t: Tables, u: UserId, phone: string)
    requires Inv(t)
    ensures Inv(CreateUser(t, u, phone))
  {
    hide Referential, Attributed, WellFormed;
    var r := CreateUser(t, u, phone);
    if r != t { KeptByUsers(t, r.users); }
  }

  lemma KeptByRegisterDevice(t: Tables, d: DeviceId)
    requires Inv(t)
    ensures Inv(RegisterDevice(t, d))
  {
    hide Unique, Attributed, WellFormed;
    var r := RegisterDevice(t, d);
    if r != t { KeptByDevices(t, r.devices); }
  }

  lemma KeptBySetPushToken(t: Tables, d: DeviceId, token: string)
    requires Inv(t)
    ensures Inv(SetPushToken(t, d, token))
  {
    if d in t.devices { KeptByDevices(t, SetPushToken(t, d, token).devices); }
  }

  lemma KeptByClearPushToken(t: Tables, d: DeviceId, token: string)
    requires Inv(t)
    ensures Inv(ClearPushToken(t, d, token))
  {
    var r := ClearPushToken(t, d, token);
    if r != t {
      assert r.devices.Keys == t.devices.Keys;
      KeptByDevices(t, r.devices);
    }
  }

  lemma KeptByRevoke(t: Tables, d: DeviceId, now: Time)
    requires Inv(t)
    ensures Inv(RevokeDevice(t, d, now))
  {
    if d in t.devices { KeptByDevices(t, RevokeDevice(t, d, now).devices); }
  }

  lemma KeptByUnlink(t: Tables, d: DeviceId, u: UserId)
    requires Inv(t)
    ensures Inv(UnlinkDevice(t, d, u))
  {
    if d in t.devices { KeptByDevices(t, UnlinkDevice(t, d, u).devices); }
  }

  lemma LinkedFollowsUnique(follows: set<Follow>, d: DeviceId, u: UserId)
    requires FollowsUnique(follows)
    ensures FollowsUnique(DeleteRedundantFollows(follows, d, u))
    ensures FollowsUnique(BackfillFollows(DeleteRedundantFollows(follows, d, u), d, u))
  {}

  lemma KeptByLink(t: Tables, d: DeviceId, u: UserId)
    requires Inv(t)
    ensures Inv(LinkDevice(t, d, u))
  {
    if CanLink(t, d, u) {
      var r := LinkDevice(t, d, u);
      KeptByBackfill(t, d, u);
      var t1 := t.(updates := r.updates);
      KeptByDevices(t1, r.devices);
      LinkedFollowsUnique(t.follows, d, u);
      KeptByFollows(t1.(devices := r.devices), r.follows);
    }
  }

  lemma KeptByBackfill(t: Tables, d: DeviceId, u: UserId)
    requires Inv(t) && u in t.users
    ensures Inv(t.(updates := BackfillAuthors(t.updates, d, u)))
  {
    var updates := BackfillAuthors(t.updates, d, u);
    assert NotHollow(updates, t.statuses);
    KeptByRewrites(t, updates, t.statuses);
    assert t.(updates := updates) == t.(updates := updates, statuses := t.statuses);
  }

  // ---- follows, media, cats ----

  lemma KeptByFollow(t: Tables, u: UserId, d: Option<DeviceId>, c: CatId)
    requires Inv(t)
    ensures Inv(FollowCat(t, u, d, c))
  {
    var r := FollowCat(t, u, d, c);
    if r != t { KeptByFollows(t, r.follows); }
  }

  lemma KeptByGuestFollow(t: Tables, d: DeviceId, c: CatId)
    requires Inv(t)
    ensures Inv(GuestFollow(t, d, c))
  {
    var r := GuestFollow(t, d, c);
    if r != t { KeptByFollows(t, r.follows); }
  }

  lemma KeptByUnfollow(t: Tables, u: UserId, c: CatId)
    requires Inv(t)
    ensures Inv(UnfollowCat(t, u, c))
  {
    var r := UnfollowCat(t, u, c);
    if r != t { KeptByFollows(t, r.follows); }
  }

  lemma MoreMediaReferred(t: Tables, media: map<MediaId, Medium>)
    requires Referential(t) && t.media.Keys <= media.Keys && MediaRefer(media, t.users.Keys, t.devices.Keys)
    ensures Referential(t.(media := media))
  {}

  lemma KeptByUpload(t: Tables, id: MediaId, m: Medium)
    requires Inv(t)
    ensures Inv(UploadMedium(t, id, m))
  {
    hide FollowsUnique, OutboxUnique, NotificationsUnique, SerialsUnique, CoversArchived, UpdateMediaArchived;
    hide ExpiriesFixed, NotHollow, StatusesApproved, OutboxAgrees, NotificationsAgree, TraitsOwnerless;
    hide UpdateKeysUnique, KeysHaveAuthors;
    var r := UploadMedium(t, id, m);
    if r != t {
      MoreMediaReferred(t, r.media);
      UploadAgrees(t, id, m);
      hide Referential;
    }
  }

  lemma UploadAgrees(t: Tables, id: MediaId, m: Medium)
    requires UpdatesRefer(t.updates, t.cats.Keys, t.users.Keys, t.devices.Keys, t.media.Keys) && id !in t.media
    requires MediaByAuthor(t.updates, t.media)
    ensures MediaByAuthor(t.updates, t.media[id := m])
  {}

  /** A new cat whose cover is already stored and archived with it. */
  lemma KeptByNewCat(t: Tables, c: CatId, cat: Cat)
    requires Inv(t) && c !in t.cats && Refers(cat.owner, t.users.Keys) && Refers(cat.device, t.devices.Keys)
             && Refers(cat.cover, t.media.Keys)
    ensures Inv(t.(cats := t.cats[c := cat],
                   archive := if cat.cover.Some? then t.archive + {(c, cat.cover.value)} else t.archive))
  {
    hide PhonesUnique, FollowsUnique, MediaUnique, OutboxUnique, NotificationsUnique, SerialsUnique;
    hide UpdateKeysUnique, Attributed, WellFormed;
    NewCatReferred(t, c, cat);
    NewCatAgrees(t, c, cat);
  }

  lemma NewCatReferred(t: Tables, c: CatId, cat: Cat)
    requires Referential(t) && Refers(cat.owner, t.users.Keys) && Refers(cat.device, t.devices.Keys)
             && Refers(cat.cover, t.media.Keys)
    ensures Referential(t.(cats := t.cats[c := cat],
                           archive := if cat.cover.Some? then t.archive + {(c, cat.cover.value)} else t.archive))
  {}

  lemma NewCatAgrees(t: Tables, c: CatId, cat: Cat)
    requires TraitsRefer(t.traits, t.cats.Keys) && Attributed(t) && WellFormed(t) && c !in t.cats
    ensures var r := t.(cats := t.cats[c := cat],
                        archive := if cat.cover.Some? then t.archive + {(c, cat.cover.value)} else t.archive);
            Attributed(r) && WellFormed(r)
  {}

  lemma KeptByCreateCat(t: Tables, c: CatId, id: MediaId, m: Medium)
    requires Inv(t)
    ensures Inv(CreateCat(t, c, id, m))
  {
    if c !in t.cats && m.idempotencyKey.None? && CanInsertMedium(t, id, m) {
      KeptByUpload(t, id, m);
      KeptByNewCat(UploadMedium(t, id, m), c, Cat(Some(m.uploader), m.device, Some(id), Active));
    }
  }

  lemma KeptBySeedCat(t: Tables, c: CatId)
    requires Inv(t)
    ensures Inv(SeedCat(t, c))
  {
    if c !in t.cats { KeptByNewCat(t, c, Cat(None, None, None, Active)); }
  }

  lemma KeptBySeedTrait(t: Tables, c: CatId, key: string)
    requires Inv(t)
    ensures Inv(SeedTrait(t, c, key))
  {}

  lemma KeptBySetCover(t: Tables, c: CatId, u: UserId, m: MediaId)
    requires Inv(t)
    ensures Inv(SetCover(t, c, u, m))
  {
    if CanSetCover(t, c, u, m) { KeptByCatRow(t, c, t.cats[c].(cover := Some(m))); }
  }

  lemma KeptBySoftDelete(t: Tables, c: CatId, u: UserId)
    requires Inv(t)
    ensures Inv(SoftDeleteCat(t, c, u))
  {
    if c in t.cats { KeptByCatRow(t, c, t.cats[c].(status := Deleted)); }
  }

  lemma KeptByCatRow(t: Tables, c: CatId, cat: Cat)
    requires Inv(t) && c in t.cats && cat.owner == t.cats[c].owner && cat.device == t.cats[c].device
    requires cat.cover.Some? ==> (c, cat.cover.value) in t.archive
    ensures Inv(t.(cats := t.cats[c := cat]))
  {
    assert t.cats[c := cat].Keys == t.cats.Keys;
  }

  // ---- updates ----

  /** A fresh row in the updates table, with its statuses and archive entry. */
  lemma KeptByNewRow(t: Tables, id: UpdateId, u: Update, statuses: seq<string>)
    requires Inv(t) && id !in t.updates && u.serial !in t.serials
    requires u.cat in t.cats && Refers(u.author, t.users.Keys) && Refers(u.device, t.devices.Keys)
    requires u.media.Some? ==> u.media.value in t.media && u.author == Some(t.media[u.media.value].uploader)
    requires u.expiresAt == if u.needsHelp then Some(u.createdAt + NEEDS_HELP_EXPIRY) else None
    requires ValidStatuses(statuses, u.needsHelp)
    requires u.key.Some? ==> u.author.Some? && KeyFree(t.updates, u.author.value, u.key)
    ensures Inv(t.(updates := t.updates[id := u], statuses := t.statuses + StatusRows(id, statuses),
                   archive := if u.media.Some? then t.archive + {(u.cat, u.media.value)} else t.archive,
                   serials := t.serials + {u.serial}))
  {
    NewRowNotHollow(t.updates, t.statuses, id, u, statuses);
    hide PhonesUnique, FollowsUnique, MediaUnique, OutboxUnique, NotificationsUnique, SerialsUnique, UpdateKeysUnique;
    hide CoversArchived, UpdateMediaArchived, ExpiriesFixed, NotHollow, StatusesApproved, KeysHaveAuthors, KeyFree;
    hide OutboxAgrees, NotificationsAgree, MediaByAuthor, TraitsOwnerless;
    NewRowReferential(t, id, u, statuses);
    NewRowAttributed(t, id, u);
    NewRowIndexed(t.updates, t.serials, id, u);
    NewRowArchived(t, id, u, statuses);
    hide Referential, ValidStatuses, StatusRows;
  }

  lemma NewRowIndexed(updates: map<UpdateId, Update>, serials: set<int>, id: UpdateId, u: Update)
    requires SerialsUnique(updates, serials) && UpdateKeysUnique(updates) && KeysHaveAuthors(updates)
    requires u.serial !in serials
    requires u.key.Some? ==> u.author.Some? && KeyFree(updates, u.author.value, u.key)
    ensures SerialsUnique(updates[id := u], serials + {u.serial})
    ensures UpdateKeysUnique(updates[id := u]) && KeysHaveAuthors(updates[id := u])
  {}

  lemma NewRowArchived(t: Tables, id: UpdateId, u: Update, statuses: seq<string>)
    requires CoversArchived(t.cats, t.archive) && UpdateMediaArchived(t.updates, t.archive)
    requires ExpiriesFixed(t.updates) && StatusesApproved(t.statuses) && ValidStatuses(statuses, u.needsHelp)
    requires u.expiresAt == if u.needsHelp then Some(u.createdAt + NEEDS_HELP_EXPIRY) else None
    ensures var archive := if u.media.Some? then t.archive + {(u.cat, u.media.value)} else t.archive;
            CoversArchived(t.cats, archive) && UpdateMediaArchived(t.updates[id := u], archive)
    ensures ExpiriesFixed(t.updates[id := u]) && StatusesApproved(t.statuses + StatusRows(id, statuses))
  {}

  lemma NewRowNotHollow(updates: map<UpdateId, Update>, rows: set<(UpdateId, string)>, id: UpdateId, u: Update,
                        statuses: seq<string>)
    requires NotHollow(updates, rows) && ValidStatuses(statuses, u.needsHelp)
    ensures NotHollow(updates[id := u], rows + StatusRows(id, statuses))
  {
    var all := rows + StatusRows(id, statuses);
    forall x | x in updates[id := u] && Live(updates[id := u][x])
      ensures updates[id := u][x].needsHelp || HasStatus(all, x)
    {
      if x == id {
        if !u.needsHelp { assert (id, statuses[0]) in all; }
      } else {
        if !updates[x].needsHelp { var s :| s in rows && s.0 == x; assert s in all; }
      }
    }
  }

  lemma NewRowReferential(t: Tables, id: UpdateId, u: Update, statuses: seq<string>)
    requires Referential(t) && id !in t.updates
    requires u.cat in t.cats && Refers(u.author, t.users.Keys) && Refers(u.device, t.devices.Keys)
             && Refers(u.media, t.media.Keys)
    ensures Referential(t.(updates := t.updates[id := u], statuses := t.statuses + StatusRows(id, statuses),
                           archive := if u.media.Some? then t.archive + {(u.cat, u.media.value)} else t.archive))
  {}

  lemma NewRowAttributed(t: Tables, id: UpdateId, u: Update)
    requires Referential(t) && Attributed(t) && id !in t.updates
    requires u.media.Some? ==> u.media.value in t.media && u.author == Some(t.media[u.media.value].uploader)
    ensures Attributed(t.(updates := t.updates[id := u]))
  {}

  lemma KeptByQueued(t: Tables, o: OutboxId, row: OutboxRow)
    requires Inv(t) && o !in t.outbox && row.update in t.updates && row.cat == t.updates[row.update].cat
    requires forall x :: x in t.outbox ==> t.outbox[x].update != row.update
    ensures Inv(t.(outbox := t.outbox[o := row]))
  {
    KeptByOutbox(t, t.outbox[o := row]);
  }

  lemma KeptByCreate(t: Tables, p: NewUpdate)
    requires Inv(t)
    ensures Inv(CreateUpdate(t, p))
  {
    hide Eligible;
    if CanCreate(t, p) {
      var r := CreateUpdate(t, p);
      KeptByNewRow(t, p.id, NewRow(p), p.statuses);
      KeptByQueued(r.(outbox := t.outbox), p.outboxId, r.outbox[p.outboxId]);
      assert r == r.(outbox := t.outbox).(outbox := r.outbox);
    }
  }

  lemma KeptBySeed(t: Tables, p: SeedUpdateRow)
    requires Inv(t)
    ensures Inv(SeedUpdate(t, p))
  {
    var r := SeedUpdate(t, p);
    if r != t { KeptByNewRow(t, p.id, r.updates[p.id], p.statuses); }
  }

  /** b is a rewritten a: same kind, cat, device, media, key, creation time and
      place in the order, and an author that changed at most from none to one. */
  predicate Rewritten(a: Update, b: Update) {
    && b.kind == a.kind && b.cat == a.cat && b.device == a.device && b.media == a.media && b.key == a.key
    && b.createdAt == a.createdAt && b.serial == a.serial
    && (a.author.Some? ==> b.author == a.author)
  }

  lemma KeptByRewrites(t: Tables, updates: map<UpdateId, Update>, statuses: set<(UpdateId, string)>)
    requires Inv(t) && updates.Keys == t.updates.Keys
    requires forall x :: x in updates ==> Rewritten(t.updates[x], updates[x]) && Refers(updates[x].author, t.users.Keys)
    requires ExpiriesFixed(updates)
    requires StatusesRefer(statuses, t.updates.Keys) && StatusesApproved(statuses) && NotHollow(updates, statuses)
    ensures Inv(t.(updates := updates, statuses := statuses))
  {
    RewrittenKeys(t.updates, updates);
    KeptByUpdates(t, updates, statuses);
  }

  lemma RewrittenKeys(before: map<UpdateId, Update>, after: map<UpdateId, Update>)
    requires UpdateKeysUnique(before) && KeysHaveAuthors(before) && after.Keys == before.Keys
    requires forall x :: x in after ==> Rewritten(before[x], after[x])
    ensures UpdateKeysUnique(after) && KeysHaveAuthors(after)
  {
    forall x, author, key | x in after && Keyed(after[x], author, key) ensures Keyed(before[x], author, key) {
      assert Rewritten(before[x], after[x]);
    }
  }

  lemma KeptByCorrect(t: Tables, k: Correction)
    requires Inv(t)
    ensures Inv(CorrectUpdate(t, k))
  {
    if CorrectionAccepted(k) && CorrectMatches(t, k) {
      var r := CorrectUpdate(t, k);
      CorrectedNotHollow(t, k);
      CorrectedRewrites(t, k);
      hide Inv, NotHollow, StatusesApproved, StatusesRefer, ExpiriesFixed, CorrectWhere, CorrectedRow, WithoutStatuses;
      KeptByRewrites(t, r.updates, r.statuses);
    }
  }

  lemma CorrectedRewrites(t: Tables, k: Correction)
    requires Inv(t) && CorrectionAccepted(k) && CorrectMatches(t, k)
    ensures var updates := CorrectUpdate(t, k).updates;
            && updates.Keys == t.updates.Keys && ExpiriesFixed(updates)
            && (forall x :: x in updates ==>
                  Rewritten(t.updates[x], updates[x]) && Refers(updates[x].author, t.users.Keys))
  {
    hide Unique, Attributed, ValidStatuses, WithoutStatuses, StatusRows, HasStatus;
  }

  lemma CorrectedNotHollow(t: Tables, k: Correction)
    requires Inv(t) && CorrectionAccepted(k) && CorrectMatches(t, k)
    ensures var r := CorrectUpdate(t, k);
            NotHollow(r.updates, r.statuses) && StatusesApproved(r.statuses)
            && StatusesRefer(r.statuses, t.updates.Keys)
  {
    var r := CorrectUpdate(t, k);
    forall x | x in r.updates && Live(r.updates[x]) ensures r.updates[x].needsHelp || HasStatus(r.statuses, x) {
      if x != k.id {
        if !t.updates[x].needsHelp { var s :| s in t.statuses && s.0 == x; assert s in r.statuses; }
      } else if k.statuses.Some? && k.statuses.value != [] {
        assert (k.id, k.statuses.value[0]) in r.statuses;
      }
    }
  }

  lemma KeptByDelete(t: Tables, k: Deletion)
    requires Inv(t)
    ensures Inv(DeleteUpdate(t, k))
  {
    if DeleteMatches(t, k) {
      KeptByRewrites(t, DeleteUpdate(t, k).updates, t.statuses);
    }
  }

  // ---- the remaining tables ----

  lemma KeptByNotify(t: Tables, n: NotificationId, d: DeviceId, o: OutboxId, now: Time)
    requires Inv(t)
    ensures Inv(Notify(t, n, d, o, now))
  {
    var r := Notify(t, n, d, o, now);
    if r != t { KeptByNotifications(t, r.notifications); }
  }

  lemma KeptByProcess(t: Tables, o: OutboxId, now: Time)
    requires Inv(t)
    ensures Inv(MarkProcessed(t, o, now))
  {
    var r := MarkProcessed(t, o, now);
    if r != t { KeptByOutbox(t, r.outbox); }
  }

  lemma KeptByBlock(t: Tables, a: UserId, b: UserId)
    requires Inv(t)
    ensures Inv(Block(t, a, b)) && Inv(Unblock(t, a, b))
  {
    if a != b && a in t.users && b in t.users { KeptByBlocks(t, t.blocks + {(a, b)}); }
    KeptByBlocks(t, t.blocks - {(a, b)});
  }

  lemma KeptByIssueToken(t: Tables, k: TokenId, u: UserId, expiresAt: Time)
    requires Inv(t)
    ensures Inv(IssueToken(t, k, u, expiresAt))
  {
    var r := IssueToken(t, k, u, expiresAt);
    if r != t { KeptByTokens(t, r.tokens); }
  }

  lemma KeptByRevokeToken(t: Tables, k: TokenId, now: Time)
    requires Inv(t)
    ensures Inv(RevokeToken(t, k, now))
  {
    var r := RevokeToken(t, k, now);
    if r != t { KeptByTokens(t, r.tokens); }
  }

  lemma KeptByStoreOtp(t: Tables, o: OtpId, code: OtpCode)
    requires Inv(t)
    ensures Inv(StoreOtp(t, o, code))
  {
    var r := StoreOtp(t, o, code);
    if r != t { KeptByOtps(t, r.otps); }
  }

  lemma KeptByFileReport(t: Tables, id: ReportId, u: UserId, target: Target)
    requires Inv(t)
    ensures Inv(FileReport(t, id, u, target))
  {
    var r := FileReport(t, id, u, target);
    if r != t { KeptByReports(t, r.reports); }
  }

  lemma KeptByErase(t: Tables, a: Account)
    requires Inv(t)
    ensures Inv(DeleteAccount(t, a))
  {
    EveryStatementKeepsReferences(t, a, 15);
    ErasedUnique(t, a);
    ErasedAttributed(t, a);
    ErasedWellFormed(t, a);
  }

  lemma ErasedUnique(t: Tables, a: Account)
    requires Unique(t)
    ensures Unique(DeleteAccount(t, a))
  {
    DeletionErasesUpdates(t, a);
    DeletionErasesOutbox(t, a);
    DeletionErasesNotifications(t, a);
    DeletionErasesFollows(t, a);
    DeletionErasesBelongings(t, a);
    DeletionErasesIdentity(t, a);
  }

  lemma ErasedAttributed(t: Tables, a: Account)
    requires Attributed(t)
    ensures Attributed(DeleteAccount(t, a))
  {
    hide DeleteAccount, OutboxAgrees, NotificationsAgree, MediaByAuthor, TraitsOwnerless;
    ErasedQueuesAgree(t, a);
    ErasedOwnersAgree(t, a);
  }

  lemma ErasedQueuesAgree(t: Tables, a: Account)
    requires OutboxAgrees(t.outbox, t.updates) && NotificationsAgree(t.notifications, t.updates)
    ensures var r := DeleteAccount(t, a);
            OutboxAgrees(r.outbox, r.updates) && NotificationsAgree(r.notifications, r.updates)
  {
    hide DeleteAccount;
    DeletionErasesUpdates(t, a);
    DeletionErasesOutbox(t, a);
    DeletionErasesNotifications(t, a);
  }

  lemma ErasedOwnersAgree(t: Tables, a: Account)
    requires MediaByAuthor(t.updates, t.media) && TraitsOwnerless(t.traits, t.cats)
    ensures var r := DeleteAccount(t, a); MediaByAuthor(r.updates, r.media) && TraitsOwnerless(r.traits, r.cats)
  {
    hide DeleteAccount;
    DeletionErasesUpdates(t, a);
    DeletionErasesIdentity(t, a);
    DeletionErasesBelongings(t, a);
    var r := DeleteAccount(t, a);
    assert forall x :: x in r.updates ==> x in t.updates && r.updates[x] == t.updates[x];
    assert forall m :: m in r.media ==> m in t.media && r.media[m] == t.media[m];
    assert forall c :: c in r.cats ==> c in t.cats && r.cats[c].owner == t.cats[c].owner;
  }

  lemma ErasedWellFormed(t: Tables, a: Account)
    requires Referential(t) && Attributed(t) && WellFormed(t)
    ensures WellFormed(DeleteAccount(t, a))
  {
    ErasedNotHollow(t, a);
    DeletionErasesUpdates(t, a);
    DeletionErasesBelongings(t, a);
  }

  lemma ErasedNotHollow(t: Tables, a: Account)
    requires WellFormed(t)
    ensures var r := DeleteAccount(t, a); NotHollow(r.updates, r.statuses)
  {
    var r := DeleteAccount(t, a);
    DeletionErasesUpdates(t, a);
    forall x | x in r.updates && Live(r.updates[x]) ensures r.updates[x].needsHelp || HasStatus(r.statuses, x) {
      if !r.updates[x].needsHelp { var s :| s in t.statuses && s.0 == x; assert s in r.statuses; }
    }
  }

  lemma KeptByIdentityOp(t: Tables, op: Op)
    requires Inv(t) && IdentityOp(op)
    ensures Inv(ApplyIdentity(t, op))
  {
    hide Inv, CreateUser, RegisterDevice, SetPushToken, ClearPushToken, RevokeDevice, UnlinkDevice;
    hide IssueToken, RevokeToken, StoreOtp;
    match op
    case AddUser(u, phone) => KeptByCreateUser(t, u, phone);
    case AddDevice(d) => KeptByRegisterDevice(t, d);
    case PushToken(d, token) => KeptBySetPushToken(t, d, token);
    case RetirePushToken(d, token) => KeptByClearPushToken(t, d, token);
    case Revoke(d, now) => KeptByRevoke(t, d, now);
    case Unlink(d, u) => KeptByUnlink(t, d, u);
    case AddToken(k, u, at) => KeptByIssueToken(t, k, u, at);
    case EndToken(k, now) => KeptByRevokeToken(t, k, now);
    case AddOtp(o, code) => KeptByStoreOtp(t, o, code);
  }

  lemma KeptBySocialOp(t: Tables, op: Op)
    requires Inv(t) && SocialOp(op)
    ensures Inv(ApplySocial(t, op))
  {
    hide Inv, FollowCat, GuestFollow, UnfollowCat, Block, Unblock;
    match op
    case AddFollow(u, d, c) => KeptByFollow(t, u, d, c);
    case AddGuestFollow(d, c) => KeptByGuestFollow(t, d, c);
    case RemoveFollow(u, c) => KeptByUnfollow(t, u, c);
    case AddBlock(a, b) => KeptByBlock(t, a, b);
    case RemoveBlock(a, b) => KeptByBlock(t, a, b);
  }

  lemma KeptByCatOp(t: Tables, op: Op)
    requires Inv(t) && CatOp(op)
    ensures Inv(ApplyCat(t, op))
  {
    hide Inv, UploadMedium, CreateCat, SeedCat, SeedTrait, SetCover, SoftDeleteCat, FileReport;
    match op
    case AddMedium(id, m) => KeptByUpload(t, id, m);
    case AddCat(c, id, m) => KeptByCreateCat(t, c, id, m);
    case AddSeedCat(c) => KeptBySeedCat(t, c);
    case AddSeedTrait(c, key) => KeptBySeedTrait(t, c, key);
    case ChangeCover(c, u, m) => KeptBySetCover(t, c, u, m);
    case RemoveCat(c, u) => KeptBySoftDelete(t, c, u);
    case AddReport(r, u, target) => KeptByFileReport(t, r, u, target);
  }

  lemma KeptByUpdateOp(t: Tables, op: Op)
    requires Inv(t) && UpdateOp(op)
    ensures Inv(ApplyUpdate(t, op))
  {
    hide Inv, CreateUpdate, SeedUpdate, CorrectUpdate, DeleteUpdate, Notify, MarkProcessed;
    match op
    case Create(p) => KeptByCreate(t, p);
    case Seed(p) => KeptBySeed(t, p);
    case Correct(k) => KeptByCorrect(t, k);
    case Delete(k) => KeptByDelete(t, k);
    case AddNotification(n, d, o, now) => KeptByNotify(t, n, d, o, now);
    case Process(o, now) => KeptByProcess(t, o, now);
  }

  lemma KeptByStep(t: Tables, op: Op)
    requires Inv(t)
    ensures Inv(Apply(t, op))
  {
    hide Inv, ApplyIdentity, ApplySocial, ApplyCat, ApplyUpdate, LinkDevice, DeleteAccount;
    if IdentityOp(op) { KeptByIdentityOp(t, op); }
    else if SocialOp(op) { KeptBySocialOp(t, op); }
    else if CatOp(op) { KeptByCatOp(t, op); }
    else if UpdateOp(op) { KeptByUpdateOp(t, op); }
    else if op.Link? { KeptByLink(t, op.device, op.user); }
    else { KeptByErase(t, op.account); }
  }

  lemma {:induction false} RunKeepsInv(t: Tables, ops: seq<Op>)
    requires Inv(t)
    ensures Inv(Run(t, ops))
    decreases |ops|
  {
    hide Inv, Apply;
    if ops != [] {
      RunKeepsInv(t, ops[..|ops| - 1]);
      KeptByStep(Run(t, ops[..|ops| - 1]), ops[|ops| - 1]);
    }
  }

  lemma EmptyTablesConsistent()
    ensures Inv(EMPTY)
  {}

  /** From the empty database, any run of writes reaches only consistent tables. */
  lemma Reachable(ops: seq<Op>)
    ensures Inv(Run(EMPTY, ops))
  {
    hide Apply, Run, Inv;
    EmptyTablesConsistent();
    RunKeepsInv(EMPTY, ops);
  }

  /** So in any reachable state each of the fifteen statements of an account
      deletion keeps every foreign key, and no row names the account afterwards. */
  lemma DeletionSafeWhenReachable(ops: seq<Op>, a: Account, k: nat)
    requires k <= |STEPS|
    ensures Referential(After(Run(EMPTY, ops), a, k))
    ensures Unnamed(DeleteAccount(Run(EMPTY, ops), a), a.id)
  {
    Reachable(ops);
    EveryStatementKeepsReferences(Run(EMPTY, ops), a, k);
    NoTraceRemains(Run(EMPTY, ops), a);
  }
}
