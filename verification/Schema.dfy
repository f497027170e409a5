/** Nullable columns and the three-valued logic that `where` clauses are
    evaluated in. A row matches a clause only when the clause is True3. */
module Sql {
  datatype Option<+T> = None | Some(value: T)

  datatype Truth = True3 | False3 | Unknown3

  predicate Matches(t: Truth) { t == True3 }

  function Lift(b: bool): Truth { if b then True3 else False3 }

  function And3(a: Truth, b: Truth): Truth {
    if a == False3 || b == False3 then False3
    else if a == Unknown3 || b == Unknown3 then Unknown3
    else True3
  }

  function Or3(a: Truth, b: Truth): Truth {
    if a == True3 || b == True3 then True3
    else if a == Unknown3 || b == Unknown3 then Unknown3
    else False3
  }

  function Not3(a: Truth): Truth {
    match a
    case True3 => False3
    case False3 => True3
    case Unknown3 => Unknown3
  }

  /** `a = b`, unknown as soon as one side is null. */
  function Eq3<T(==)>(a: Option<T>, b: Option<T>): Truth {
    if a.None? || b.None? then Unknown3 else Lift(a.value == b.value)
  }

  /** `a > b`, unknown as soon as one side is null. */
  function Gt3(a: Option<int>, b: Option<int>): Truth {
    if a.None? || b.None? then Unknown3 else Lift(a.value > b.value)
  }

  function IsNull<T>(a: Option<T>): Truth { Lift(a.None?) }

  /** `coalesce(t, false)` */
  predicate Coalesce(t: Truth) { t == True3 }
}

/** The tables of the backend and the references between them, as the
    migrations declare them. Columns that no reference, statement or property
    below depends on (names, areas, content types, ...) are left out. */
module Schema {
  import opened Sql

  type UserId = int
  type DeviceId = int
  type CatId = int
  type MediaId = int
  type UpdateId = int
  type OutboxId = int
  type NotificationId = int
  type ReportId = int
  type TokenId = int
  type OtpId = int
  type Time = int

  datatype User = User(phone: string)
  datatype Device = Device(user: Option<UserId>, revokedAt: Option<Time>, pushToken: Option<string>)
  datatype Medium = Medium(objectKey: string, uploader: UserId, device: Option<DeviceId>,
                           idempotencyKey: Option<string>)
  datatype CatStatus = Active | Inactive | Deleted
  datatype Cat = Cat(owner: Option<UserId>, device: Option<DeviceId>, cover: Option<MediaId>, status: CatStatus)
  /** `Legacy` is the pre-flag subtype kind = 'needs_help'. */
  datatype Kind = Ordinary | Legacy
  datatype Update = Update(
    cat: CatId, author: Option<UserId>, device: Option<DeviceId>, kind: Kind, comment: Option<string>,
    createdAt: Time, serial: int, needsHelp: bool, category: Option<string>, expiresAt: Option<Time>,
    updatedAt: Option<Time>, deletedAt: Option<Time>, media: Option<MediaId>, key: Option<string>)
  /** Where an update stands in (created_at, seq) order. */
  datatype Place = Place(createdAt: Time, serial: int)
  function PlaceOf(u: Update): Place { Place(u.createdAt, u.serial) }

  datatype OutboxRow = OutboxRow(update: UpdateId, cat: CatId, processedAt: Option<Time>, eligible: bool,
                                 queuedAt: Time)
  datatype Notification = Notification(device: DeviceId, cat: CatId, update: UpdateId, createdAt: Time)
  datatype Follow = Follow(user: Option<UserId>, device: Option<DeviceId>, cat: CatId)
  datatype Target = CatTarget(cat: CatId) | UpdateTarget(update: UpdateId) | MediaTarget(media: MediaId)
  datatype Report = Report(reporter: UserId, target: Target)
  datatype RefreshToken = RefreshToken(user: UserId, expiresAt: Time, revokedAt: Option<Time>)
  datatype OtpCode = OtpCode(phone: string, codeHash: string, attempts: nat, maxAttempts: nat, expiresAt: Time,
                             consumedAt: Option<Time>, createdAt: Time)

  /** `serials` holds every value the updates.seq sequence has ever handed out. */
  datatype Tables = Tables(
    users: map<UserId, User>,
    devices: map<DeviceId, Device>,
    tokens: map<TokenId, RefreshToken>,
    otps: map<OtpId, OtpCode>,
    media: map<MediaId, Medium>,
    cats: map<CatId, Cat>,
    archive: set<(CatId, MediaId)>,
    traits: set<(CatId, string)>,
    updates: map<UpdateId, Update>,
    statuses: set<(UpdateId, string)>,
    outbox: map<OutboxId, OutboxRow>,
    notifications: map<NotificationId, Notification>,
    follows: set<Follow>,
    reports: map<ReportId, Report>,
    blocks: set<(UserId, UserId)>,
    serials: set<int>)

  const EMPTY := Tables(map[], map[], map[], map[], map[], map[], {}, {}, map[], {}, map[], map[], {}, map[], {}, {})

  /** A nullable reference into a table with the given keys. */
  predicate Refers<K(==)>(o: Option<K>, keys: set<K>) { o.Some? ==> o.value in keys }

  // Foreign keys, one predicate per referencing table.

  ghost predicate DevicesRefer(devices: map<DeviceId, Device>, users: set<UserId>) {
    forall d :: d in devices ==> Refers(devices[d].user, users)
  }

  ghost predicate TokensRefer(tokens: map<TokenId, RefreshToken>, users: set<UserId>) {
    forall k :: k in tokens ==> tokens[k].user in users
  }

  ghost predicate MediaRefer(media: map<MediaId, Medium>, users: set<UserId>, devices: set<DeviceId>) {
    forall m :: m in media ==> media[m].uploader in users && Refers(media[m].device, devices)
  }

  ghost predicate CatsRefer(cats: map<CatId, Cat>, users: set<UserId>, devices: set<DeviceId>, media: set<MediaId>) {
    forall c :: c in cats ==>
      Refers(cats[c].owner, users) && Refers(cats[c].device, devices) && Refers(cats[c].cover, media)
  }

  ghost predicate ArchiveRefers(archive: set<(CatId, MediaId)>, cats: set<CatId>, media: set<MediaId>) {
    forall e :: e in archive ==> e.0 in cats && e.1 in media
  }

  ghost predicate TraitsRefer(traits: set<(CatId, string)>, cats: set<CatId>) {
    forall e :: e in traits ==> e.0 in cats
  }

  ghost predicate UpdatesRefer(updates: map<UpdateId, Update>, cats: set<CatId>, users: set<UserId>,
                               devices: set<DeviceId>, media: set<MediaId>)
  {
    forall u :: u in updates ==>
      && updates[u].cat in cats
      && Refers(updates[u].author, users)
      && Refers(updates[u].device, devices)
      && Refers(updates[u].media, media)
  }

  ghost predicate StatusesRefer(statuses: set<(UpdateId, string)>, updates: set<UpdateId>) {
    forall s :: s in statuses ==> s.0 in updates
  }

  ghost predicate OutboxRefers(outbox: map<OutboxId, OutboxRow>, updates: set<UpdateId>, cats: set<CatId>) {
    forall o :: o in outbox ==> outbox[o].update in updates && outbox[o].cat in cats
  }

  ghost predicate NotificationsRefer(notifications: map<NotificationId, Notification>, devices: set<DeviceId>,
                                     cats: set<CatId>, updates: set<UpdateId>)
  {
    forall n :: n in notifications ==>
      notifications[n].device in devices && notifications[n].cat in cats && notifications[n].update in updates
  }

  ghost predicate FollowsRefer(follows: set<Follow>, users: set<UserId>, devices: set<DeviceId>, cats: set<CatId>) {
    forall f :: f in follows ==> Refers(f.user, users) && Refers(f.device, devices) && f.cat in cats
  }

  ghost predicate ReportsRefer(reports: map<ReportId, Report>, users: set<UserId>) {
    forall r :: r in reports ==> reports[r].reporter in users
  }

  ghost predicate BlocksRefer(blocks: set<(UserId, UserId)>, users: set<UserId>) {
    forall b :: b in blocks ==> b.0 in users && b.1 in users
  }

  /** Every foreign key of the schema points at an existing row. Postgres
      checks this at the end of each statement. */
  ghost predicate Referential(t: Tables) {
    && DevicesRefer(t.devices, t.users.Keys)
    && TokensRefer(t.tokens, t.users.Keys)
    && MediaRefer(t.media, t.users.Keys, t.devices.Keys)
    && CatsRefer(t.cats, t.users.Keys, t.devices.Keys, t.media.Keys)
    && ArchiveRefers(t.archive, t.cats.Keys, t.media.Keys)
    && TraitsRefer(t.traits, t.cats.Keys)
    && UpdatesRefer(t.updates, t.cats.Keys, t.users.Keys, t.devices.Keys, t.media.Keys)
    && StatusesRefer(t.statuses, t.updates.Keys)
    && OutboxRefers(t.outbox, t.updates.Keys, t.cats.Keys)
    && NotificationsRefer(t.notifications, t.devices.Keys, t.cats.Keys, t.updates.Keys)
    && FollowsRefer(t.follows, t.users.Keys, t.devices.Keys, t.cats.Keys)
    && ReportsRefer(t.reports, t.users.Keys)
    && BlocksRefer(t.blocks, t.users.Keys)
  }

  /** reports.target_id carries no foreign key: this is what the design
      promises of it, not what the database enforces. */
  predicate TargetExists(t: Tables, target: Target) {
    match target
    case CatTarget(c) => c in t.cats
    case UpdateTarget(u) => u in t.updates
    case MediaTarget(m) => m in t.media
  }

  // Unique indexes, and the freshness of the ids that rows draw for themselves: object keys
  // (00017 declares no index on them) and the values of the updates.seq sequence.

  ghost predicate PhonesUnique(users: map<UserId, User>) {
    forall a, b :: a in users && b in users && users[a].phone == users[b].phone ==> a == b
  }

  ghost predicate FollowsUnique(follows: set<Follow>) {
    && (forall f, g :: f in follows && g in follows && f.cat == g.cat && f.user.Some? && f.user == g.user ==> f == g)
    && (forall f, g :: f in follows && g in follows && f.cat == g.cat && f.device.Some? && f.device == g.device ==>
          f == g)
  }

  ghost predicate MediaUnique(media: map<MediaId, Medium>) {
    && (forall a, b ::
          (a in media && b in media && media[a].uploader == media[b].uploader
           && media[a].idempotencyKey.Some? && media[a].idempotencyKey == media[b].idempotencyKey)
          ==> a == b)
    && (forall a, b :: a in media && b in media && media[a].objectKey == media[b].objectKey ==> a == b)
  }

  ghost predicate OutboxUnique(outbox: map<OutboxId, OutboxRow>) {
    forall a, b :: a in outbox && b in outbox && outbox[a].update == outbox[b].update ==> a == b
  }

  ghost predicate NotificationsUnique(notifications: map<NotificationId, Notification>) {
    forall a, b ::
      (a in notifications && b in notifications
       && notifications[a].device == notifications[b].device && notifications[a].update == notifications[b].update)
      ==> a == b
  }

  ghost predicate SerialsUnique(updates: map<UpdateId, Update>, serials: set<int>) {
    && (forall u :: u in updates ==> updates[u].serial in serials)
    && (forall a, b :: a in updates && b in updates && updates[a].serial == updates[b].serial ==> a == b)
  }

  /** The row an author's Idempotency-Key names. */
  predicate Keyed(u: Update, author: UserId, key: string) {
    u.kind == Ordinary && u.author == Some(author) && u.key == Some(key)
  }

  ghost predicate UpdateKeysUnique(updates: map<UpdateId, Update>) {
    forall a, b, author, key ::
      a in updates && b in updates && Keyed(updates[a], author, key) && Keyed(updates[b], author, key) ==> a == b
  }

  ghost predicate Unique(t: Tables) {
    && PhonesUnique(t.users) && FollowsUnique(t.follows) && MediaUnique(t.media)
    && OutboxUnique(t.outbox) && NotificationsUnique(t.notifications) && SerialsUnique(t.updates, t.serials)
    && UpdateKeysUnique(t.updates)
  }

  // Cross-table facts that no constraint declares.

  /** An outbox row carries its update's cat. */
  ghost predicate OutboxAgrees(outbox: map<OutboxId, OutboxRow>, updates: map<UpdateId, Update>) {
    forall o :: o in outbox && outbox[o].update in updates ==> outbox[o].cat == updates[outbox[o].update].cat
  }

  /** A notification carries its update's cat. */
  ghost predicate NotificationsAgree(notifications: map<NotificationId, Notification>, updates: map<UpdateId, Update>) {
    forall n :: n in notifications && notifications[n].update in updates ==>
      notifications[n].cat == updates[notifications[n].update].cat
  }

  /** An update's media was uploaded by its author. */
  ghost predicate MediaByAuthor(updates: map<UpdateId, Update>, media: map<MediaId, Medium>) {
    forall x :: x in updates && updates[x].media.Some? && updates[x].media.value in media ==>
      updates[x].author == Some(media[updates[x].media.value].uploader)
  }

  /** Only ownerless cats carry traits. */
  ghost predicate TraitsOwnerless(traits: set<(CatId, string)>, cats: map<CatId, Cat>) {
    forall e :: e in traits && e.0 in cats ==> cats[e.0].owner.None?
  }

  ghost predicate Attributed(t: Tables) {
    && OutboxAgrees(t.outbox, t.updates) && NotificationsAgree(t.notifications, t.updates)
    && MediaByAuthor(t.updates, t.media) && TraitsOwnerless(t.traits, t.cats)
  }
}
