/** The backend's writes as functions on the tables. A write whose checks fail
    (or whose statement violates a constraint, rolling its transaction back)
    leaves the tables as they were. */
module Writes {
  import opened Sql
  import opened Schema

  const MINUTE: Time := 60_000_000_000
  const HOUR: Time := 60 * MINUTE
  const CORRECTION_WINDOW: Time := 10 * MINUTE
  const NEEDS_HELP_EXPIRY: Time := 72 * HOUR

  const APPROVED_STATUSES := {"seen", "fed", "water_provided"}

  // ---- ownership and visibility checks ----

  predicate Blocks(t: Tables, viewer: UserId, owner: Option<UserId>) {
    owner.Some? && (viewer, owner.value) in t.blocks
  }

  /** CatExists: present, not soft-deleted, and not owned by someone the viewer blocks. */
  predicate CatExists(t: Tables, c: CatId, viewer: UserId) {
    c in t.cats && t.cats[c].status != Deleted && !Blocks(t, viewer, t.cats[c].owner)
  }

  ghost predicate NoDuplicates<T>(s: seq<T>) {
    forall i, j :: 0 <= i < j < |s| ==> s[i] != s[j]
  }

  /** The status-set rule: drawn from the vocabulary, no repeats, empty only if allowed. */
  ghost predicate ValidStatuses(statuses: seq<string>, allowEmpty: bool) {
    && (statuses == [] ==> allowEmpty)
    && (forall i :: 0 <= i < |statuses| ==> statuses[i] in APPROVED_STATUSES)
    && NoDuplicates(statuses)
  }

  function StatusRows(u: UpdateId, statuses: seq<string>): set<(UpdateId, string)> {
    set s | s in statuses :: (u, s)
  }

  predicate HasStatus(statuses: set<(UpdateId, string)>, u: UpdateId) {
    exists s :: s in statuses && s.0 == u
  }

  // ---- help marks ----

  /** (created_at, seq) order of two updates. */
  predicate Earlier(a: Update, b: Update) {
    a.createdAt < b.createdAt || (a.createdAt == b.createdAt && a.serial < b.serial)
  }

  predicate Live(u: Update) { u.deletedAt.None? }

  /** The subquery of the outbox insert: an earlier live mark of the same cat, unexpired when `id` was created. */
  predicate ActiveBefore(updates: map<UpdateId, Update>, id: UpdateId)
    requires id in updates
  {
    exists p :: p in updates && p != id
      && updates[p].cat == updates[id].cat && updates[p].needsHelp && Live(updates[p])
      && Earlier(updates[p], updates[id])
      && updates[p].expiresAt.Some? && updates[p].expiresAt.value > updates[id].createdAt
  }

  predicate Eligible(updates: map<UpdateId, Update>, id: UpdateId)
    requires id in updates
  {
    updates[id].needsHelp && !ActiveBefore(updates, id)
  }

  // ---- creating updates ----

  /** `createdAt` is the service's clock, `queuedAt` the database's. */
  datatype NewUpdate = NewUpdate(
    id: UpdateId, outboxId: OutboxId, serial: int, cat: CatId, author: UserId, device: Option<DeviceId>,
    statuses: seq<string>, needsHelp: bool, category: Option<string>, comment: Option<string>,
    media: Option<MediaId>, createdAt: Time, key: Option<string>, queuedAt: Time)

  function NewRow(p: NewUpdate): Update {
    Update(p.cat, Some(p.author), p.device, Ordinary, p.comment, p.createdAt, p.serial, p.needsHelp, p.category,
           if p.needsHelp then Some(p.createdAt + NEEDS_HELP_EXPIRY) else None, None, None, p.media, p.key)
  }

  /** No row of the author carries the Idempotency-Key yet, deleted or not. */
  predicate KeyFree(updates: map<UpdateId, Update>, author: UserId, key: Option<string>) {
    key.Some? ==> !(exists x :: x in updates && Keyed(updates[x], author, key.value))
  }

  /** What the service checks, plus the constraints its transaction would fail on. */
  ghost predicate CanCreate(t: Tables, p: NewUpdate) {
    && ValidStatuses(p.statuses, p.needsHelp)
    && (p.category.Some? ==> p.needsHelp)
    && CatExists(t, p.cat, p.author)
    && (p.media.Some? ==> p.media.value in t.media && t.media[p.media.value].uploader == p.author)
    && p.author in t.users && Refers(p.device, t.devices.Keys)
    && p.id !in t.updates && p.outboxId !in t.outbox && p.serial !in t.serials
    && KeyFree(t.updates, p.author, p.key)
  }

  /** Store.CreateOrdinaryUpdate: the row, its statuses, the archive entry and the outbox row. */
  ghost function CreateUpdate(t: Tables, p: NewUpdate): Tables {
    if !CanCreate(t, p) then t
    else
      var updates := t.updates[p.id := NewRow(p)];
      t.(updates := updates,
         statuses := t.statuses + StatusRows(p.id, p.statuses),
         archive := if p.media.Some? then t.archive + {(p.cat, p.media.value)} else t.archive,
         outbox := t.outbox[p.outboxId := OutboxRow(p.id, p.cat, None, Eligible(updates, p.id), p.queuedAt)],
         serials := t.serials + {p.serial})
  }

  /** A row written by the seed program or before accounts existed: no account author, no media, no outbox row. */
  datatype SeedUpdateRow = SeedUpdateRow(
    id: UpdateId, serial: int, cat: CatId, device: Option<DeviceId>, kind: Kind, statuses: seq<string>,
    needsHelp: bool, category: Option<string>, createdAt: Time)

  function SeedRow(p: SeedUpdateRow): Update {
    Update(p.cat, None, p.device, p.kind, None, p.createdAt, p.serial, p.needsHelp, p.category,
           if p.needsHelp then Some(p.createdAt + NEEDS_HELP_EXPIRY) else None, None, None, None, None)
  }

  ghost function SeedUpdate(t: Tables, p: SeedUpdateRow): Tables {
    if p.id in t.updates || p.serial in t.serials || p.cat !in t.cats || !Refers(p.device, t.devices.Keys)
       || !ValidStatuses(p.statuses, p.needsHelp) || (p.category.Some? && !p.needsHelp)
    then t
    else
      t.(updates := t.updates[p.id := SeedRow(p)],
         statuses := t.statuses + StatusRows(p.id, p.statuses),
         serials := t.serials + {p.serial})
  }

  // ---- correcting and deleting updates ----

  /** A presence-aware PATCH: None statuses or comment means the body omitted the field. */
  datatype Correction = Correction(
    id: UpdateId, cat: CatId, author: UserId, statuses: Option<seq<string>>, comment: Option<Option<string>>,
    clearNeedsHelp: bool, now: Time)

  /** What both statements ask of the row: the caller's undeleted ordinary update of the cat, in its window. */
  function OwnOpenRow(u: Update, cat: CatId, author: UserId, now: Time): Truth {
    And3(And3(Eq3(Some(u.cat), Some(cat)), Eq3(u.author, Some(author))),
         And3(And3(Lift(u.kind == Ordinary), IsNull(u.deletedAt)), Lift(u.createdAt > now - CORRECTION_WINDOW)))
  }

  /** The where clause of CorrectOrdinaryUpdate on the row with the given id. */
  function CorrectWhere(t: Tables, k: Correction): Truth
    requires k.id in t.updates
  {
    var u := t.updates[k.id];
    var keepsContent := Or3(Lift(if k.statuses.Some? then k.statuses.value != [] else HasStatus(t.statuses, k.id)),
                            And3(Lift(u.needsHelp), Not3(Lift(k.clearNeedsHelp))));
    And3(OwnOpenRow(u, k.cat, k.author, k.now), keepsContent)
  }

  predicate CorrectMatches(t: Tables, k: Correction) {
    k.id in t.updates && Matches(CorrectWhere(t, k))
  }

  function CorrectedRow(u: Update, k: Correction): Update {
    u.(comment := if k.comment.Some? then k.comment.value else u.comment,
       updatedAt := Some(k.now),
       needsHelp := u.needsHelp && !k.clearNeedsHelp,
       expiresAt := if k.clearNeedsHelp then None else u.expiresAt,
       category := if k.clearNeedsHelp then None else u.category)
  }

  function WithoutStatuses(statuses: set<(UpdateId, string)>, u: UpdateId): set<(UpdateId, string)> {
    set s | s in statuses && s.0 != u
  }

  /** The service's own check before the statement runs: only a supplied status set is validated. */
  ghost predicate CorrectionAccepted(k: Correction) {
    k.statuses.Some? ==> ValidStatuses(k.statuses.value, !k.clearNeedsHelp)
  }

  ghost function CorrectUpdate(t: Tables, k: Correction): Tables {
    if !CorrectionAccepted(k) || !CorrectMatches(t, k) then t
    else
      t.(updates := t.updates[k.id := CorrectedRow(t.updates[k.id], k)],
         statuses := if k.statuses.Some?
                     then WithoutStatuses(t.statuses, k.id) + StatusRows(k.id, k.statuses.value)
                     else t.statuses)
  }

  datatype Deletion = Deletion(id: UpdateId, cat: CatId, author: UserId, now: Time)

  /** The where clause of DeleteOwnUpdate, with its not-exists cover guard. */
  function DeleteWhere(t: Tables, k: Deletion): Truth
    requires k.id in t.updates
  {
    var u := t.updates[k.id];
    And3(OwnOpenRow(u, k.cat, k.author, k.now),
         Not3(Lift(u.cat in t.cats && Matches(Eq3(t.cats[u.cat].cover, u.media)))))
  }

  predicate DeleteMatches(t: Tables, k: Deletion) {
    k.id in t.updates && Matches(DeleteWhere(t, k))
  }

  function DeleteUpdate(t: Tables, k: Deletion): Tables {
    if !DeleteMatches(t, k) then t
    else t.(updates := t.updates[k.id := t.updates[k.id].(deletedAt := Some(k.now))])
  }

  // ---- accounts, devices, follows ----

  ghost function CreateUser(t: Tables, id: UserId, phone: string): Tables {
    if id in t.users || (exists u :: u in t.users && t.users[u].phone == phone) then t
    else t.(users := t.users[id := User(phone)])
  }

  function RegisterDevice(t: Tables, id: DeviceId): Tables {
    if id in t.devices then t else t.(devices := t.devices[id := Device(None, None, None)])
  }

  function SetPushToken(t: Tables, d: DeviceId, token: string): Tables {
    if d !in t.devices then t
    else t.(devices := map x | x in t.devices ::
              if x == d then t.devices[x].(pushToken := Some(token))
              else if t.devices[x].pushToken == Some(token) then t.devices[x].(pushToken := None)
              else t.devices[x])
  }

  function RevokeDevice(t: Tables, d: DeviceId, now: Time): Tables {
    if d !in t.devices then t else t.(devices := t.devices[d := t.devices[d].(revokedAt := Some(now))])
  }

  function ClearPushToken(t: Tables, d: DeviceId, token: string): Tables {
    if d !in t.devices || t.devices[d].pushToken != Some(token) then t
    else t.(devices := t.devices[d := t.devices[d].(pushToken := None)])
  }

  predicate Owned(follows: set<Follow>, u: UserId, c: CatId) {
    exists g :: g in follows && g.cat == c && g.user == Some(u)
  }

  function DeleteRedundantFollows(follows: set<Follow>, d: DeviceId, u: UserId): set<Follow> {
    set f | f in follows && !(f.device == Some(d) && f.user.None? && Owned(follows, u, f.cat))
  }

  function Backfilled(f: Follow, d: DeviceId, u: UserId): Follow {
    if f.device == Some(d) && f.user.None? then f.(user := Some(u)) else f
  }

  function BackfillFollows(follows: set<Follow>, d: DeviceId, u: UserId): set<Follow> {
    set f | f in follows :: Backfilled(f, d, u)
  }

  function BackfillAuthors(updates: map<UpdateId, Update>, d: DeviceId, u: UserId): map<UpdateId, Update> {
    map x | x in updates ::
      if updates[x].device == Some(d) && updates[x].author.None? then updates[x].(author := Some(u)) else updates[x]
  }

  predicate CanLink(t: Tables, d: DeviceId, u: UserId) {
    d in t.devices && u in t.users && (t.devices[d].user.None? || t.devices[d].user == Some(u))
  }

  /** AuthService.linkDevice: refuse another account's device, else link, drop redundant follows, backfill. */
  function LinkDevice(t: Tables, d: DeviceId, u: UserId): Tables {
    if !CanLink(t, d, u) then t
    else t.(devices := t.devices[d := t.devices[d].(user := Some(u))],
            follows := BackfillFollows(DeleteRedundantFollows(t.follows, d, u), d, u),
            updates := BackfillAuthors(t.updates, d, u))
  }

  function UnlinkDevice(t: Tables, d: DeviceId, u: UserId): Tables {
    if d !in t.devices || t.devices[d].user != Some(u) then t
    else t.(devices := t.devices[d := t.devices[d].(user := None)])
  }

  ghost function FollowCat(t: Tables, u: UserId, d: Option<DeviceId>, c: CatId): Tables {
    if !CatExists(t, c, u) || u !in t.users || !Refers(d, t.devices.Keys) || Owned(t.follows, u, c)
       || (exists f :: f in t.follows && f.cat == c && d.Some? && f.device == d)
    then t
    else t.(follows := t.follows + {Follow(Some(u), d, c)})
  }

  /** A device-owned follow, as guests wrote them before follows belonged to accounts. */
  ghost function GuestFollow(t: Tables, d: DeviceId, c: CatId): Tables {
    if c !in t.cats || d !in t.devices || (exists f :: f in t.follows && f.cat == c && f.device == Some(d)) then t
    else t.(follows := t.follows + {Follow(None, Some(d), c)})
  }

  function UnfollowCat(t: Tables, u: UserId, c: CatId): Tables {
    if !CatExists(t, c, u) then t
    else t.(follows := set f | f in t.follows && !(f.user == Some(u) && f.cat == c))
  }

  // ---- media and cats ----

  predicate CanInsertMedium(t: Tables, id: MediaId, m: Medium) {
    && id !in t.media && m.uploader in t.users && Refers(m.device, t.devices.Keys)
    && (forall x :: x in t.media ==> t.media[x].objectKey != m.objectKey)
    && (m.idempotencyKey.Some? ==>
          forall x :: x in t.media ==>
              !(t.media[x].uploader == m.uploader && t.media[x].idempotencyKey == m.idempotencyKey))
  }

  ghost function UploadMedium(t: Tables, id: MediaId, m: Medium): Tables {
    if CanInsertMedium(t, id, m) then t.(media := t.media[id := m]) else t
  }

  /** Store.CreateCatWithMedia: media row, cat row with that cover, first archive entry. */
  ghost function CreateCat(t: Tables, c: CatId, id: MediaId, m: Medium): Tables {
    if c in t.cats || m.idempotencyKey.Some? || !CanInsertMedium(t, id, m) then t
    else t.(media := t.media[id := m],
            cats := t.cats[c := Cat(Some(m.uploader), m.device, Some(id), Active)],
            archive := t.archive + {(c, id)})
  }

  function SeedCat(t: Tables, c: CatId): Tables {
    if c in t.cats then t else t.(cats := t.cats[c := Cat(None, None, None, Active)])
  }

  /** No code of the backend writes traits: CreateCatTrait has no caller. They are
      taken to be put, by hand, on ownerless cats only. */
  function SeedTrait(t: Tables, c: CatId, key: string): Tables {
    if c !in t.cats || t.cats[c].owner.Some? then t else t.(traits := t.traits + {(c, key)})
  }

  predicate CanSetCover(t: Tables, c: CatId, caller: UserId, m: MediaId) {
    c in t.cats && t.cats[c].status != Deleted && t.cats[c].owner == Some(caller) && (c, m) in t.archive
  }

  function SetCover(t: Tables, c: CatId, caller: UserId, m: MediaId): Tables {
    if CanSetCover(t, c, caller, m) then t.(cats := t.cats[c := t.cats[c].(cover := Some(m))]) else t
  }

  function SoftDeleteCat(t: Tables, c: CatId, caller: UserId): Tables {
    if c !in t.cats || t.cats[c].owner != Some(caller) then t
    else t.(cats := t.cats[c := t.cats[c].(status := Deleted)])
  }

  // ---- notifications, reports, blocks, sessions, codes ----

  /** CreateNotification for a claimed outbox row; the dedup insert does nothing on a repeat. */
  ghost function Notify(t: Tables, id: NotificationId, d: DeviceId, o: OutboxId, now: Time): Tables {
    if id in t.notifications || d !in t.devices || o !in t.outbox
       || (exists n ::
             n in t.notifications && t.notifications[n].device == d && t.notifications[n].update == t.outbox[o].update)
    then t
    else t.(notifications := t.notifications[id := Notification(d, t.outbox[o].cat, t.outbox[o].update, now)])
  }

  function MarkProcessed(t: Tables, o: OutboxId, now: Time): Tables {
    if o !in t.outbox then t else t.(outbox := t.outbox[o := t.outbox[o].(processedAt := Some(now))])
  }

  function FileReport(t: Tables, id: ReportId, reporter: UserId, target: Target): Tables {
    if id in t.reports || reporter !in t.users || !TargetExists(t, target) then t
    else t.(reports := t.reports[id := Report(reporter, target)])
  }

  function Block(t: Tables, a: UserId, b: UserId): Tables {
    if a == b || a !in t.users || b !in t.users then t else t.(blocks := t.blocks + {(a, b)})
  }

  function Unblock(t: Tables, a: UserId, b: UserId): Tables {
    t.(blocks := t.blocks - {(a, b)})
  }

  function IssueToken(t: Tables, id: TokenId, u: UserId, expiresAt: Time): Tables {
    if id in t.tokens || u !in t.users then t else t.(tokens := t.tokens[id := RefreshToken(u, expiresAt, None)])
  }

  function RevokeToken(t: Tables, id: TokenId, now: Time): Tables {
    if id !in t.tokens then t else t.(tokens := t.tokens[id := t.tokens[id].(revokedAt := Some(now))])
  }

  function StoreOtp(t: Tables, id: OtpId, code: OtpCode): Tables {
    if id in t.otps then t else t.(otps := t.otps[id := code])
  }
}
