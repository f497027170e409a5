/** What each write leaves behind, column by column, with every other row of every table as it was. */
module Effects {
  import opened Sql
  import opened Schema
  import opened Writes

  /** Every row of a but those under `keys` is unchanged in b, and b has no other new rows. */
  ghost predicate OthersUnchanged<K(!new), V>(a: map<K, V>, b: map<K, V>, keys: set<K>) {
    && (forall k :: k in a && k !in keys ==> k in b && b[k] == a[k])
    && (forall k :: k in b && k !in keys ==> k in a)
  }

  // ---- updates ----

  lemma {:induction false} DistinctIffOnce<T>(s: seq<T>)
    ensures NoDuplicates(s) <==> forall x :: multiset(s)[x] <= 1
  {
    if s != [] {
      var n := |s| - 1;
      var rest, last := s[..n], s[n];
      assert s == rest + [last];
      DistinctIffOnce(rest);
      assert multiset(s) == multiset(rest)[last := multiset(rest)[last] + 1];
      if NoDuplicates(s) { assert last !in rest; }
      if forall x :: multiset(s)[x] <= 1 {
        assert multiset(s)[last] <= 1;
        assert forall x :: multiset(rest)[x] <= multiset(s)[x];
      }
    }
  }

  /** The status-set rule: each of the three statuses at most once, no other, and none at all only if allowed. */
  lemma StatusSetMeans(statuses: seq<string>, allowEmpty: bool)
    ensures ValidStatuses(statuses, allowEmpty) <==>
            && (forall s :: s in statuses ==> s == "seen" || s == "fed" || s == "water_provided")
            && (forall s :: multiset(statuses)[s] <= 1)
            && (|statuses| == 0 ==> allowEmpty)
  {
    DistinctIffOnce(statuses);
    assert forall i :: 0 <= i < |statuses| ==> statuses[i] in statuses;
    hide NoDuplicates;
  }

  /** The cat row is there, was not removed, and its owner is not blocked by the viewer. */
  lemma VisibleCatMeans(t: Tables, c: CatId, viewer: UserId)
    ensures CatExists(t, c, viewer) <==>
            && c in t.cats && (t.cats[c].status == Active || t.cats[c].status == Inactive)
            && !(exists b :: b in t.blocks && b.0 == viewer && t.cats[c].owner == Some(b.1))
  {
    if c in t.cats && t.cats[c].owner.Some? && (viewer, t.cats[c].owner.value) in t.blocks {
      var b := (viewer, t.cats[c].owner.value);
      assert b in t.blocks && b.0 == viewer && t.cats[c].owner == Some(b.1);
    }
  }

  /** An accepted post: the request's columns in a new row, exactly the supplied statuses, the photo
      in the archive, and an unprocessed outbox row for the update. */
  lemma PostStored(t: Tables, p: NewUpdate)
    requires Referential(t) && CanCreate(t, p)
    ensures var r := CreateUpdate(t, p);
            && p.id in r.updates && OthersUnchanged(t.updates, r.updates, {p.id})
            && var u := r.updates[p.id];
            && u.cat == p.cat && u.author == Some(p.author) && u.device == p.device && u.kind == Ordinary
            && u.comment == p.comment && u.createdAt == p.createdAt && u.serial == p.serial
            && u.needsHelp == p.needsHelp && u.category == p.category && u.media == p.media && u.key == p.key
            && u.expiresAt == (if p.needsHelp then Some(p.createdAt + 72 * HOUR) else None)
            && u.updatedAt == None && u.deletedAt == None
    ensures var r := CreateUpdate(t, p);
            && (forall s :: (p.id, s) in r.statuses <==> s in p.statuses)
            && (forall x, s :: x != p.id ==> ((x, s) in r.statuses <==> (x, s) in t.statuses))
            && (forall c, m :: (c, m) in r.archive <==> (c, m) in t.archive || (c == p.cat && p.media == Some(m)))
    ensures var r := CreateUpdate(t, p);
            && p.outboxId in r.outbox && OthersUnchanged(t.outbox, r.outbox, {p.outboxId})
            && r.outbox[p.outboxId].update == p.id && r.outbox[p.outboxId].cat == p.cat
            && r.outbox[p.outboxId].processedAt == None && r.outbox[p.outboxId].queuedAt == p.queuedAt
            && r.serials == t.serials + {p.serial}
            && r == t.(updates := r.updates, statuses := r.statuses, archive := r.archive, outbox := r.outbox,
                       serials := r.serials)
  {
    hide Eligible, ValidStatuses, CatExists, KeyFree;
    assert forall s :: (p.id, s) !in t.statuses;
  }

  /** A matched delete stamps its row and touches nothing else. */
  lemma UpdateDeleted(t: Tables, k: Deletion)
    requires DeleteMatches(t, k)
    ensures var r := DeleteUpdate(t, k);
            && r == t.(updates := r.updates) && OthersUnchanged(t.updates, r.updates, {k.id})
            && k.id in r.updates && r.updates[k.id].deletedAt == Some(k.now)
            && r.updates[k.id].(deletedAt := None) == t.updates[k.id].(deletedAt := None)
  {
    hide DeleteWhere;
  }

  /** A row written by the seed program belongs to nobody and is announced to nobody. */
  lemma SeedStored(t: Tables, p: SeedUpdateRow)
    requires Referential(t) && SeedUpdate(t, p) != t
    ensures var r := SeedUpdate(t, p);
            && r == t.(updates := r.updates, statuses := r.statuses, serials := r.serials)
            && OthersUnchanged(t.updates, r.updates, {p.id}) && p.id in r.updates
            && var u := r.updates[p.id];
            && u.cat == p.cat && u.author == None && u.device == p.device && u.kind == p.kind && u.comment == None
            && u.createdAt == p.createdAt && u.serial == p.serial && u.needsHelp == p.needsHelp
            && u.category == p.category && u.expiresAt == (if p.needsHelp then Some(p.createdAt + 72 * HOUR) else None)
            && u.updatedAt == None && u.deletedAt == None && u.media == None && u.key == None
            && (forall s :: (p.id, s) in r.statuses <==> s in p.statuses)
            && (forall x, s :: x != p.id ==> ((x, s) in r.statuses <==> (x, s) in t.statuses))
  {
    hide ValidStatuses;
    assert forall s :: p.id !in t.updates ==> (p.id, s) !in t.statuses;
  }

  // ---- devices ----

  /** Linking writes one device, the device's unattributed updates and the follows, and nothing else. */
  lemma DeviceLinked(t: Tables, d: DeviceId, u: UserId)
    requires CanLink(t, d, u)
    ensures var r := LinkDevice(t, d, u);
            && r == t.(devices := r.devices, follows := r.follows, updates := r.updates)
            && OthersUnchanged(t.devices, r.devices, {d}) && d in r.devices
            && r.devices[d].user == Some(u) && r.devices[d].revokedAt == t.devices[d].revokedAt
            && r.devices[d].pushToken == t.devices[d].pushToken
            && r.updates.Keys == t.updates.Keys
            && (forall x :: x in t.updates ==>
                  if t.updates[x].device == Some(d) && t.updates[x].author == None
                  then r.updates[x].author == Some(u) && r.updates[x].(author := None) == t.updates[x]
                  else r.updates[x] == t.updates[x])
  {
    hide BackfillFollows, DeleteRedundantFollows;
  }

  /** A follow that the device made without an account. */
  predicate Guest(f: Follow, d: DeviceId) { f.device == Some(d) && f.user == None }

  lemma BackfillMeans(follows: set<Follow>, d: DeviceId, u: UserId, f: Follow)
    ensures f in BackfillFollows(follows, d, u) <==>
            || (f in follows && !Guest(f, d))
            || (f.user == Some(u) && f.device == Some(d) && Follow(None, Some(d), f.cat) in follows)
  {
    var guest := Follow(None, Some(d), f.cat);
    if f.user == Some(u) && f.device == Some(d) && guest in follows { assert Backfilled(guest, d, u) == f; }
    if f in follows && !Guest(f, d) { assert Backfilled(f, d, u) == f; }
  }

  /** The follows after a link, row by row: a row of the device without an account goes if the account follows
      the cat itself, and else becomes the account's; every other row stays. */
  lemma FollowsLinked(t: Tables, d: DeviceId, u: UserId, f: Follow)
    requires CanLink(t, d, u)
    ensures f in LinkDevice(t, d, u).follows <==>
            || (f in t.follows && !Guest(f, d))
            || (&& f.user == Some(u) && f.device == Some(d) && Follow(None, Some(d), f.cat) in t.follows
                && forall g :: g in t.follows && g.cat == f.cat ==> g.user != Some(u))
  {
    hide CanLink, BackfillAuthors, BackfillFollows;
    BackfillMeans(DeleteRedundantFollows(t.follows, d, u), d, u, f);
  }

  /** Only another account's device is refused, and then nothing changes. */
  lemma LinkRefused(t: Tables, d: DeviceId, u: UserId)
    requires d in t.devices && u in t.users
    ensures !CanLink(t, d, u) <==> t.devices[d].user.Some? && t.devices[d].user.value != u
    ensures !CanLink(t, d, u) ==> LinkDevice(t, d, u) == t
  {}

  /** Unlinking clears one device's account, if it is the caller's. */
  lemma DeviceUnlinked(t: Tables, d: DeviceId, u: UserId)
    requires d in t.devices
    ensures var r := UnlinkDevice(t, d, u);
            && r == t.(devices := r.devices) && OthersUnchanged(t.devices, r.devices, {d}) && d in r.devices
            && r.devices[d].user == (if t.devices[d].user == Some(u) then None else t.devices[d].user)
            && r.devices[d].(user := None) == t.devices[d].(user := None)
  {
    if t.devices[d].user != Some(u) { assert UnlinkDevice(t, d, u) == t; }
  }

  /** A push token is registered to exactly one device: it leaves any other that had it. */
  lemma PushTokenSet(t: Tables, d: DeviceId, token: string)
    requires d in t.devices
    ensures var r := SetPushToken(t, d, token);
            && r == t.(devices := r.devices) && r.devices.Keys == t.devices.Keys
            && (forall x :: x in r.devices ==> (r.devices[x].pushToken == Some(token) <==> x == d))
            && (forall x :: x in t.devices && x != d && t.devices[x].pushToken != Some(token) ==>
                  r.devices[x].pushToken == t.devices[x].pushToken)
            && (forall x :: x in t.devices ==>
                  r.devices[x].user == t.devices[x].user && r.devices[x].revokedAt == t.devices[x].revokedAt)
  {}

  /** Retiring an invalid token spares a fresh one registered since. */
  lemma PushTokenCleared(t: Tables, d: DeviceId, token: string)
    requires d in t.devices
    ensures var r := ClearPushToken(t, d, token);
            && r == t.(devices := r.devices) && OthersUnchanged(t.devices, r.devices, {d}) && d in r.devices
            && r.devices[d].pushToken ==
               (if t.devices[d].pushToken == Some(token) then None else t.devices[d].pushToken)
            && r.devices[d].user == t.devices[d].user && r.devices[d].revokedAt == t.devices[d].revokedAt
  {
    if t.devices[d].pushToken != Some(token) { assert ClearPushToken(t, d, token) == t; }
  }

  lemma DeviceRevoked(t: Tables, d: DeviceId, now: Time)
    requires d in t.devices
    ensures var r := RevokeDevice(t, d, now);
            && r == t.(devices := r.devices) && OthersUnchanged(t.devices, r.devices, {d}) && d in r.devices
            && r.devices[d].revokedAt == Some(now)
            && r.devices[d].user == t.devices[d].user && r.devices[d].pushToken == t.devices[d].pushToken
  {}

  // ---- follows ----

  /** Nobody's follow of the cat stands in the way: neither the account's nor the device's. */
  ghost predicate NotYetFollowed(follows: set<Follow>, u: Option<UserId>, d: Option<DeviceId>, c: CatId) {
    forall g :: g in follows && g.cat == c ==> (u == None || g.user != u) && (d == None || g.device != d)
  }

  /** Following a visible cat adds one follow, unless the account or the device has one of it already. */
  lemma CatFollowed(t: Tables, u: UserId, d: Option<DeviceId>, c: CatId)
    ensures var added := CatExists(t, c, u) && u in t.users && (d.Some? ==> d.value in t.devices)
                         && NotYetFollowed(t.follows, Some(u), d, c);
            FollowCat(t, u, d, c) == if added then t.(follows := t.follows + {Follow(Some(u), d, c)}) else t
  {
    hide CatExists;
    if !NotYetFollowed(t.follows, Some(u), d, c) { assert FollowCat(t, u, d, c) == t; }
  }

  lemma GuestFollowed(t: Tables, d: DeviceId, c: CatId)
    ensures var added := c in t.cats && d in t.devices && NotYetFollowed(t.follows, None, Some(d), c);
            GuestFollow(t, d, c) == if added then t.(follows := t.follows + {Follow(None, Some(d), c)}) else t
  {
    if !NotYetFollowed(t.follows, None, Some(d), c) { assert GuestFollow(t, d, c) == t; }
  }

  /** Unfollowing a visible cat removes exactly the account's follow of it. */
  lemma CatUnfollowed(t: Tables, u: UserId, c: CatId)
    ensures var r := UnfollowCat(t, u, c);
            && r == t.(follows := r.follows)
            && (CatExists(t, c, u) ==>
                  forall f :: f in r.follows <==> f in t.follows && !(f.user == Some(u) && f.cat == c))
            && (!CatExists(t, c, u) ==> r == t)
  {
    hide CatExists;
  }

  // ---- cats ----

  /** A new cat belongs to its creator, is active, and has the uploaded photo as cover and only archive entry. */
  lemma CatCreated(t: Tables, c: CatId, id: MediaId, m: Medium)
    requires ArchiveRefers(t.archive, t.cats.Keys, t.media.Keys) && CreateCat(t, c, id, m) != t
    ensures var r := CreateCat(t, c, id, m);
            && c !in t.cats && id !in t.media
            && r == t.(media := r.media, cats := r.cats, archive := r.archive)
            && OthersUnchanged(t.media, r.media, {id}) && id in r.media && r.media[id] == m
            && OthersUnchanged(t.cats, r.cats, {c}) && c in r.cats
            && r.cats[c].owner == Some(m.uploader) && r.cats[c].device == m.device
            && r.cats[c].cover == Some(id) && r.cats[c].status == Active
            && (forall x :: (c, x) in r.archive <==> x == id)
            && (forall b, x :: b != c ==> ((b, x) in r.archive <==> (b, x) in t.archive))
  {
    hide CanInsertMedium;
    assert c !in t.cats && (id !in t.media) by { CreationAccepted(t, c, id, m); }
    assert forall x :: (c, x) !in t.archive;
  }

  lemma CreationAccepted(t: Tables, c: CatId, id: MediaId, m: Medium)
    requires CreateCat(t, c, id, m) != t
    ensures c !in t.cats && id !in t.media
  {}

  /** The cover changes exactly when the owner of a cat that was not removed names a photo of its archive. */
  lemma CoverSet(t: Tables, c: CatId, caller: UserId, m: MediaId)
    requires c in t.cats
    ensures var r := SetCover(t, c, caller, m);
            && r == t.(cats := r.cats) && OthersUnchanged(t.cats, r.cats, {c}) && c in r.cats
            && r.cats[c].(cover := None) == t.cats[c].(cover := None)
            && r.cats[c].cover ==
               if t.cats[c].owner == Some(caller) && t.cats[c].status != Deleted && (c, m) in t.archive
               then Some(m) else t.cats[c].cover
  {
    if !CanSetCover(t, c, caller, m) { assert SetCover(t, c, caller, m) == t; }
  }

  /** Only its owner removes a cat, and the row stays. */
  lemma CatRemoved(t: Tables, c: CatId, caller: UserId)
    requires c in t.cats
    ensures var r := SoftDeleteCat(t, c, caller);
            && r == t.(cats := r.cats) && OthersUnchanged(t.cats, r.cats, {c}) && c in r.cats
            && r.cats[c].(status := Active) == t.cats[c].(status := Active)
            && r.cats[c].status == if t.cats[c].owner == Some(caller) then Deleted else t.cats[c].status
  {
    if t.cats[c].owner != Some(caller) { assert SoftDeleteCat(t, c, caller) == t; }
  }

  // ---- reports and blocks ----

  lemma ReportFiled(t: Tables, id: ReportId, reporter: UserId, target: Target)
    requires id !in t.reports && reporter in t.users
    ensures var r := FileReport(t, id, reporter, target);
            && r == t.(reports := r.reports) && OthersUnchanged(t.reports, r.reports, {id})
            && (id in r.reports <==>
                  || (target.CatTarget? && target.cat in t.cats)
                  || (target.UpdateTarget? && target.update in t.updates)
                  || (target.MediaTarget? && target.media in t.media))
            && (id in r.reports ==> r.reports[id].reporter == reporter && r.reports[id].target == target)
  {
    if !TargetExists(t, target) { assert FileReport(t, id, reporter, target) == t; }
  }

  lemma BlockAndUnblock(t: Tables, a: UserId, b: UserId)
    requires a in t.users && b in t.users
    ensures Block(t, a, b) == t.(blocks := Block(t, a, b).blocks)
    ensures Unblock(t, a, b) == t.(blocks := Unblock(t, a, b).blocks)
    ensures (a, b) in Block(t, a, b).blocks <==> a != b || (a, b) in t.blocks
    ensures (a, b) !in Unblock(t, a, b).blocks
    ensures forall x, y :: (x, y) != (a, b) ==>
              ((x, y) in t.blocks <==> (x, y) in Block(t, a, b).blocks)
              && ((x, y) in t.blocks <==> (x, y) in Unblock(t, a, b).blocks)
  {}

  // ---- notifications ----

  /** A notification names its device and the row's cat and update, once per device and update. */
  lemma Notified(t: Tables, id: NotificationId, d: DeviceId, o: OutboxId, now: Time)
    requires id !in t.notifications && d in t.devices && o in t.outbox
    ensures var r := Notify(t, id, d, o, now);
            && r == t.(notifications := r.notifications) && OthersUnchanged(t.notifications, r.notifications, {id})
            && (id in r.notifications <==>
                  forall n :: n in t.notifications && t.notifications[n].device == d ==>
                    t.notifications[n].update != t.outbox[o].update)
            && (id in r.notifications ==>
                  && r.notifications[id].device == d && r.notifications[id].createdAt == now
                  && r.notifications[id].cat == t.outbox[o].cat && r.notifications[id].update == t.outbox[o].update)
  {
    if exists n ::
         n in t.notifications && t.notifications[n].device == d && t.notifications[n].update == t.outbox[o].update
    {
      assert Notify(t, id, d, o, now) == t;
    }
  }

  lemma RowProcessed(t: Tables, o: OutboxId, now: Time)
    requires o in t.outbox
    ensures var r := MarkProcessed(t, o, now);
            && r == t.(outbox := r.outbox) && OthersUnchanged(t.outbox, r.outbox, {o}) && o in r.outbox
            && r.outbox[o].processedAt == Some(now)
            && r.outbox[o] == t.outbox[o].(processedAt := r.outbox[o].processedAt)
  {}

  // ---- accounts, devices, sessions and codes ----

  /** A new account needs a phone number that no account has. */
  lemma UserJoined(t: Tables, id: UserId, phone: string)
    requires id !in t.users
    ensures var r := CreateUser(t, id, phone);
            && r == t.(users := r.users) && OthersUnchanged(t.users, r.users, {id})
            && (id in r.users <==> forall u :: u in t.users ==> t.users[u].phone != phone)
            && (id in r.users ==> r.users[id].phone == phone)
  {
    if exists u :: u in t.users && t.users[u].phone == phone { assert CreateUser(t, id, phone) == t; }
  }

  lemma DeviceRegistered(t: Tables, d: DeviceId)
    requires d !in t.devices
    ensures var r := RegisterDevice(t, d);
            && r == t.(devices := r.devices) && OthersUnchanged(t.devices, r.devices, {d}) && d in r.devices
            && r.devices[d].user == None && r.devices[d].revokedAt == None && r.devices[d].pushToken == None
  {}

  /** A token starts active and ends by its revocation alone. */
  lemma TokenIssuedAndEnded(t: Tables, id: TokenId, u: UserId, expiresAt: Time, now: Time)
    requires id !in t.tokens && u in t.users
    ensures var r := IssueToken(t, id, u, expiresAt);
            && r == t.(tokens := r.tokens) && OthersUnchanged(t.tokens, r.tokens, {id}) && id in r.tokens
            && r.tokens[id].user == u && r.tokens[id].expiresAt == expiresAt && r.tokens[id].revokedAt == None
            && var e := RevokeToken(r, id, now);
            && e == r.(tokens := e.tokens) && OthersUnchanged(r.tokens, e.tokens, {id}) && id in e.tokens
            && e.tokens[id].revokedAt == Some(now)
            && e.tokens[id] == r.tokens[id].(revokedAt := e.tokens[id].revokedAt)
  {}

  lemma CodeStored(t: Tables, id: OtpId, code: OtpCode)
    requires id !in t.otps
    ensures var r := StoreOtp(t, id, code);
            && r == t.(otps := r.otps) && OthersUnchanged(t.otps, r.otps, {id}) && id in r.otps && r.otps[id] == code
  {}

  // ---- media ----

  /** An upload is stored unless its object key, or its key of that uploader, is taken. */
  lemma MediumStored(t: Tables, id: MediaId, m: Medium)
    requires id !in t.media && m.uploader in t.users && (m.device.Some? ==> m.device.value in t.devices)
    ensures var r := UploadMedium(t, id, m);
            && r == t.(media := r.media) && OthersUnchanged(t.media, r.media, {id})
            && (id in r.media <==>
                  forall x :: x in t.media ==>
                    && t.media[x].objectKey != m.objectKey
                    && (m.idempotencyKey == None || t.media[x].uploader != m.uploader
                        || t.media[x].idempotencyKey != m.idempotencyKey))
            && (id in r.media ==> r.media[id] == m)
  {
    if !CanInsertMedium(t, id, m) { assert UploadMedium(t, id, m) == t; }
  }
}
