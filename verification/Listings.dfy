/** The paginated reads: update history, discover and the inbox, from the text
    cursor a client sends to the text cursor it gets back. */
module Listings {
  import opened Sql
  import opened Schema
  import opened Writes
  import opened Machine
  import opened History
  import opened HelpMarks
  import opened Keyset
  import opened Cursors

  const DEFAULT_LIMIT := 20
  const MAX_LIMIT := 50

  /** Zero means the default; outside 1..50 is refused. */
  function PageSize(limit: int): Option<nat> {
    if limit == 0 then Some(DEFAULT_LIMIT) else if limit < 0 || limit > MAX_LIMIT then None else Some(limit)
  }

  datatype Response<K> = InvalidLimit | InvalidCursor | Served(items: seq<K>, next: Text)

  function Position<K>(d: Decoded<K>): Option<K>
    requires !d.Malformed?
  {
    if d.Start? then None else Some(d.position)
  }

  /** One request. The empty next cursor means there is no further page. */
  ghost function Serve<K(!new)>(before: (K, K) -> bool, encode: K -> Text, decode: Text -> Decoded<K>, rows: set<K>,
                                cursor: Text, limit: int)
    : Response<K>
    requires StrictTotal(before)
  {
    if PageSize(limit).None? then InvalidLimit
    else if decode(cursor).Malformed? then InvalidCursor
    else
      var p := FetchPage(before, rows, Position(decode(cursor)), PageSize(limit).value);
      Served(p.items, if p.next.Some? then encode(p.next.value) else [])
  }

  /** What one request answers: pages of at most the asked size, full unless they are the last; limits
      outside 0 to 50 and unreadable cursors are refused, in that order. */
  lemma ServeAnswers<K(!new)>(before: (K, K) -> bool, encode: K -> Text, decode: Text -> Decoded<K>, rows: set<K>,
                              cursor: Text, limit: int)
    requires StrictTotal(before)
    ensures var r, size := Serve(before, encode, decode, rows, cursor, limit), if limit == 0 then 20 else limit;
            && (r == InvalidLimit <==> limit < 0 || limit > 50)
            && (r == InvalidCursor <==> 0 <= limit <= 50 && decode(cursor).Malformed?)
            && (r.Served? ==> |r.items| <= size && (r.next != [] ==> |r.items| == size))
  {
    if PageSize(limit).Some? && !decode(cursor).Malformed? {
      PageIsPrefix(before, rows, Position(decode(cursor)), PageSize(limit).value);
    }
  }

  /** The empty cursor starts at the top and every row's cursor decodes to that row. */
  ghost predicate Faithful<K(!new)>(encode: K -> Text, decode: Text -> Decoded<K>, rows: set<K>) {
    decode([]) == Start && forall k :: k in rows ==> encode(k) != [] && decode(encode(k)) == At(k)
  }

  lemma NextIsARow<K(!new)>(before: (K, K) -> bool, rows: set<K>, cursor: Option<K>, limit: nat)
    requires StrictTotal(before) && limit >= 1
    ensures var p := FetchPage(before, rows, cursor, limit); p.next.Some? ==> p.next.value in rows
  {
    PageIsPrefix(before, rows, cursor, limit);
    var p, all := FetchPage(before, rows, cursor, limit), Listing(before, Beyond(before, rows, cursor));
    if p.next.Some? { assert all[limit - 1] in all; }
  }

  /** What a client collects by sending each next cursor back until it is empty. */
  ghost function Collect<K(!new)>(before: (K, K) -> bool, encode: K -> Text, decode: Text -> Decoded<K>, rows: set<K>,
                                  cursor: Text, limit: int)
    : seq<K>
    requires StrictTotal(before) && Faithful(encode, decode, rows) && PageSize(limit).Some?
             && !decode(cursor).Malformed?
    decreases |Beyond(before, rows, Position(decode(cursor)))|
  {
    var r := Serve(before, encode, decode, rows, cursor, limit);
    NextIsARow(before, rows, Position(decode(cursor)), PageSize(limit).value);
    if r.next == [] then r.items
    else
      RestBeyondNext(before, rows, Position(decode(cursor)), PageSize(limit).value);
      r.items + Collect(before, encode, decode, rows, r.next, limit)
  }

  lemma {:induction false} CollectFollowsCursors<K(!new)>(before: (K, K) -> bool, encode: K -> Text,
                                                          decode: Text -> Decoded<K>,
                                                          rows: set<K>, cursor: Text, limit: int)
    requires StrictTotal(before) && Faithful(encode, decode, rows) && PageSize(limit).Some?
             && !decode(cursor).Malformed?
    ensures Collect(before, encode, decode, rows, cursor, limit)
         == FollowCursors(before, rows, Position(decode(cursor)), PageSize(limit).value)
    decreases |Beyond(before, rows, Position(decode(cursor)))|
  {
    var r, here, size := Serve(before, encode, decode, rows, cursor, limit), Position(decode(cursor)),
        PageSize(limit).value;
    NextIsARow(before, rows, here, size);
    if r.next != [] {
      RestBeyondNext(before, rows, here, size);
      CollectFollowsCursors(before, encode, decode, rows, r.next, limit);
    }
  }

  /** From the empty cursor the client collects the whole ordered list. */
  lemma CollectIsWholeList<K(!new)>(before: (K, K) -> bool, encode: K -> Text, decode: Text -> Decoded<K>,
                                    rows: set<K>, limit: int)
    requires StrictTotal(before) && Faithful(encode, decode, rows) && PageSize(limit).Some?
    ensures Collect(before, encode, decode, rows, [], limit) == Listing(before, rows)
  {
    CollectFollowsCursors(before, encode, decode, rows, [], limit);
    PagesAreWholeList(before, rows, PageSize(limit).value);
  }

  // ---- update history ----

  /** Places of the cat's undeleted updates. */
  function Visible(updates: map<UpdateId, Update>, c: CatId): set<Place> {
    set x | x in updates && updates[x].cat == c && Live(updates[x]) :: PlaceOf(updates[x])
  }

  lemma UpdateHistoryPages(updates: map<UpdateId, Update>, c: CatId, limit: int)
    requires PageSize(limit).Some? && forall x :: x in updates ==>
                                                    Int64(updates[x].createdAt) && Int64(updates[x].serial)
    ensures StrictTotal(Newer) && Faithful(EncodeUpdatesCursor, DecodeUpdatesCursor, Visible(updates, c))
    ensures Collect(Newer, EncodeUpdatesCursor, DecodeUpdatesCursor, Visible(updates, c), [], limit) ==
            Listing(Newer, Visible(updates, c))
  {
    NewerIsStrictTotal();
    forall p | p in Visible(updates, c)
      ensures EncodeUpdatesCursor(p) != [] && DecodeUpdatesCursor(EncodeUpdatesCursor(p)) == At(p)
    {
      UpdatesCursorRoundTrip(p);
    }
    CollectIsWholeList(Newer, EncodeUpdatesCursor, DecodeUpdatesCursor, Visible(updates, c), limit);
  }

  /** What a client collects of a cat's history, from the empty cursor on. */
  ghost function CollectHistory(updates: map<UpdateId, Update>, c: CatId, limit: int): (s: seq<Place>)
    requires PageSize(limit).Some? && forall x :: x in updates ==>
                                                    Int64(updates[x].createdAt) && Int64(updates[x].serial)
    ensures StrictTotal(Newer) && s == Listing(Newer, Visible(updates, c))
  {
    UpdateHistoryPages(updates, c, limit);
    Collect(Newer, EncodeUpdatesCursor, DecodeUpdatesCursor, Visible(updates, c), [], limit)
  }

  /** Exactly the cat's undeleted updates, marks and others, each once, newest first. */
  lemma HistoryServes(t: Tables, c: CatId, limit: int, x: UpdateId)
    requires Inv(t) && x in t.updates
    requires PageSize(limit).Some? && forall y :: y in t.updates ==>
                                                    Int64(t.updates[y].createdAt) && Int64(t.updates[y].serial)
    ensures var s := CollectHistory(t.updates, c, limit);
            && (t.updates[x].cat == c && t.updates[x].deletedAt.None? <==>
                  exists i :: 0 <= i < |s| && s[i] == PlaceOf(t.updates[x]))
            && (forall i, j :: 0 <= i < j < |s| ==>
                  s[i].createdAt > s[j].createdAt || (s[i].createdAt == s[j].createdAt && s[i].serial > s[j].serial))
            && (forall i, j :: 0 <= i < |s| && 0 <= j < |s| && s[i] == s[j] ==> i == j)
  {
    hide Referential, Attributed, WellFormed, Int64;
    var s, p := CollectHistory(t.updates, c, limit), PlaceOf(t.updates[x]);
    hide CollectHistory;
    assert p in s <==> p in Visible(t.updates, c);
    if p in Visible(t.updates, c) {
      var y := PlacesAreRows(t, c, p);
      assert y == x;
    }
  }

  /** Serials are unique, so each place served stands for exactly one update. */
  lemma PlacesAreRows(t: Tables, c: CatId, p: Place) returns (id: UpdateId)
    requires Inv(t) && p in Visible(t.updates, c)
    ensures id in t.updates && t.updates[id].cat == c && Live(t.updates[id]) && PlaceOf(t.updates[id]) == p
    ensures forall x :: x in t.updates && PlaceOf(t.updates[x]) == p ==> x == id
  {
    id :| id in t.updates && t.updates[id].cat == c && Live(t.updates[id]) && PlaceOf(t.updates[id]) == p;
  }

  // ---- discover ----

  /** Nearest first, ties by id. */
  predicate Nearer(a: DiscoverPlace<CatId>, b: DiscoverPlace<CatId>) {
    a.distance < b.distance || (a.distance == b.distance && a.id < b.id)
  }

  datatype Filter = Nearby | NeedsHelp

  /** The where clause of the needs_help query on the joined columns. */
  function NeedsHelpWhere(j: JoinedMark, now: Time): Truth {
    And3(Not3(IsNull(j.expiresAt)), Gt3(j.expiresAt, Some(now)))
  }

  ghost predicate Discoverable(t: Tables, c: CatId, filter: Filter, viewer: Option<UserId>, now: Time) {
    && c in t.cats && t.cats[c].status == Active
    && !(viewer.Some? && Blocks(t, viewer.value, t.cats[c].owner))
    && (filter.NeedsHelp? ==> Matches(NeedsHelpWhere(Joined(t.updates, c), now)))
  }

  /** The candidates at one clock reading, `distance` being each cat's distance from the caller. */
  ghost function Candidates(t: Tables, distance: CatId -> real, filter: Filter, viewer: Option<UserId>,
                            now: Time): set<DiscoverPlace<CatId>>
  {
    set c | c in t.cats && Discoverable(t, c, filter, viewer, now) :: DiscoverPlace(distance(c), c)
  }

  /** Go's float and uuid text forms, as used by the discover cursor. */
  datatype Forms = Forms(formatReal: real -> Text, parseReal: Text -> Option<real>, formatId: int -> Text,
                         parseId: Text -> Option<int>)

  ghost predicate DiscoverForms(f: Forms, distance: CatId -> real) {
    forall c :: distance(c) >= 0.0 && RoundTrips(f.formatReal, f.parseReal, distance(c))
        && COLON !in f.formatReal(distance(c))
                && RoundTrips(f.formatId, f.parseId, c)
  }

  lemma DiscoverPages(t: Tables, distance: CatId -> real, filter: Filter, viewer: Option<UserId>, now: Time, f: Forms,
                      limit: int)
    requires PageSize(limit).Some? && DiscoverForms(f, distance)
    ensures StrictTotal(Nearer)
    ensures var rows, encode, decode := Candidates(t, distance, filter, viewer, now),
                                        (p: DiscoverPlace<CatId>) => EncodeDiscoverCursor(f.formatReal, f.formatId, p),
                                        (s: Text) => DecodeDiscoverCursor(f.parseReal, f.parseId, s);
            Faithful(encode, decode, rows) && Collect(Nearer, encode, decode, rows, [], limit) == Listing(Nearer, rows)
  {
    var rows := Candidates(t, distance, filter, viewer, now);
    var encode := (p: DiscoverPlace<CatId>) => EncodeDiscoverCursor(f.formatReal, f.formatId, p);
    var decode := (s: Text) => DecodeDiscoverCursor(f.parseReal, f.parseId, s);
    assert StrictTotal(Nearer);
    forall p | p in rows ensures encode(p) != [] && decode(encode(p)) == At(p) {
      DiscoverCursorRoundTrip(f.formatReal, f.parseReal, f.formatId, f.parseId, p);
    }
    CollectIsWholeList(Nearer, encode, decode, rows, limit);
  }

  ghost function CollectDiscover(t: Tables, distance: CatId -> real, filter: Filter, viewer: Option<UserId>, now: Time,
                                 f: Forms, limit: int): (s: seq<DiscoverPlace<CatId>>)
    requires PageSize(limit).Some? && DiscoverForms(f, distance)
    ensures StrictTotal(Nearer) && s == Listing(Nearer, Candidates(t, distance, filter, viewer, now))
  {
    DiscoverPages(t, distance, filter, viewer, now, f, limit);
    Collect(Nearer, (p: DiscoverPlace<CatId>) => EncodeDiscoverCursor(f.formatReal, f.formatId, p),
            (s: Text) => DecodeDiscoverCursor(f.parseReal, f.parseId, s),
            Candidates(t, distance, filter, viewer, now), [], limit)
  }

  /** A live help mark of the cat, less than 72 hours old. */
  ghost predicate Marked72(t: Tables, c: CatId, now: Time) {
    exists x :: x in t.updates && t.updates[x].cat == c && t.updates[x].needsHelp && t.updates[x].deletedAt.None?
                && now < t.updates[x].createdAt + 72 * HOUR
  }

  /** Exactly the active cats whose owner the viewer does not block, for needs_help those with a recent
      mark, each once at its distance, nearest first. */
  lemma DiscoverServes(t: Tables, distance: CatId -> real, filter: Filter, viewer: Option<UserId>, now: Time, f: Forms,
                       limit: int, c: CatId)
    requires Inv(t) && PageSize(limit).Some? && DiscoverForms(f, distance)
    ensures var s := CollectDiscover(t, distance, filter, viewer, now, f, limit);
            && ((exists i :: 0 <= i < |s| && s[i] == DiscoverPlace(distance(c), c)) <==>
                  && c in t.cats && t.cats[c].status == Active
                  && !(viewer.Some? && exists b :: b in t.blocks && b.0 == viewer.value && t.cats[c].owner == Some(b.1))
                  && (filter == NeedsHelp ==> Marked72(t, c, now)))
            && (forall i :: 0 <= i < |s| ==> s[i].distance == distance(s[i].id))
            && (forall i, j :: 0 <= i < j < |s| ==>
                  s[i].distance < s[j].distance || (s[i].distance == s[j].distance && s[i].id < s[j].id))
  {
    hide Inv, DiscoverForms, Discoverable;
    var s, p := CollectDiscover(t, distance, filter, viewer, now, f, limit), DiscoverPlace(distance(c), c);
    hide CollectDiscover;
    DiscoverableMeans(t, c, filter, viewer, now);
    assert p in s <==> p in Candidates(t, distance, filter, viewer, now);
    forall i | 0 <= i < |s| ensures s[i].distance == distance(s[i].id) {
      assert s[i] in s;
    }
  }

  lemma DiscoverableMeans(t: Tables, c: CatId, filter: Filter, viewer: Option<UserId>, now: Time)
    requires Inv(t)
    ensures c in t.cats && Discoverable(t, c, filter, viewer, now) <==>
            && c in t.cats && t.cats[c].status == Active
            && !(viewer.Some? && exists b :: b in t.blocks && b.0 == viewer.value && t.cats[c].owner == Some(b.1))
            && (filter == NeedsHelp ==> Marked72(t, c, now))
  {
    hide Referential, Unique, Attributed, Joined;
    AlertShownIffUnexpiredMark(t.updates, c, now);
    assert Marked72(t, c, now) <==> exists x :: x in Marks(t.updates, c) && Unexpired(t.updates[x], now);
    if viewer.Some? && c in t.cats && t.cats[c].owner.Some? {
      var b := (viewer.value, t.cats[c].owner.value);
      assert b in t.blocks ==> b.0 == viewer.value && t.cats[c].owner == Some(b.1);
    }
  }

  /** At one clock reading the query's filter and the alert the service derives
      agree: the needs_help list is the nearby list restricted to the cats whose
      alert the same request shows. */
  lemma NeedsHelpRefinesNearby(t: Tables, distance: CatId -> real, viewer: Option<UserId>, now: Time,
                               p: DiscoverPlace<CatId>)
    ensures p in Candidates(t, distance, NeedsHelp, viewer, now) <==>
            && p in Candidates(t, distance, Nearby, viewer, now)
            && DeriveActiveAlert(Joined(t.updates, p.id), now).Some?
  {
    hide Joined;
  }

  /** In consistent tables those are the nearby cats with a live mark less than 72 hours old, the latest or not. */
  lemma NeedsHelpListsRecentMarks(t: Tables, distance: CatId -> real, viewer: Option<UserId>, now: Time,
                                  p: DiscoverPlace<CatId>)
    requires Inv(t)
    ensures p in Candidates(t, distance, NeedsHelp, viewer, now) <==>
            && p in Candidates(t, distance, Nearby, viewer, now)
            && exists x :: x in Marks(t.updates, p.id) && now < t.updates[x].createdAt + NEEDS_HELP_EXPIRY
  {
    hide Referential, Unique, Attributed, Joined, Candidates;
    NeedsHelpRefinesNearby(t, distance, viewer, now, p);
    AlertShownIffUnexpiredMark(t.updates, p.id, now);
  }

  /** The alert shown for a cat is its newest live mark's, expiring 72 hours after that mark. */
  lemma ShownAlertIsNewestMark(t: Tables, c: CatId, now: Time) returns (x: UpdateId)
    requires Inv(t) && AlertShown(t.updates, c, now)
    ensures IsLatest(t.updates, c, x)
    ensures var a, u := DeriveActiveAlert(Joined(t.updates, c), now).value, t.updates[x];
            && a.createdAt == Some(u.createdAt) && a.expiresAt == u.createdAt + NEEDS_HELP_EXPIRY
            && now < a.expiresAt && a.comment == u.comment
            && a.category == if u.category.Some? then u.category.value else "unspecified"
  {
    hide Referential, Unique, Attributed;
    x := LatestMark(t.updates, c).value;
  }

  // ---- inbox ----

  predicate Fresher(a: InboxPlace<NotificationId>, b: InboxPlace<NotificationId>) {
    a.createdAt > b.createdAt || (a.createdAt == b.createdAt && a.id > b.id)
  }

  /** Notifications delivered to a device the account owns now. */
  function Inbox(t: Tables, u: UserId): set<InboxPlace<NotificationId>> {
    set n | n in t.notifications && t.notifications[n].device in t.devices
        && t.devices[t.notifications[n].device].user == Some(u)
      :: InboxPlace(t.notifications[n].createdAt, n)
  }

  lemma InboxPages(t: Tables, u: UserId, formatId: int -> Text, parseId: Text -> Option<int>, limit: int)
    requires PageSize(limit).Some? && (forall n: int :: RoundTrips(formatId, parseId, n))
    requires forall n :: n in t.notifications ==> Int64(t.notifications[n].createdAt)
    ensures StrictTotal(Fresher)
    ensures var rows, encode, decode := Inbox(t, u),
                                        (p: InboxPlace<NotificationId>) => EncodeInboxCursor(formatId, p), (s: Text) =>
                                          DecodeInboxCursor(parseId, s);
            Faithful(encode, decode, rows)
            && Collect(Fresher, encode, decode, rows, [], limit) == Listing(Fresher, rows)
  {
    var rows := Inbox(t, u);
    var encode := (p: InboxPlace<NotificationId>) => EncodeInboxCursor(formatId, p);
    var decode := (s: Text) => DecodeInboxCursor(parseId, s);
    assert StrictTotal(Fresher);
    forall p | p in rows ensures encode(p) != [] && decode(encode(p)) == At(p) {
      InboxCursorRoundTrip(formatId, parseId, p);
    }
    CollectIsWholeList(Fresher, encode, decode, rows, limit);
  }

  ghost function CollectInbox(t: Tables, u: UserId, formatId: int -> Text, parseId: Text -> Option<int>,
                              limit: int): (s: seq<InboxPlace<NotificationId>>)
    requires PageSize(limit).Some? && (forall n: int :: RoundTrips(formatId, parseId, n))
    requires forall n :: n in t.notifications ==> Int64(t.notifications[n].createdAt)
    ensures StrictTotal(Fresher) && s == Listing(Fresher, Inbox(t, u))
  {
    InboxPages(t, u, formatId, parseId, limit);
    Collect(Fresher, (p: InboxPlace<NotificationId>) => EncodeInboxCursor(formatId, p),
            (s: Text) => DecodeInboxCursor(parseId, s), Inbox(t, u), [], limit)
  }

  /** Exactly the notifications of the devices that are the account's now, each once, newest first. */
  lemma InboxServes(t: Tables, u: UserId, formatId: int -> Text, parseId: Text -> Option<int>, limit: int,
                    n: NotificationId)
    requires PageSize(limit).Some? && (forall n: int :: RoundTrips(formatId, parseId, n))
    requires n in t.notifications && forall n :: n in t.notifications ==> Int64(t.notifications[n].createdAt)
    ensures var s, note := CollectInbox(t, u, formatId, parseId, limit), t.notifications[n];
            && ((exists i :: 0 <= i < |s| && s[i] == InboxPlace(note.createdAt, n)) <==>
                  note.device in t.devices && t.devices[note.device].user == Some(u))
            && (forall i :: 0 <= i < |s| ==>
                  s[i].id in t.notifications && s[i].createdAt == t.notifications[s[i].id].createdAt)
            && (forall i, j :: 0 <= i < j < |s| ==>
                  s[i].createdAt > s[j].createdAt || (s[i].createdAt == s[j].createdAt && s[i].id > s[j].id))
  {
    hide Int64;
    var s, p := CollectInbox(t, u, formatId, parseId, limit), InboxPlace(t.notifications[n].createdAt, n);
    hide CollectInbox;
    assert p in s <==> p in Inbox(t, u);
    forall i | 0 <= i < |s| ensures s[i] in Inbox(t, u) {
      assert s[i] in s;
    }
  }

  // ---- update history while the tables change ----

  /** The cat's history as the j-th page request finds it, after the first at[j] writes of the run. */
  ghost function Seen(ops: seq<Op>, at: seq<nat>, c: CatId): seq<set<Place>>
    requires forall j :: 0 <= j < |at| ==> at[j] <= |ops|
  {
    seq(|at|, j requires 0 <= j < |at| => Visible(Run(EMPTY, ops[..at[j]]).updates, c))
  }

  lemma SameSerialSamePlace(before: Tables, after: Tables, c: CatId, p: Place, q: Place)
    requires SameHistory(before, after) && p.serial == q.serial && p in Visible(before.updates, c)
             && q in Visible(after.updates, c)
    ensures p == q
  {
    var x :| x in before.updates && PlaceOf(before.updates[x]) == p;
    var y :| y in after.updates && PlaceOf(after.updates[y]) == q;
    assert PlaceOf(before.updates[x]).serial == before.updates[x].serial;
    assert PlaceOf(after.updates[y]).serial == after.updates[y].serial;
    assert Carried(before.updates[x], after.updates[y]);
  }

  /** Two places with one serial, seen at any two points of a run, are the same place of the same update. */
  lemma SerialNamesOnePlace(ops: seq<Op>, i: nat, j: nat, c: CatId, p: Place, q: Place)
    requires i <= j <= |ops| && p.serial == q.serial
    requires p in Visible(Run(EMPTY, ops[..i]).updates, c) && q in Visible(Run(EMPTY, ops[..j]).updates, c)
    ensures p == q
  {
    HistoryNeverRewritten(ops, i, j);
    hide Run;
    SameSerialSamePlace(Run(EMPTY, ops[..i]), Run(EMPTY, ops[..j]), c, p, q);
  }

  /** With any writes between the requests, a page chain is strictly ordered, so
      it never serves an update twice: not even under a changed place. */
  lemma ChainNeverRepeats(ops: seq<Op>, at: seq<nat>, c: CatId, limit: nat, i: nat, j: nat)
    requires limit >= 1 && StrictTotal(Newer)
    requires forall a, b :: 0 <= a <= b < |at| ==> at[a] <= at[b] <= |ops|
    requires i < j < |Chain(Newer, Seen(ops, at, c), None, limit)|
    ensures var served := Chain(Newer, Seen(ops, at, c), None, limit);
            Newer(served[i], served[j]) && served[i].serial != served[j].serial
  {
    hide Run;
    var states := Seen(ops, at, c);
    var served := Chain(Newer, states, None, limit);
    ChainAscends(Newer, states, None, limit);
    assert served[i] in served && served[j] in served;
    var a :| 0 <= a < |states| && served[i] in states[a];
    var b :| 0 <= b < |states| && served[j] in states[b];
    if served[i].serial == served[j].serial {
      if a <= b { SerialNamesOnePlace(ops, at[a], at[b], c, served[i], served[j]); }
      else { SerialNamesOnePlace(ops, at[b], at[a], c, served[j], served[i]); }
    }
  }

  /** An update of the cat that was there, undeleted, at every request of a finished chain was served. */
  lemma ChainServesTheSteady(ops: seq<Op>, at: seq<nat>, c: CatId, limit: nat, x: UpdateId, p: Place)
    requires limit >= 1 && StrictTotal(Newer) && (forall j :: 0 <= j < |at| ==> at[j] <= |ops|)
    requires Finished(Newer, Seen(ops, at, c), None, limit)
    requires forall j :: 0 <= j < |at| ==>
                           var updates := Run(EMPTY, ops[..at[j]]).updates;
                           && x in updates && updates[x].cat == c && updates[x].deletedAt.None?
                           && updates[x].createdAt == p.createdAt && updates[x].serial == p.serial
    ensures p in Chain(Newer, Seen(ops, at, c), None, limit)
  {
    hide Run;
    forall j | 0 <= j < |at| ensures p in Visible(Run(EMPTY, ops[..at[j]]).updates, c) {
      assert PlaceOf(Run(EMPTY, ops[..at[j]]).updates[x]) == p;
    }
    ChainServes(Newer, Seen(ops, at, c), None, limit, p);
  }
}
