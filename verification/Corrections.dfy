/** Why a correction or a delete matched no row: the diagnosis that runs after
    the conditional statement against the statement's own where clause. */
module Corrections {
  import opened Sql
  import opened Schema
  import opened Writes
  import opened Machine

  datatype Cause = UnknownUpdate | LegacyUpdate | OtherAuthor | AlreadyDeleted | WindowClosed | CoversCat

  datatype Attempt = Attempt(id: UpdateId, cat: CatId, author: UserId, now: Time)

  /** coalesce(c.primary_photo_id = u.media_id, false) */
  predicate HoldsCover(t: Tables, u: Update)
    requires u.cat in t.cats
  {
    Coalesce(Eq3(t.cats[u.cat].cover, u.media))
  }

  /** resolveCorrectionFailure up to its fallback: the first cause it finds, in its order. */
  function Diagnose(t: Tables, a: Attempt, correction: bool): Option<Cause> {
    if a.id !in t.updates || t.updates[a.id].cat != a.cat || a.cat !in t.cats then Some(UnknownUpdate)
    else
      var u := t.updates[a.id];
      if u.kind != Ordinary then Some(LegacyUpdate)
      else if u.author.None? || u.author.value != a.author then Some(OtherAuthor)
      else if u.deletedAt.Some? then Some(AlreadyDeleted)
      else if !(u.createdAt > a.now - CORRECTION_WINDOW) then Some(WindowClosed)
      else if !correction && HoldsCover(t, u) then Some(CoversCat)
      else None
  }

  /** What each reported cause claims about the tables, in the terms of the design. */
  ghost predicate Holds(t: Tables, a: Attempt, c: Cause) {
    match c
    case UnknownUpdate => !(exists x :: x == a.id && x in t.updates && t.updates[x].cat == a.cat)
    case LegacyUpdate => a.id in t.updates && t.updates[a.id].kind == Legacy
    case OtherAuthor => a.id in t.updates && t.updates[a.id].author != Some(a.author)
    case AlreadyDeleted => a.id in t.updates && !Live(t.updates[a.id])
    case WindowClosed => a.id in t.updates && t.updates[a.id].createdAt + CORRECTION_WINDOW <= a.now
    case CoversCat =>
      a.id in t.updates && t.updates[a.id].media.Some? && a.cat in t.cats
      && t.cats[a.cat].cover == t.updates[a.id].media
  }

  /** The attempt names a row of its cat. */
  predicate Named(t: Tables, a: Attempt) { a.id in t.updates && t.updates[a.id].cat == a.cat }

  /** The caller's own ordinary update of the cat, deleted or not. */
  predicate Own(t: Tables, a: Attempt) {
    Named(t, a) && t.updates[a.id].kind == Ordinary && t.updates[a.id].author == Some(a.author)
  }

  /** The same, undeleted and less than ten minutes old. */
  predicate OwnOpen(t: Tables, a: Attempt) {
    Own(t, a) && t.updates[a.id].deletedAt.None? && a.now < t.updates[a.id].createdAt + 10 * MINUTE
  }

  /** The update's photo is its cat's cover. */
  predicate IsCover(t: Tables, a: Attempt) {
    && a.id in t.updates && t.updates[a.id].media.Some?
    && a.cat in t.cats && t.cats[a.cat].cover == t.updates[a.id].media
  }

  /** Which cause is reported when several hold: each exactly for its own rows. */
  lemma DiagnosisExact(t: Tables, a: Attempt, correction: bool)
    requires Referential(t)
    ensures var d := Diagnose(t, a, correction);
            && (d == Some(UnknownUpdate) <==> !Named(t, a))
            && (d == Some(LegacyUpdate) <==> Named(t, a) && t.updates[a.id].kind == Legacy)
            && (d == Some(OtherAuthor) <==>
                  Named(t, a) && t.updates[a.id].kind == Ordinary && t.updates[a.id].author != Some(a.author))
            && (d == Some(AlreadyDeleted) <==> Own(t, a) && t.updates[a.id].deletedAt.Some?)
            && (d == Some(WindowClosed) <==>
                  && Own(t, a) && t.updates[a.id].deletedAt.None?
                  && t.updates[a.id].createdAt + 10 * MINUTE <= a.now)
            && (d == Some(CoversCat) <==> !correction && OwnOpen(t, a) && IsCover(t, a))
            && (d == None <==> OwnOpen(t, a) && (correction || !IsCover(t, a)))
  {}

  lemma DiagnosisIsReal(t: Tables, a: Attempt, correction: bool)
    requires Referential(t) && Diagnose(t, a, correction).Some?
    ensures Holds(t, a, Diagnose(t, a, correction).value)
  {}

  function AttemptOf(k: Correction): Attempt { Attempt(k.id, k.cat, k.author, k.now) }

  /** The row would be left with neither a status nor the help flag. */
  predicate LeavesHollow(t: Tables, k: Correction) {
    && k.id in t.updates
    && !(t.updates[k.id].needsHelp && !k.clearNeedsHelp)
    && (if k.statuses.Some? then k.statuses.value == [] else !HasStatus(t.statuses, k.id))
  }

  /** A correction matches exactly when the diagnosis of the same tables finds
      nothing and the corrected row keeps a status or its flag. */
  lemma CorrectionMatchesIffNoCause(t: Tables, k: Correction)
    requires Referential(t)
    ensures CorrectMatches(t, k) <==> Diagnose(t, AttemptOf(k), true).None? && !LeavesHollow(t, k)
    ensures CorrectMatches(t, k) <==>
            && (forall c: Cause :: c != CoversCat ==> !Holds(t, AttemptOf(k), c))
            && !LeavesHollow(t, k)
  {
    var a := AttemptOf(k);
    if Diagnose(t, a, true).Some? { DiagnosisIsReal(t, a, true); }
    if CorrectMatches(t, k) {
      forall c: Cause | c != CoversCat ensures !Holds(t, a, c) {
        if c == UnknownUpdate { assert a.id in t.updates && t.updates[a.id].cat == a.cat; }
      }
    }
  }

  /** So the invalid-statuses answer for a failed correction is always true of the row. */
  lemma FailedCorrectionExplained(t: Tables, k: Correction)
    requires Referential(t) && !CorrectMatches(t, k)
    ensures var d := Diagnose(t, AttemptOf(k), true);
            if d.Some? then Holds(t, AttemptOf(k), d.value) else LeavesHollow(t, k)
  {
    CorrectionMatchesIffNoCause(t, k);
    if Diagnose(t, AttemptOf(k), true).Some? { DiagnosisIsReal(t, AttemptOf(k), true); }
  }

  /** The diagnosis reads the tables again, after the statement. Its invalid-statuses answer is untrue of
      what it read exactly when the correction would match those later tables. */
  lemma InvalidStatusesUntrueIff(t: Tables, later: Tables, k: Correction)
    requires !CorrectMatches(t, k) && Diagnose(later, AttemptOf(k), true).None?
    ensures !LeavesHollow(later, k) <==> CorrectMatches(later, k)
    ensures !LeavesHollow(later, k) ==> later != t
  {}

  /** A guest's update, in its window, that the device's account-to-be corrects. */
  predicate GuestRow(t: Tables, k: Correction, d: DeviceId) {
    && k.id in t.updates && t.updates[k.id].author.None? && t.updates[k.id].device == Some(d)
    && t.updates[k.id].cat == k.cat && t.updates[k.id].kind == Ordinary && Live(t.updates[k.id])
    && t.updates[k.id].createdAt > k.now - CORRECTION_WINDOW
  }

  /** The race exists: linking the device in between makes the account the author. */
  lemma InvalidStatusesReachedByLink(t: Tables, k: Correction, d: DeviceId)
    requires Referential(t) && GuestRow(t, k, d) && CanLink(t, d, k.author) && !LeavesHollow(t, k)
    ensures var later := LinkDevice(t, d, k.author);
            && !CorrectMatches(t, k) && Diagnose(later, AttemptOf(k), true).None?
            && !LeavesHollow(later, k) && CorrectMatches(later, k)
  {
    hide BackfillFollows, DeleteRedundantFollows;
    var later := LinkDevice(t, d, k.author);
    assert later.updates[k.id] == t.updates[k.id].(author := Some(k.author));
    assert later.statuses == t.statuses;
    assert t.updates[k.id].cat in t.cats;
    assert HasStatus(later.statuses, k.id) == HasStatus(t.statuses, k.id);
  }

  function AttemptToDelete(k: Deletion): Attempt { Attempt(k.id, k.cat, k.author, k.now) }

  /** A delete matches exactly when the diagnosis of the same tables finds
      nothing, that is, exactly when no cause holds: its fallback answer is
      unreachable unless the tables changed in between. */
  lemma DeleteMatchesIffNoCause(t: Tables, k: Deletion)
    requires Referential(t)
    ensures DeleteMatches(t, k) <==> Diagnose(t, AttemptToDelete(k), false).None?
    ensures DeleteMatches(t, k) <==> forall c: Cause :: !Holds(t, AttemptToDelete(k), c)
  {
    var a := AttemptToDelete(k);
    if Diagnose(t, a, false).Some? { DiagnosisIsReal(t, a, false); }
    if DeleteMatches(t, k) {
      forall c: Cause ensures !Holds(t, a, c) {
        if c == UnknownUpdate { assert a.id in t.updates && t.updates[a.id].cat == a.cat; }
      }
    }
  }

  /** The diagnosis reads the tables again, after the statement. If it finds no cause there, the delete
      would match those later tables: they changed in between. */
  lemma FallbackNeedsARace(t: Tables, later: Tables, k: Deletion)
    requires !DeleteMatches(t, k) && Diagnose(later, AttemptToDelete(k), false).None?
    ensures DeleteMatches(later, k) && later != t
  {}

  /** The race exists: the owner moves the cover between the delete and its diagnosis. */
  lemma FallbackReachedByCoverChange(t: Tables, k: Deletion, m: MediaId)
    requires Referential(t) && Diagnose(t, AttemptToDelete(k), false) == Some(CoversCat)
    requires CanSetCover(t, k.cat, k.author, m) && t.cats[k.cat].cover != Some(m)
    ensures !DeleteMatches(t, k) && Diagnose(SetCover(t, k.cat, k.author, m), AttemptToDelete(k), false).None?
  {
    DeleteMatchesIffNoCause(t, k);
  }

  // ---- what an accepted correction changes ----

  function StatusesOf(statuses: set<(UpdateId, string)>, u: UpdateId): set<string> {
    set s | s in statuses && s.0 == u :: s.1
  }

  /** Only the named row and its statuses change, and of them only what the PATCH
      carried: an omitted field keeps its value, a supplied status set replaces the
      old one, and the help mark goes only when asked. */
  lemma CorrectionIsPresenceAware(t: Tables, k: Correction)
    requires CorrectionAccepted(k) && CorrectMatches(t, k)
    ensures var r := CorrectUpdate(t, k);
            && r == t.(updates := r.updates, statuses := r.statuses) && r.updates.Keys == t.updates.Keys
            && (forall x :: x in t.updates && x != k.id ==> r.updates[x] == t.updates[x])
            && (forall x :: x != k.id ==> StatusesOf(r.statuses, x) == StatusesOf(t.statuses, x))
            && StatusesOf(r.statuses, k.id) ==
               (if k.statuses.Some? then set s | s in k.statuses.value else StatusesOf(t.statuses, k.id))
            && (k.comment.None? ==> r.updates[k.id].comment == t.updates[k.id].comment)
            && (k.comment.Some? ==> r.updates[k.id].comment == k.comment.value)
            && r.updates[k.id].updatedAt == Some(k.now)
            && (r.updates[k.id].needsHelp <==> t.updates[k.id].needsHelp && !k.clearNeedsHelp)
            && (!k.clearNeedsHelp ==>
                  r.updates[k.id].category == t.updates[k.id].category
                  && r.updates[k.id].expiresAt == t.updates[k.id].expiresAt)
            && (k.clearNeedsHelp ==> r.updates[k.id].category.None? && r.updates[k.id].expiresAt.None?)
            && var u, v := t.updates[k.id], r.updates[k.id];
            v == u.(comment := v.comment, updatedAt := v.updatedAt, needsHelp := v.needsHelp, category := v.category,
                    expiresAt := v.expiresAt)
  {
    var r := CorrectUpdate(t, k);
    forall x | x != k.id ensures StatusesOf(r.statuses, x) == StatusesOf(t.statuses, x) {
      forall s ensures s in StatusesOf(r.statuses, x) <==> s in StatusesOf(t.statuses, x) {
        assert (x, s) in r.statuses <==> (x, s) in t.statuses;
      }
    }
    if k.statuses.Some? {
      forall s ensures s in StatusesOf(r.statuses, k.id) <==> s in k.statuses.value {
        assert (k.id, s) in r.statuses <==> s in k.statuses.value;
      }
    }
  }

  lemma CorrectedStillMatches(t: Tables, k: Correction)
    requires CorrectionAccepted(k) && CorrectMatches(t, k)
    ensures CorrectMatches(CorrectUpdate(t, k), k)
  {
    var r := CorrectUpdate(t, k);
    if k.statuses.None? && HasStatus(t.statuses, k.id) {
      var s :| s in t.statuses && s.0 == k.id;
      assert s in r.statuses;
    }
  }

  /** A retried correction at the same instant changes nothing more. */
  lemma CorrectionIsIdempotent(t: Tables, k: Correction)
    ensures CorrectUpdate(CorrectUpdate(t, k), k) == CorrectUpdate(t, k)
  {
    if CorrectionAccepted(k) && CorrectMatches(t, k) {
      CorrectedStillMatches(t, k);
      hide CorrectMatches, CorrectionAccepted;
      var r := CorrectUpdate(t, k);
      assert r.updates[k.id := CorrectedRow(r.updates[k.id], k)] == r.updates;
      if k.statuses.Some? {
        assert WithoutStatuses(r.statuses, k.id) + StatusRows(k.id, k.statuses.value) == r.statuses;
      }
    }
  }

  /** A retried delete finds its own mark and changes nothing. */
  lemma DeleteRetried(t: Tables, k: Deletion, now: Time)
    requires Referential(t) && DeleteMatches(t, k)
    ensures Diagnose(DeleteUpdate(t, k), AttemptToDelete(k.(now := now)), false) == Some(AlreadyDeleted)
    ensures DeleteUpdate(DeleteUpdate(t, k), k.(now := now)) == DeleteUpdate(t, k)
  {}

  /** validateStatusSet */
  method ValidateStatusSet(statuses: seq<string>, allowEmpty: bool) returns (ok: bool)
    ensures ok <==> ValidStatuses(statuses, allowEmpty)
  {
    if statuses == [] { return allowEmpty; }
    var seen: set<string> := {};
    for i := 0 to |statuses|
      invariant forall s :: s in seen <==> s in statuses[..i]
      invariant forall j :: 0 <= j < i ==> statuses[j] in APPROVED_STATUSES
      invariant NoDuplicates(statuses[..i])
    {
      if statuses[i] !in APPROVED_STATUSES { return false; }
      if statuses[i] in seen {
        ghost var j :| 0 <= j < i && statuses[..i][j] == statuses[i];
        return false;
      }
      seen := seen + {statuses[i]};
      assert statuses[..i + 1] == statuses[..i] + [statuses[i]];
    }
    assert statuses[..|statuses|] == statuses;
    return true;
  }
}
