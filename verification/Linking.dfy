/** Linking an installation to an account: follows and updates written before
    the account existed become the account's own. */
module Linking {
  import opened Sql
  import opened Schema
  import opened Writes

  function FollowedBy(follows: set<Follow>, u: UserId): set<CatId> {
    set f | f in follows && f.user == Some(u) :: f.cat
  }

  /** Cats the device follows without an account. */
  function UnownedFollows(follows: set<Follow>, d: DeviceId): set<CatId> {
    set f | f in follows && f.device == Some(d) && f.user.None? :: f.cat
  }

  function OfOthers(follows: set<Follow>, d: DeviceId, u: UserId): set<Follow> {
    set f | f in follows && f.user != Some(u) && !(f.device == Some(d) && f.user.None?)
  }

  function Merged(follows: set<Follow>, d: DeviceId, u: UserId): set<Follow> {
    BackfillFollows(DeleteRedundantFollows(follows, d, u), d, u)
  }

  /** The account follows exactly what it followed before plus what the device followed on its own. */
  lemma LinkedFollows(follows: set<Follow>, d: DeviceId, u: UserId)
    ensures FollowedBy(Merged(follows, d, u), u) == FollowedBy(follows, u) + UnownedFollows(follows, d)
  {
    var kept, merged := DeleteRedundantFollows(follows, d, u), Merged(follows, d, u);
    forall c ensures c in FollowedBy(merged, u) <==> c in FollowedBy(follows, u) + UnownedFollows(follows, d) {
      if g :| g in follows && g.user == Some(u) && g.cat == c {
        assert g in kept && Backfilled(g, d, u) == g;
        assert g in merged;
      } else if f :| f in follows && f.device == Some(d) && f.user.None? && f.cat == c {
        assert !Owned(follows, u, f.cat);
        assert f in kept;
        assert Backfilled(f, d, u) in merged;
      }
    }
  }

  /** The account's own rows stay as they are, in particular the device they were made from. */
  lemma OwnFollowsStay(follows: set<Follow>, d: DeviceId, u: UserId, f: Follow)
    requires f in follows && f.user == Some(u)
    ensures f in Merged(follows, d, u)
  {
    assert f in DeleteRedundantFollows(follows, d, u) && Backfilled(f, d, u) == f;
  }

  /** Rows of other accounts and of other devices are neither changed, dropped nor added. */
  lemma OtherFollowsUntouched(follows: set<Follow>, d: DeviceId, u: UserId)
    ensures OfOthers(Merged(follows, d, u), d, u) == OfOthers(follows, d, u)
  {
    var kept, merged := DeleteRedundantFollows(follows, d, u), Merged(follows, d, u);
    forall f ensures f in OfOthers(merged, d, u) <==> f in OfOthers(follows, d, u) {
      if f in OfOthers(follows, d, u) {
        assert f in kept && Backfilled(f, d, u) == f;
        assert f in merged;
      }
    }
  }

  /** After linking, the device has no follow of its own left. */
  lemma NothingLeftUnowned(follows: set<Follow>, d: DeviceId, u: UserId)
    ensures UnownedFollows(Merged(follows, d, u), d) == {}
  {}

  lemma MergedAgain(follows: set<Follow>, d: DeviceId, u: UserId)
    requires forall f :: f in follows ==> !(f.device == Some(d) && f.user.None?)
    ensures Merged(follows, d, u) == follows
  {
    var kept, merged := DeleteRedundantFollows(follows, d, u), Merged(follows, d, u);
    assert kept == follows;
    forall f ensures f in merged <==> f in follows {
      if f in follows { assert Backfilled(f, d, u) == f; }
    }
  }

  /** Updates: exactly the device's unattributed ones become the account's; no attributed update changes. */
  lemma BackfillAttributes(updates: map<UpdateId, Update>, d: DeviceId, u: UserId)
    ensures var r := BackfillAuthors(updates, d, u);
            && r.Keys == updates.Keys
            && (forall x :: x in updates && updates[x].author.Some? ==> r[x] == updates[x])
            && (forall x :: x in updates && updates[x].author.None? ==>
                  r[x] == if updates[x].device == Some(d) then updates[x].(author := Some(u)) else updates[x])
  {}

  lemma BackfilledAgain(updates: map<UpdateId, Update>, d: DeviceId, u: UserId)
    ensures BackfillAuthors(BackfillAuthors(updates, d, u), d, u) == BackfillAuthors(updates, d, u)
  {
    var once := BackfillAuthors(updates, d, u);
    var twice := BackfillAuthors(once, d, u);
    assert forall x :: x in twice <==> x in once;
    assert forall x :: x in once ==> twice[x] == once[x];
  }

  /** Verifying the same installation again changes nothing at all. */
  lemma LinkIsIdempotent(t: Tables, d: DeviceId, u: UserId)
    ensures LinkDevice(LinkDevice(t, d, u), d, u) == LinkDevice(t, d, u)
  {
    if CanLink(t, d, u) {
      var r := LinkDevice(t, d, u);
      NothingLeftUnowned(t.follows, d, u);
      assert forall f :: f in r.follows && f.device == Some(d) && f.user.None? ==>
          f.cat in UnownedFollows(r.follows, d);
      MergedAgain(r.follows, d, u);
      BackfilledAgain(t.updates, d, u);
      assert r.devices[d := r.devices[d].(user := Some(u))] == r.devices;
    }
  }

  /** Linking as a whole: refused for another account's device, else all of the above. */
  lemma LinkMergesFollows(t: Tables, d: DeviceId, u: UserId)
    ensures !CanLink(t, d, u) ==> LinkDevice(t, d, u) == t
    ensures CanLink(t, d, u) ==>
              var r := LinkDevice(t, d, u);
            && FollowedBy(r.follows, u) == FollowedBy(t.follows, u) + UnownedFollows(t.follows, d)
            && OfOthers(r.follows, d, u) == OfOthers(t.follows, d, u)
            && UnownedFollows(r.follows, d) == {}
            && (forall x :: x in t.updates && t.updates[x].author.Some? ==>
                  x in r.updates && r.updates[x] == t.updates[x])
            && (forall x :: x in r.updates && r.updates[x].device == Some(d) ==> r.updates[x].author.Some?)
  {
    LinkedFollows(t.follows, d, u);
    OtherFollowsUntouched(t.follows, d, u);
    NothingLeftUnowned(t.follows, d, u);
    BackfillAttributes(t.updates, d, u);
  }
}
