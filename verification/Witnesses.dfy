/** Runs from the empty database that reach what three results speak of. */
module Witnesses {
  import opened Sql
  import opened Schema
  import opened Writes
  import opened AccountDeletion
  import opened Dispatch
  import opened Repeats
  import opened Stores
  import M = Machine

  const TWO_USERS := EMPTY.(users := map[1 := User("1"), 2 := User("2")])

  lemma UsersJoin()
    ensures CreateUser(CreateUser(EMPTY, 1, "1"), 2, "2") == TWO_USERS
  {
    var t := CreateUser(EMPTY, 1, "1");
    assert t.users == map[1 := User("1")];
    assert "1" != "2";
  }

  lemma AppliedToUsers(t: Tables)
    ensures M.Apply(t, M.AddUser(1, "1")) == CreateUser(t, 1, "1")
    ensures M.Apply(t, M.AddUser(2, "2")) == CreateUser(t, 2, "2")
  {
    hide CreateUser, LinkDevice, DeleteAccount;
  }

  // ---- a push sent twice ----

  function Others(ops: seq<M.Op>): (steps: seq<Step>)
    ensures |steps| == |ops| && forall i :: 0 <= i < |ops| ==> steps[i] == Other(ops[i])
  {
    if ops == [] then [] else Others(ops[..|ops| - 1]) + [Other(ops[|ops| - 1])]
  }

  /** No batch was ever opened. */
  predicate Idle(s: State) {
    && s.workers == map[] && s.batches == 0 && s.locks == map[] && s.pending == map[] && s.evidence == map[]
    && s.marks == map[] && s.aborted == {} && s.sent == []
  }

  /** Without workers the protocol is the machine of the other writes. */
  lemma {:induction false} OthersRunMachine(ops: seq<M.Op>)
    requires forall i :: 0 <= i < |ops| ==> !ops[i].AddNotification? && !ops[i].Process?
    ensures Idle(Run(Others(ops))) && Run(Others(ops)).db == M.Run(EMPTY, ops)
  {
    hide M.Apply;
    if ops != [] {
      var n := |ops| - 1;
      OthersRunMachine(ops[..n]);
      var s := Run(Others(ops[..n]));
      assert Enabled(s, ops[n]);
      RunSnoc(Others(ops[..n]), Other(ops[n]));
    }
  }

  const MARK := NewUpdate(7, 8, 0, 5, 1, None, [], true, None, None, None, 0, None, 0)

  /** Account 1 marks seeded cat 5, which account 2 follows from device 3. */
  const SETUP: seq<M.Op> := [
    M.AddUser(1, "1"), M.AddUser(2, "2"), M.AddDevice(3), M.PushToken(3, "t"), M.Link(3, 2), M.AddSeedCat(5),
    M.AddFollow(2, None, 5), M.Create(MARK)]

  const PEOPLE := TWO_USERS.(devices := map[3 := Device(Some(2), None, Some("t"))])
  const FOLLOWED := PEOPLE.(cats := map[5 := Cat(None, None, None, Active)], follows := {Follow(Some(2), None, 5)})
  const READY := FOLLOWED.(updates := map[7 := NewRow(MARK)], outbox := map[8 := OutboxRow(7, 5, None, true, 0)],
                           serials := {0})

  lemma DeviceJoins(t: Tables)
    requires t == TWO_USERS
    ensures LinkDevice(SetPushToken(RegisterDevice(t, 3), 3, "t"), 3, 2) == PEOPLE
  {
    var a := RegisterDevice(t, 3);
    assert a.devices == map[3 := Device(None, None, None)];
    var b := SetPushToken(a, 3, "t");
    assert b.devices == map[3 := Device(None, None, Some("t"))];
    var c := LinkDevice(b, 3, 2);
    assert c.devices == PEOPLE.devices && c.follows == {} && c.updates == map[];
  }

  lemma CatFollowed()
    ensures FollowCat(SeedCat(PEOPLE, 5), 2, None, 5) == FOLLOWED
  {
    var t := SeedCat(PEOPLE, 5);
    assert t.cats == FOLLOWED.cats;
    assert !Owned(t.follows, 2, 5);
    assert FollowCat(t, 2, None, 5).follows == FOLLOWED.follows;
  }

  lemma MarkMade()
    ensures CreateUpdate(FOLLOWED, MARK) == READY
  {
    assert CanCreate(FOLLOWED, MARK);
    var updates := FOLLOWED.updates[7 := NewRow(MARK)];
    assert updates == READY.updates;
    assert Eligible(updates, 7);
    assert StatusRows(7, []) == {};
  }

  lemma PeopleRun()
    ensures M.Run(EMPTY, SETUP[..5]) == PEOPLE
  {
    hide M.Run, M.Apply, CreateUser, RegisterDevice, SetPushToken, LinkDevice;
    M.StepRuns(EMPTY, SETUP, 0);
    M.StepRuns(EMPTY, SETUP, 1);
    M.StepRuns(EMPTY, SETUP, 2);
    M.StepRuns(EMPTY, SETUP, 3);
    M.StepRuns(EMPTY, SETUP, 4);
    AppliedToUsers(EMPTY);
    AppliedToUsers(CreateUser(EMPTY, 1, "1"));
    var t := CreateUser(CreateUser(EMPTY, 1, "1"), 2, "2");
    AppliedToDevices(t);
    AppliedToDevices(RegisterDevice(t, 3));
    AppliedToDevices(SetPushToken(RegisterDevice(t, 3), 3, "t"));
    UsersJoin();
    DeviceJoins(t);
  }

  lemma AppliedToDevices(t: Tables)
    ensures M.Apply(t, M.AddDevice(3)) == RegisterDevice(t, 3)
    ensures M.Apply(t, M.PushToken(3, "t")) == SetPushToken(t, 3, "t")
    ensures M.Apply(t, M.Link(3, 2)) == LinkDevice(t, 3, 2)
  {
    hide RegisterDevice, SetPushToken, LinkDevice, DeleteAccount;
  }

  lemma AppliedToCats(t: Tables)
    ensures M.Apply(t, M.AddSeedCat(5)) == SeedCat(t, 5)
    ensures M.Apply(t, M.AddFollow(2, None, 5)) == FollowCat(t, 2, None, 5)
  {
    hide SeedCat, FollowCat, LinkDevice, DeleteAccount;
  }

  lemma SetupRuns()
    ensures M.Run(EMPTY, SETUP) == READY
  {
    hide M.Run, M.Apply, SeedCat, FollowCat, CreateUpdate;
    PeopleRun();
    M.StepRuns(EMPTY, SETUP, 5);
    M.StepRuns(EMPTY, SETUP, 6);
    M.StepRuns(EMPTY, SETUP, 7);
    AppliedToCats(PEOPLE);
    AppliedToCats(SeedCat(PEOPLE, 5));
    CreateIsApplied(FOLLOWED, M.Create(MARK));
    CatFollowed();
    MarkMade();
    assert SETUP[..8] == SETUP;
  }

  lemma ReadyRecipient()
    ensures Recipient(READY, 3, 5, Some(1))
  {
    assert Follow(Some(2), None, 5) in READY.follows;
  }

  /** A worker claims the mark, reads its recipients, pushes, rolls back and does it again. */
  const TWICE := Others(SETUP) + [Take(9, [8])] + [Resolve(9)]
                 + [Deliver(9, 3, 20, 0), Abort(9)] + [Take(9, [8]), Resolve(9), Deliver(9, 3, 21, 0)]

  lemma TakenRun()
    ensures var s := Run(Others(SETUP) + [Take(9, [8])]);
            && s.db == READY && s.pending == map[] && s.evidence == map[] && s.sent == [] && s.aborted == {}
            && s.batches == 1 && OnRow(s, 9) && Row(s, 9) == 8 && s.locks[8].claim == Claim(7, 5, true, Some(1), true)
            && s.workers[9].id == 0 && s.workers[9].resolvedAt.None?
  {
    hide Run, Next;
    OthersRunMachine(SETUP);
    SetupRuns();
    RunSnoc(Others(SETUP), Take(9, [8]));
    TakesRow(Run(Others(SETUP)), 9, 8);
  }

  lemma ResolvedRun()
    ensures var s := Run(Others(SETUP) + [Take(9, [8])] + [Resolve(9)]);
            && Pushing(s, 9, 3, 8) && Current(s, 9, 3, 8) && FreshId(s, 20) && FreshId(s, 21)
            && s.sent == [] && s.aborted == {} && s.workers[9].id == 0 && s.batches == 1
  {
    hide Run, Next, Recipient;
    TakenRun();
    RunSnoc(Others(SETUP) + [Take(9, [8])], Resolve(9));
    ReadyRecipient();
    ResolvesRow(Run(Others(SETUP) + [Take(9, [8])]), 9, 3, 8);
  }

  /** So some run pushes the same row to the same device twice. */
  lemma PushSentTwice()
    ensures Run(TWICE).sent == [Push(3, 8, 0), Push(3, 8, 1)] && Run(TWICE).aborted == {0}
  {
    hide Run, Pushing, Current, FreshId;
    ResolvedRun();
    RolledBackPushIsRepeated(Others(SETUP) + [Take(9, [8])] + [Resolve(9)], 9, 3, 8, 20, 21, 0);
  }

  // ---- a surviving photo whose object is removed ----

  const OWN := Medium("a", 1, None, None)
  const GUEST := Medium("b", 2, None, None)
  const POST := NewUpdate(7, 8, 0, 5, 2, None, ["seen"], false, None, None, Some(11), 0, None, 0)

  /** Account 2 posts its photo 11 on account 1's cat 5. */
  const SHARING: seq<M.Op> := [
    M.AddUser(1, "1"), M.AddUser(2, "2"), M.AddCat(5, 10, OWN), M.AddMedium(11, GUEST), M.Create(POST)]

  const POSTED := TWO_USERS.(media := map[10 := OWN, 11 := GUEST],
                             cats := map[5 := Cat(Some(1), None, Some(10), Active)], archive := {(5, 10)})

  lemma PhotosStored()
    ensures UploadMedium(CreateCat(TWO_USERS, 5, 10, OWN), 11, GUEST) == POSTED
  {
    var t := CreateCat(TWO_USERS, 5, 10, OWN);
    assert t.media == map[10 := OWN] && t.cats == POSTED.cats && t.archive == {(5, 10)};
    assert "a" != "b";
    assert CanInsertMedium(t, 11, GUEST);
    assert UploadMedium(t, 11, GUEST).media == POSTED.media;
  }

  lemma PhotoPosted()
    ensures CanCreate(POSTED, POST)
  {
    assert POST.statuses[0] in APPROVED_STATUSES;
  }

  lemma PostArchived(t: Tables, p: NewUpdate)
    requires CanCreate(t, p) && p.media.Some?
    ensures (p.cat, p.media.value) in CreateUpdate(t, p).archive
    ensures CreateUpdate(t, p).media == t.media && CreateUpdate(t, p).cats == t.cats
  {
    hide Eligible, ValidStatuses, StatusRows, CatExists;
  }

  lemma AppliedToPhotos(t: Tables)
    ensures M.Apply(t, M.AddCat(5, 10, OWN)) == CreateCat(t, 5, 10, OWN)
    ensures M.Apply(t, M.AddMedium(11, GUEST)) == UploadMedium(t, 11, GUEST)
  {
    hide CreateCat, UploadMedium, LinkDevice, DeleteAccount;
  }

  lemma SharingRuns()
    ensures var t := M.Run(EMPTY, SHARING);
            (5, 11) in t.archive && t.media == POSTED.media && t.cats == POSTED.cats
  {
    hide M.Run, M.Apply, CreateUser, CreateCat, UploadMedium, CreateUpdate, CanCreate;
    M.StepRuns(EMPTY, SHARING, 0);
    M.StepRuns(EMPTY, SHARING, 1);
    M.StepRuns(EMPTY, SHARING, 2);
    M.StepRuns(EMPTY, SHARING, 3);
    M.StepRuns(EMPTY, SHARING, 4);
    AppliedToUsers(EMPTY);
    AppliedToUsers(CreateUser(EMPTY, 1, "1"));
    UsersJoin();
    AppliedToPhotos(TWO_USERS);
    AppliedToPhotos(CreateCat(TWO_USERS, 5, 10, OWN));
    PhotosStored();
    CreateIsApplied(POSTED, M.Create(POST));
    PhotoPosted();
    PostArchived(POSTED, POST);
    assert SHARING[..5] == SHARING;
  }

  /** Deleting account 1 keeps the row of account 2's photo and removes its object. */
  lemma SurvivorLosesObject()
    ensures var t, a := M.Run(EMPTY, SHARING), Account(1, "1", 0);
            && 11 in DeleteAccount(t, a).media && DeleteAccount(t, a).media[11] == GUEST
            && GUEST.objectKey in AccountObjectKeys(t, a.id)
            && ObjectKeys(t.media) - AccountObjectKeys(t, a.id) != ObjectKeys(DeleteAccount(t, a).media)
  {
    var t, a := M.Run(EMPTY, SHARING), Account(1, "1", 0);
    hide M.Run, M.Apply, DeleteAccount, ObjectKeys, AccountObjectKeys;
    SharingRuns();
    M.Reachable(SHARING);
    assert MediaUnique(t.media);
    hide M.Inv;
    DeletionErasesBelongings(t, a);
    assert (5, 11) in t.archive && Owns(t, 1, 5);
    assert InOwnArchive(t, 1, 11);
    SurvivorLosesObjectIff(t, a, 11);
    BalanceKeptIff(t, a);
  }

  // ---- a report that outlives the update it is about ----

  const SEEN := NewUpdate(7, 8, 0, 5, 1, None, ["seen"], false, None, None, None, 0, None, 0)

  /** Account 1 posts on a seeded cat and account 2 reports the post. */
  const REPORTING: seq<M.Op> := [
    M.AddUser(1, "1"), M.AddUser(2, "2"), M.AddSeedCat(5), M.Create(SEEN), M.AddReport(9, 2, UpdateTarget(7))]

  const SEEDED := TWO_USERS.(cats := map[5 := Cat(None, None, None, Active)])

  lemma PostAccepted()
    ensures SeedCat(TWO_USERS, 5) == SEEDED && CanCreate(SEEDED, SEEN)
  {
    assert SeedCat(TWO_USERS, 5).cats == SEEDED.cats;
    assert SEEN.statuses[0] in APPROVED_STATUSES;
  }

  lemma PostStored(t: Tables, p: NewUpdate)
    requires CanCreate(t, p)
    ensures var r := CreateUpdate(t, p);
            r.updates == t.updates[p.id := NewRow(p)] && r.users == t.users && r.reports == t.reports
  {
    hide Eligible, ValidStatuses, StatusRows, CatExists;
  }

  lemma AppliedToReports(t: Tables)
    ensures M.Apply(t, M.AddSeedCat(5)) == SeedCat(t, 5)
    ensures M.Apply(t, M.AddReport(9, 2, UpdateTarget(7))) == FileReport(t, 9, 2, UpdateTarget(7))
  {
    hide SeedCat, FileReport, LinkDevice, DeleteAccount;
  }

  lemma ReportingRuns()
    ensures var t := M.Run(EMPTY, REPORTING);
            t.updates == map[7 := NewRow(SEEN)] && t.reports == map[9 := Report(2, UpdateTarget(7))]
  {
    hide M.Run, M.Apply, CreateUser, SeedCat, CreateUpdate, CanCreate;
    M.StepRuns(EMPTY, REPORTING, 0);
    M.StepRuns(EMPTY, REPORTING, 1);
    M.StepRuns(EMPTY, REPORTING, 2);
    M.StepRuns(EMPTY, REPORTING, 3);
    M.StepRuns(EMPTY, REPORTING, 4);
    AppliedToUsers(EMPTY);
    AppliedToUsers(CreateUser(EMPTY, 1, "1"));
    UsersJoin();
    AppliedToReports(TWO_USERS);
    PostAccepted();
    CreateIsApplied(SEEDED, M.Create(SEEN));
    PostStored(SEEDED, SEEN);
    AppliedToReports(CreateUpdate(SEEDED, SEEN));
    assert REPORTING[..5] == REPORTING;
  }

  /** Deleting account 1 removes the post and leaves account 2's report of it. */
  lemma ReportOutlivesUpdate()
    ensures var t, a := M.Run(EMPTY, REPORTING), Account(1, "1", 0);
            && 9 in t.reports && t.reports[9].target == UpdateTarget(7) && TargetExists(t, UpdateTarget(7))
            && 9 in DeleteAccount(t, a).reports && DeleteAccount(t, a).reports[9] == t.reports[9]
            && !TargetExists(DeleteAccount(t, a), UpdateTarget(7))
  {
    var t, a := M.Run(EMPTY, REPORTING), Account(1, "1", 0);
    hide M.Run, DeleteAccount;
    ReportingRuns();
    ReportsLeftBehind(t, a, 9);
    ReportsKept(t, a, 9);
  }
}
