/** Media uploads and cat creation across two stores with no shared
    transaction: an object is stored first, then its row, and a call whose row
    does not come to be deletes its object again. Retries race freely. */
module Uploads {
  import opened Sql
  import opened Schema

  type CallId = int
  type ObjectKey = int

  datatype Kind = MediaUpload | CatCreation

  /** One request: POST /v1/media or POST /v1/cats, with its optional Idempotency-Key. */
  datatype Call = Call(kind: Kind, owner: UserId, key: Option<string>)

  datatype Outcome = Failed | Row(id: int)

  datatype Stage =
    | Looked                                           // found no earlier row
    | Stored(blob: ObjectKey)                        // object stored, row not yet
    | Conflicted(blob: ObjectKey)                    // the insert returned no row
    | Cleaning(blob: ObjectKey, outcome: Outcome)    // only the object's deletion is left
    | Doubted(blob: ObjectKey, media: MediaId)       // the same, but the rows were committed after all

  datatype MediaRow = MediaRow(owner: UserId, key: Option<string>, blob: ObjectKey, kind: Kind)
  datatype CatRow = CatRow(owner: UserId, key: Option<string>, photo: MediaId)

  /** Who answers for a stored object: the row that names it, a call still running, or nobody (no cleanup). */
  datatype Holder = ByRow(media: MediaId) | ByCall(call: CallId) | Leaked

  /** `objects.Keys` is the object store; `requests` holds every call ever made, `stages` the running ones. */
  datatype State = State(
    objects: map<ObjectKey, Holder>, media: map<MediaId, MediaRow>, cats: map<CatId, CatRow>,
    requests: map<CallId, Call>, stages: map<CallId, Stage>, results: map<CallId, Outcome>)

  const INITIAL := State(map[], map[], map[], map[], map[], map[])

  datatype Step =
    | Begin(call: CallId, request: Call, found: Option<int>)   // found: what the lookup by Idempotency-Key returned
    | Reject(call: CallId)                                     // validation, moderation or the object store said no
    | Put(call: CallId, blob: ObjectKey)
    | LosePut(call: CallId, blob: ObjectKey)                   // stored, but reported as failed
    | Insert(call: CallId, media: MediaId, cat: CatId)
    | FailInsert(call: CallId)
    | LoseInsert(call: CallId, media: MediaId, cat: CatId)     // committed, but reported as failed
    | LookUp(call: CallId, found: Option<int>)
    | Cleanup(call: CallId)
    | FailCleanup(call: CallId)
    | Die(call: CallId)                                        // the process ends in mid-call: no answer, no cleanup

  // ---- lookups and conflicts ----

  /** The row id belongs to a request of this kind, owner and key. */
  predicate RowOf(media: map<MediaId, MediaRow>, cats: map<CatId, CatRow>, r: Call, id: int) {
    match r.kind
    case MediaUpload =>
      id in media && media[id].kind == MediaUpload && media[id].owner == r.owner && media[id].key == r.key
    case CatCreation => id in cats && cats[id].owner == r.owner && cats[id].key == r.key
  }

  predicate Answers(s: State, r: Call, id: int) { RowOf(s.media, s.cats, r, id) }

  /** GetMediaByIdempotencyKey / GetCatByIdempotencyKey. */
  ghost predicate LookupReturns(s: State, r: Call, found: Option<int>) {
    if found.Some? then r.key.Some? && Answers(s, r, found.value)
    else r.key.None? || forall id :: !Answers(s, r, id)
  }

  /** The on-conflict clause of the insert applies. */
  ghost predicate Conflicts(s: State, r: Call) { r.key.Some? && exists id :: Answers(s, r, id) }

  predicate At(s: State, c: CallId) { c in s.stages && c in s.requests }

  function EndCall(s: State, c: CallId, o: Outcome): State {
    s.(stages := s.stages - {c}, results := s.results[c := o])
  }

  function MoveTo(s: State, c: CallId, g: Stage): State { s.(stages := s.stages[c := g]) }

  /** The rows of a successful insert: the media row, and for a cat also the cat row naming it. */
  function AddRows(s: State, c: CallId, k: ObjectKey, m: MediaId, cat: CatId): State
    requires c in s.requests
  {
    var r := s.requests[c];
    var t := s.(media := s.media[m := MediaRow(r.owner, if r.kind == MediaUpload then r.key else None, k, r.kind)],
                objects := s.objects[k := ByRow(m)]);
    if r.kind == MediaUpload then t else t.(cats := t.cats[cat := CatRow(r.owner, r.key, m)])
  }

  function InsertRows(s: State, c: CallId, k: ObjectKey, m: MediaId, cat: CatId): State
    requires c in s.requests
  {
    EndCall(AddRows(s, c, k, m, cat), c, if s.requests[c].kind == MediaUpload then Row(m) else Row(cat))
  }

  /** Object keys are drawn at random: no object and no row has this one. */
  predicate FreshKey(s: State, k: ObjectKey) { k !in s.objects && forall m :: m in s.media ==> s.media[m].blob != k }

  /** The call has an object that no row names yet. */
  predicate Holding(g: Stage) { g.Stored? || g.Conflicted? || g.Cleaning? }

  ghost function Next(s: State, step: Step): State {
    match step
    case Begin(c, r, found) =>
      if c in s.requests || !LookupReturns(s, r, found) then s
      else
        var t := s.(requests := s.requests[c := r]);
        if found.Some? then t.(results := t.results[c := Row(found.value)]) else MoveTo(t, c, Looked)
    case Reject(c) =>
      if At(s, c) && s.stages[c].Looked? then EndCall(s, c, Failed) else s
    case Put(c, k) =>
      if At(s, c) && s.stages[c].Looked? && FreshKey(s, k)
      then MoveTo(s, c, Stored(k)).(objects := s.objects[k := ByCall(c)]) else s
    case LosePut(c, k) =>
      if At(s, c) && s.stages[c].Looked? && FreshKey(s, k)
      then EndCall(s, c, Failed).(objects := s.objects[k := Leaked]) else s
    case Insert(c, m, cat) =>
      if !At(s, c) || !s.stages[c].Stored? || m in s.media || cat in s.cats then s
      else if Conflicts(s, s.requests[c]) then MoveTo(s, c, Conflicted(s.stages[c].blob))
      else InsertRows(s, c, s.stages[c].blob, m, cat)
    case FailInsert(c) =>
      if At(s, c) && s.stages[c].Stored? then MoveTo(s, c, Cleaning(s.stages[c].blob, Failed)) else s
    case LoseInsert(c, m, cat) =>
      if !At(s, c) || !s.stages[c].Stored? || m in s.media || cat in s.cats || Conflicts(s, s.requests[c]) then s
      else MoveTo(AddRows(s, c, s.stages[c].blob, m, cat), c, Doubted(s.stages[c].blob, m))
    case LookUp(c, found) =>
      if !At(s, c) || !s.stages[c].Conflicted? || (found.Some? && !LookupReturns(s, s.requests[c], found)) then s
      else MoveTo(s, c, Cleaning(s.stages[c].blob, if found.Some? then Row(found.value) else Failed))
    case Cleanup(c) =>
      if !At(s, c) then s
      else if s.stages[c].Cleaning? then EndCall(s, c, s.stages[c].outcome).(objects := s.objects - {s.stages[c].blob})
      else if s.stages[c].Doubted? then EndCall(s, c, Failed).(objects := s.objects - {s.stages[c].blob})
      else s
    case FailCleanup(c) =>
      if !At(s, c) then s
      else if s.stages[c].Cleaning?
      then EndCall(s, c, s.stages[c].outcome).(objects := s.objects[s.stages[c].blob := Leaked])
      else if s.stages[c].Doubted? then EndCall(s, c, Failed)
      else s
    case Die(c) =>
      if !At(s, c) then s
      else if Holding(s.stages[c]) then EndCall(s, c, Failed).(objects := s.objects[s.stages[c].blob := Leaked])
      else EndCall(s, c, Failed)
  }

  ghost function Run(steps: seq<Step>): State {
    if steps == [] then INITIAL else Next(Run(steps[..|steps| - 1]), steps[|steps| - 1])
  }

  // ---- what every step keeps ----

  /** Unique indexes on (owner, key). */
  ghost predicate RowsUnique(media: map<MediaId, MediaRow>, cats: map<CatId, CatRow>) {
    && (forall a, b ::
          (a in media && b in media && media[a].key.Some? && media[a].owner == media[b].owner
           && media[a].key == media[b].key) ==> a == b)
    && (forall a, b ::
          (a in cats && b in cats && cats[a].key.Some? && cats[a].owner == cats[b].owner
           && cats[a].key == cats[b].key) ==> a == b)
  }

  predicate IsPhoto(cats: map<CatId, CatRow>, m: MediaId) { exists c :: c in cats && cats[c].photo == m }

  /** Every media row of a cat creation is some cat's photo: none outlives a rolled-back creation. */
  ghost predicate NoOrphanPhotos(media: map<MediaId, MediaRow>, cats: map<CatId, CatRow>) {
    forall m :: m in media && media[m].kind == CatCreation ==> IsPhoto(cats, m)
  }

  /** A keyed media row came from an upload; a cat's photo is its own media row, from its creation. */
  ghost predicate RowsPaired(media: map<MediaId, MediaRow>, cats: map<CatId, CatRow>) {
    && (forall m :: m in media && media[m].kind == CatCreation ==> media[m].key.None?)
    && (forall c :: c in cats ==>
          cats[c].photo in media && media[cats[c].photo].kind == CatCreation
          && media[cats[c].photo].owner == cats[c].owner)
    && (forall c, d :: c in cats && d in cats && cats[c].photo == cats[d].photo ==> c == d)
  }

  predicate Holds(g: Stage, k: ObjectKey) { Holding(g) && g.blob == k }

  /** Each object has exactly one holder, each call past the store holds its object, and each row the
      object it names, if that is still stored. */
  ghost predicate ObjectsHeld(objects: map<ObjectKey, Holder>, media: map<MediaId, MediaRow>,
                              stages: map<CallId, Stage>)
  {
    && (forall k :: k in objects && objects[k].ByRow? ==>
          objects[k].media in media && media[objects[k].media].blob == k)
    && (forall k :: k in objects && objects[k].ByCall? ==>
          objects[k].call in stages && Holds(stages[objects[k].call], k))
    && (forall m :: m in media && media[m].blob in objects ==> objects[media[m].blob] == ByRow(m))
    && (forall c :: c in stages && Holding(stages[c]) ==>
          stages[c].blob in objects && objects[stages[c].blob] == ByCall(c))
  }

  /** No two rows name one object. A doubted call's row and object are there, and no other call doubts them. */
  ghost predicate DoubtsSound(objects: map<ObjectKey, Holder>, media: map<MediaId, MediaRow>,
                              stages: map<CallId, Stage>)
  {
    && (forall a, b :: a in media && b in media && media[a].blob == media[b].blob ==> a == b)
    && (forall c :: c in stages && stages[c].Doubted? ==>
          && stages[c].media in media && media[stages[c].media].blob == stages[c].blob
          && stages[c].blob in objects)
    && (forall c, d ::
          c in stages && d in stages && stages[c].Doubted? && stages[d].Doubted? && stages[c].blob == stages[d].blob
          ==> c == d)
  }

  ghost predicate Stocked(objects: map<ObjectKey, Holder>, media: map<MediaId, MediaRow>, stages: map<CallId, Stage>) {
    ObjectsHeld(objects, media, stages) && DoubtsSound(objects, media, stages)
  }

  ghost predicate CallsKnown(requests: map<CallId, Call>, stages: map<CallId, Stage>, results: map<CallId, Outcome>) {
    && (forall c :: c in stages ==> c in requests && c !in results)
    && (forall c :: c in results ==> c in requests)
  }

  /** A success, reported or about to be, names a row of that request. */
  ghost predicate ResultsTrue(media: map<MediaId, MediaRow>, cats: map<CatId, CatRow>, requests: map<CallId, Call>,
                              stages: map<CallId, Stage>, results: map<CallId, Outcome>)
  {
    && (forall c :: c in results && c in requests && results[c].Row? ==> RowOf(media, cats, requests[c], results[c].id))
    && (forall c :: c in stages && c in requests && stages[c].Cleaning? && stages[c].outcome.Row? ==>
          RowOf(media, cats, requests[c], stages[c].outcome.id))
  }

  ghost predicate Inv(s: State) {
    && RowsUnique(s.media, s.cats) && RowsPaired(s.media, s.cats) && NoOrphanPhotos(s.media, s.cats)
    && Stocked(s.objects, s.media, s.stages)
    && CallsKnown(s.requests, s.stages, s.results) && ResultsTrue(s.media, s.cats, s.requests, s.stages, s.results)
  }

  // ---- the object store ----

  lemma LookingHoldsNothing(objects: map<ObjectKey, Holder>, media: map<MediaId, MediaRow>, stages: map<CallId, Stage>,
                            c: CallId)
    requires Stocked(objects, media, stages) && c !in stages
    ensures Stocked(objects, media, stages[c := Looked])
  {}

  /** A call moves on while keeping the object it holds. */
  lemma MovingKeepsStock(objects: map<ObjectKey, Holder>, media: map<MediaId, MediaRow>, stages: map<CallId, Stage>,
                         c: CallId, g: Stage)
    requires Stocked(objects, media, stages) && c in stages && Holding(stages[c]) && Holds(g, stages[c].blob)
    ensures Stocked(objects, media, stages[c := g])
  {
    assert objects[stages[c].blob] == ByCall(c);
  }

  /** A fresh object, held by a call that held none, or by nobody. */
  lemma PuttingKeepsStock(objects: map<ObjectKey, Holder>, media: map<MediaId, MediaRow>, stages: map<CallId, Stage>,
                          c: CallId, k: ObjectKey)
    requires Stocked(objects, media, stages) && c in stages && stages[c].Looked?
    requires k !in objects && forall m :: m in media ==> media[m].blob != k
    ensures Stocked(objects[k := ByCall(c)], media, stages[c := Stored(k)])
    ensures Stocked(objects[k := Leaked], media, stages - {c})
  {}

  /** A call that holds nothing ends. */
  lemma EndingKeepsStock(objects: map<ObjectKey, Holder>, media: map<MediaId, MediaRow>, stages: map<CallId, Stage>,
                         c: CallId)
    requires Stocked(objects, media, stages) && c in stages && !Holding(stages[c])
    ensures Stocked(objects, media, stages - {c})
  {}

  /** A call that holds an object ends, deleting or leaving it. */
  lemma CleaningKeepsStock(objects: map<ObjectKey, Holder>, media: map<MediaId, MediaRow>, stages: map<CallId, Stage>,
                           c: CallId)
    requires Stocked(objects, media, stages) && c in stages && Holding(stages[c])
    ensures Stocked(objects - {stages[c].blob}, media, stages - {c})
    ensures Stocked(objects[stages[c].blob := Leaked], media, stages - {c})
  {
    assert objects[stages[c].blob] == ByCall(c);
    assert forall d :: d in stages && stages[d].Doubted? ==> objects[stages[d].blob] == ByRow(stages[d].media);
  }

  /** A call that doubts its committed row deletes the row's object. */
  lemma StrippingKeepsStock(objects: map<ObjectKey, Holder>, media: map<MediaId, MediaRow>, stages: map<CallId, Stage>,
                            c: CallId)
    requires Stocked(objects, media, stages) && c in stages && stages[c].Doubted?
    ensures Stocked(objects - {stages[c].blob}, media, stages - {c})
  {
    assert objects[stages[c].blob] == ByRow(stages[c].media);
  }

  /** The object passes from the call to the new row, whether or not the call knows. */
  lemma InsertingKeepsStock(objects: map<ObjectKey, Holder>, media: map<MediaId, MediaRow>, stages: map<CallId, Stage>,
                            c: CallId, m: MediaId, row: MediaRow)
    requires Stocked(objects, media, stages) && c in stages && stages[c].Stored? && m !in media
    requires row.blob == stages[c].blob
    ensures Stocked(objects[row.blob := ByRow(m)], media[m := row], stages - {c})
    ensures Stocked(objects[row.blob := ByRow(m)], media[m := row], stages[c := Doubted(row.blob, m)])
  {
    assert objects[row.blob] == ByCall(c);
    assert forall x :: x in media ==> media[x].blob != row.blob;
    assert forall d :: d in stages && stages[d].Doubted? ==> stages[d].blob != row.blob;
  }

  // ---- the steps ----

  lemma NewCallKeeps(s: State, c: CallId, r: Call)
    requires Inv(s) && c !in s.requests
    ensures Inv(MoveTo(s.(requests := s.requests[c := r]), c, Looked))
  {
    hide NoOrphanPhotos, RowsUnique, RowsPaired, RowOf, Stocked;
    LookingHoldsNothing(s.objects, s.media, s.stages, c);
  }

  lemma AnsweredCallKeeps(s: State, c: CallId, r: Call, id: int)
    requires Inv(s) && c !in s.requests && Answers(s, r, id)
    ensures Inv(s.(requests := s.requests[c := r], results := s.results[c := Row(id)]))
  {
    hide NoOrphanPhotos, RowsUnique, RowsPaired, RowOf, Stocked;
  }

  lemma BeginKeeps(s: State, step: Step)
    requires Inv(s) && step.Begin?
    ensures Inv(Next(s, step))
  {
    hide Inv, Answers;
    if step.call !in s.requests && LookupReturns(s, step.request, step.found) {
      if step.found.Some? { AnsweredCallKeeps(s, step.call, step.request, step.found.value); }
      else { NewCallKeeps(s, step.call, step.request); }
    }
  }

  lemma MoveKeeps(s: State, c: CallId, g: Stage)
    requires Inv(s) && At(s, c) && Holding(s.stages[c]) && Holds(g, s.stages[c].blob)
    requires g.Cleaning? && g.outcome.Row? ==> Answers(s, s.requests[c], g.outcome.id)
    ensures Inv(MoveTo(s, c, g))
  {
    hide NoOrphanPhotos, RowsUnique, RowsPaired, RowOf, Stocked;
    MovingKeepsStock(s.objects, s.media, s.stages, c, g);
  }

  lemma PutKeeps(s: State, c: CallId, k: ObjectKey)
    requires Inv(s) && At(s, c) && s.stages[c].Looked? && FreshKey(s, k)
    ensures Inv(MoveTo(s, c, Stored(k)).(objects := s.objects[k := ByCall(c)]))
    ensures Inv(EndCall(s, c, Failed).(objects := s.objects[k := Leaked]))
  {
    hide NoOrphanPhotos, RowsUnique, RowsPaired, RowOf, Stocked;
    PuttingKeepsStock(s.objects, s.media, s.stages, c, k);
  }

  /** A call ends with an answer that is its request's row, or with none. */
  lemma EndKeeps(s: State, c: CallId, o: Outcome, objects: map<ObjectKey, Holder>)
    requires Inv(s) && At(s, c) && Stocked(objects, s.media, s.stages - {c})
    requires o.Row? ==> Answers(s, s.requests[c], o.id)
    ensures Inv(EndCall(s, c, o).(objects := objects))
  {
    hide NoOrphanPhotos, RowsUnique, RowsPaired, RowOf, Stocked;
  }

  lemma RejectKeeps(s: State, c: CallId)
    requires Inv(s) && At(s, c) && s.stages[c].Looked?
    ensures Inv(EndCall(s, c, Failed))
  {
    hide NoOrphanPhotos, RowsUnique, RowsPaired, RowOf, Stocked;
    EndingKeepsStock(s.objects, s.media, s.stages, c);
    EndKeeps(s, c, Failed, s.objects);
  }

  lemma CleanedAnswers(s: State, c: CallId)
    requires Inv(s) && At(s, c) && s.stages[c].Cleaning? && s.stages[c].outcome.Row?
    ensures Answers(s, s.requests[c], s.stages[c].outcome.id)
  {
    hide NoOrphanPhotos, RowsUnique, RowsPaired, RowOf, Stocked;
  }

  lemma InvStocked(s: State)
    requires Inv(s)
    ensures Stocked(s.objects, s.media, s.stages)
  {
    hide NoOrphanPhotos, RowsUnique, RowsPaired, RowOf, Stocked, CallsKnown, ResultsTrue;
  }

  lemma CleanupKeeps(s: State, step: Step)
    requires Inv(s) && (step.Cleanup? || step.FailCleanup?)
    ensures Inv(Next(s, step))
  {
    hide Inv, Stocked, Answers;
    InvStocked(s);
    var c := step.call;
    if At(s, c) && s.stages[c].Cleaning? {
      CleaningKeepsStock(s.objects, s.media, s.stages, c);
      if s.stages[c].outcome.Row? { CleanedAnswers(s, c); }
      EndKeeps(s, c, s.stages[c].outcome, s.objects - {s.stages[c].blob});
      EndKeeps(s, c, s.stages[c].outcome, s.objects[s.stages[c].blob := Leaked]);
    } else if At(s, c) && s.stages[c].Doubted? {
      StrippingKeepsStock(s.objects, s.media, s.stages, c);
      EndingKeepsStock(s.objects, s.media, s.stages, c);
      EndKeeps(s, c, Failed, s.objects - {s.stages[c].blob});
      EndKeeps(s, c, Failed, s.objects);
    }
  }

  lemma DieKeeps(s: State, c: CallId)
    requires Inv(s)
    ensures Inv(Next(s, Die(c)))
  {
    hide Inv, Stocked;
    InvStocked(s);
    if At(s, c) {
      if Holding(s.stages[c]) {
        CleaningKeepsStock(s.objects, s.media, s.stages, c);
        EndKeeps(s, c, Failed, s.objects[s.stages[c].blob := Leaked]);
      } else {
        EndingKeepsStock(s.objects, s.media, s.stages, c);
        EndKeeps(s, c, Failed, s.objects);
      }
    }
  }

  /** No row answers the request, so its new row is the only one of its owner and key. */
  lemma InsertKeepsUnique(s: State, c: CallId, k: ObjectKey, m: MediaId, cat: CatId)
    requires RowsUnique(s.media, s.cats) && RowsPaired(s.media, s.cats) && At(s, c) && m !in s.media && cat !in s.cats
             && !Conflicts(s, s.requests[c])
    ensures var r := AddRows(s, c, k, m, cat); RowsUnique(r.media, r.cats)
  {
    var q := s.requests[c];
    if q.kind == MediaUpload && q.key.Some? {
      forall a | a in s.media
        ensures !(s.media[a].owner == q.owner && s.media[a].key == q.key)
      {
        assert !Answers(s, q, a);
      }
    }
    if q.kind == CatCreation && q.key.Some? {
      forall a | a in s.cats
        ensures !(s.cats[a].owner == q.owner && s.cats[a].key == q.key)
      {
        assert !Answers(s, q, a);
      }
    }
  }

  lemma InsertKeepsPaired(s: State, c: CallId, k: ObjectKey, m: MediaId, cat: CatId)
    requires RowsPaired(s.media, s.cats) && At(s, c) && m !in s.media && cat !in s.cats
    ensures var r := AddRows(s, c, k, m, cat); RowsPaired(r.media, r.cats)
  {}

  lemma InsertKeepsRows(s: State, c: CallId, k: ObjectKey, m: MediaId, cat: CatId)
    requires Inv(s) && At(s, c) && m !in s.media && cat !in s.cats && !Conflicts(s, s.requests[c])
    ensures var r := AddRows(s, c, k, m, cat); RowsUnique(r.media, r.cats) && RowsPaired(r.media, r.cats)
  {
    hide Stocked, ResultsTrue, CallsKnown, NoOrphanPhotos, RowsUnique, RowsPaired, Conflicts, AddRows;
    InsertKeepsUnique(s, c, k, m, cat);
    InsertKeepsPaired(s, c, k, m, cat);
  }

  lemma InsertKeepsPhotos(s: State, c: CallId, k: ObjectKey, m: MediaId, cat: CatId)
    requires NoOrphanPhotos(s.media, s.cats) && At(s, c) && m !in s.media && cat !in s.cats
    ensures var r := AddRows(s, c, k, m, cat); NoOrphanPhotos(r.media, r.cats)
  {
    var r := AddRows(s, c, k, m, cat);
    forall x | x in r.media && r.media[x].kind == CatCreation ensures IsPhoto(r.cats, x) {
      if x == m {
        assert r.cats[cat].photo == m;
      } else {
        var d :| d in s.cats && s.cats[d].photo == x;
        assert d in r.cats && r.cats[d] == s.cats[d];
      }
    }
  }

  /** The call ends with its answer, or doubts what was committed. */
  lemma InsertKeepsStock(s: State, c: CallId, m: MediaId, cat: CatId)
    requires Inv(s) && At(s, c) && s.stages[c].Stored? && m !in s.media && cat !in s.cats
    ensures var r := AddRows(s, c, s.stages[c].blob, m, cat);
            && Stocked(r.objects, r.media, r.stages - {c})
            && Stocked(r.objects, r.media, r.stages[c := Doubted(s.stages[c].blob, m)])
  {
    hide NoOrphanPhotos, RowsUnique, RowsPaired, ResultsTrue, CallsKnown, Stocked;
    InsertingKeepsStock(s.objects, s.media, s.stages, c, m, AddRows(s, c, s.stages[c].blob, m, cat).media[m]);
  }

  lemma InsertKeepsResults(s: State, c: CallId, k: ObjectKey, m: MediaId, cat: CatId)
    requires Inv(s) && At(s, c) && m !in s.media && cat !in s.cats
    ensures var r := AddRows(s, c, k, m, cat);
            && ResultsTrue(r.media, r.cats, r.requests, r.stages, r.results)
            && RowOf(r.media, r.cats, r.requests[c], if r.requests[c].kind == MediaUpload then m else cat)
  {
    hide NoOrphanPhotos, RowsUnique, RowsPaired, Stocked;
    var r := AddRows(s, c, k, m, cat);
    assert forall q: Call, id :: RowOf(s.media, s.cats, q, id) ==> RowOf(r.media, r.cats, q, id);
  }

  lemma AddRowsFrame(s: State, c: CallId, k: ObjectKey, m: MediaId, cat: CatId)
    requires At(s, c)
    ensures var r := AddRows(s, c, k, m, cat);
            r.stages == s.stages && r.results == s.results && r.requests == s.requests
  {}

  lemma InsertKeeps(s: State, c: CallId, m: MediaId, cat: CatId)
    requires Inv(s) && At(s, c) && s.stages[c].Stored? && m !in s.media && cat !in s.cats
             && !Conflicts(s, s.requests[c])
    ensures Inv(InsertRows(s, c, s.stages[c].blob, m, cat))
    ensures Inv(MoveTo(AddRows(s, c, s.stages[c].blob, m, cat), c, Doubted(s.stages[c].blob, m)))
  {
    hide NoOrphanPhotos, RowsUnique, RowsPaired, Stocked, RowOf, AddRows, Conflicts;
    InsertKeepsRows(s, c, s.stages[c].blob, m, cat);
    InsertKeepsPhotos(s, c, s.stages[c].blob, m, cat);
    InsertKeepsStock(s, c, m, cat);
    InsertKeepsResults(s, c, s.stages[c].blob, m, cat);
    AddRowsFrame(s, c, s.stages[c].blob, m, cat);
    var r := AddRows(s, c, s.stages[c].blob, m, cat);
    EndedCallSound(r, c, if r.requests[c].kind == MediaUpload then m else cat);
    DoubtedCallSound(r, c, Doubted(s.stages[c].blob, m));
    hide CallsKnown, ResultsTrue;
  }

  lemma EndedCallSound(s: State, c: CallId, id: int)
    requires At(s, c) && CallsKnown(s.requests, s.stages, s.results) && RowOf(s.media, s.cats, s.requests[c], id)
    requires ResultsTrue(s.media, s.cats, s.requests, s.stages, s.results)
    ensures var r := EndCall(s, c, Row(id));
            && CallsKnown(r.requests, r.stages, r.results)
            && ResultsTrue(r.media, r.cats, r.requests, r.stages, r.results)
  {
    hide RowOf;
  }

  lemma DoubtedCallSound(s: State, c: CallId, g: Stage)
    requires At(s, c) && CallsKnown(s.requests, s.stages, s.results) && g.Doubted?
    requires ResultsTrue(s.media, s.cats, s.requests, s.stages, s.results)
    ensures var r := MoveTo(s, c, g);
            && CallsKnown(r.requests, r.stages, r.results)
            && ResultsTrue(r.media, r.cats, r.requests, r.stages, r.results)
  {
    hide RowOf;
  }

  lemma InsertStepKeeps(s: State, step: Step)
    requires Inv(s) && (step.Insert? || step.LoseInsert?)
    ensures Inv(Next(s, step))
  {
    hide Inv, Conflicts, AddRows;
    var c := step.call;
    if At(s, c) && s.stages[c].Stored? && step.media !in s.media && step.cat !in s.cats {
      if Conflicts(s, s.requests[c]) { MoveKeeps(s, c, Conflicted(s.stages[c].blob)); }
      else { InsertKeeps(s, c, step.media, step.cat); }
    }
  }

  lemma StepKeeps(s: State, step: Step)
    requires Inv(s)
    ensures Inv(Next(s, step))
  {
    hide Inv, LookupReturns, Conflicts, FreshKey, AddRows;
    match step
    case Begin(_, _, _) => BeginKeeps(s, step);
    case Reject(c) => if At(s, c) && s.stages[c].Looked? { RejectKeeps(s, c); }
    case Put(c, k) => if At(s, c) && s.stages[c].Looked? && FreshKey(s, k) { PutKeeps(s, c, k); }
    case LosePut(c, k) => if At(s, c) && s.stages[c].Looked? && FreshKey(s, k) { PutKeeps(s, c, k); }
    case Insert(_, _, _) => InsertStepKeeps(s, step);
    case LoseInsert(_, _, _) => InsertStepKeeps(s, step);
    case FailInsert(c) => if At(s, c) && s.stages[c].Stored? { MoveKeeps(s, c, Cleaning(s.stages[c].blob, Failed)); }
    case LookUp(c, found) => LookUpKeeps(s, c, found);
    case Cleanup(_) => CleanupKeeps(s, step);
    case FailCleanup(_) => CleanupKeeps(s, step);
    case Die(c) => DieKeeps(s, c);
  }

  lemma LookUpKeeps(s: State, c: CallId, found: Option<int>)
    requires Inv(s)
    ensures Inv(Next(s, LookUp(c, found)))
  {
    hide Inv;
    if At(s, c) && s.stages[c].Conflicted? && (found.Some? ==> LookupReturns(s, s.requests[c], found)) {
      MoveKeeps(s, c, Cleaning(s.stages[c].blob, if found.Some? then Row(found.value) else Failed));
    }
  }

  lemma {:induction false} Reachable(steps: seq<Step>)
    ensures Inv(Run(steps))
  {
    hide Next;
    if steps != [] {
      Reachable(steps[..|steps| - 1]);
      hide Inv;
      StepKeeps(Run(steps[..|steps| - 1]), steps[|steps| - 1]);
    }
  }

  // ---- the promises, over every run ----

  /** At most one row per kind, owner and Idempotency-Key. */
  lemma OneRowPerKey(steps: seq<Step>, r: Call, a: int, b: int)
    requires r.key.Some? && Answers(Run(steps), r, a) && Answers(Run(steps), r, b)
    ensures a == b
  {
    Reachable(steps);
    hide Run, ObjectsHeld, ResultsTrue;
  }

  /** Every successful call returns its request's row, so retries with one key all return the same one. */
  lemma RetriesAgree(steps: seq<Step>, c: CallId, d: CallId)
    requires var s := Run(steps);
             && c in s.results && d in s.results && s.results[c].Row? && s.results[d].Row?
             && c in s.requests && d in s.requests && s.requests[c] == s.requests[d] && s.requests[c].key.Some?
    ensures Run(steps).results[c] == Run(steps).results[d]
    ensures Answers(Run(steps), Run(steps).requests[c], Run(steps).results[c].id)
  {
    Reachable(steps);
    var s := Run(steps);
    assert Answers(s, s.requests[c], s.results[c].id) && Answers(s, s.requests[d], s.results[d].id);
    OneRowPerKey(steps, s.requests[c], s.results[c].id, s.results[d].id);
  }

  // ---- the balance of objects and rows ----

  function RowObjects(media: map<MediaId, MediaRow>): set<ObjectKey> { set m | m in media :: media[m].blob }

  function LeakedObjects(objects: map<ObjectKey, Holder>): set<ObjectKey> { set k | k in objects && objects[k].Leaked? }

  /** The step leaves the object behind without a row: a put reported as failed, a failed cleanup, or the end of the
      process while the call holds it. */
  predicate LeavesBehind(s: State, step: Step, k: ObjectKey) {
    || (step.LosePut? && At(s, step.call) && s.stages[step.call].Looked? && FreshKey(s, k) && step.blob == k)
    || (step.FailCleanup? && At(s, step.call) && s.stages[step.call].Cleaning? && s.stages[step.call].blob == k)
    || (step.Die? && At(s, step.call) && Holds(s.stages[step.call], k))
  }

  /** The step deletes the object of a committed row: the cleanup of a call whose insert was reported as failed. */
  predicate Strips(s: State, step: Step, k: ObjectKey) {
    step.Cleanup? && At(s, step.call) && s.stages[step.call].Doubted? && s.stages[step.call].blob == k
  }

  ghost predicate LeavesBehindAt(steps: seq<Step>, i: nat, k: ObjectKey)
    requires i < |steps|
  {
    LeavesBehind(Run(steps[..i]), steps[i], k)
  }

  ghost predicate StripsAt(steps: seq<Step>, i: nat, k: ObjectKey)
    requires i < |steps|
  {
    Strips(Run(steps[..i]), steps[i], k)
  }

  ghost predicate LeftBehind(steps: seq<Step>, k: ObjectKey) {
    exists i :: 0 <= i < |steps| && LeavesBehindAt(steps, i, k)
  }

  ghost predicate Stripped(steps: seq<Step>, k: ObjectKey) {
    exists i :: 0 <= i < |steps| && StripsAt(steps, i, k)
  }

  predicate IsLeaked(s: State, k: ObjectKey) { k in s.objects && s.objects[k].Leaked? }

  /** Some row names the object, which is not stored. */
  predicate IsBare(s: State, k: ObjectKey) { k !in s.objects && exists m :: m in s.media && s.media[m].blob == k }

  /** An insert changes nothing here, or adds one row, which takes over its call's object. */
  lemma InsertAdds(s: State, step: Step)
    requires step.Insert? || step.LoseInsert?
    ensures var n := Next(s, step);
            || (n.media == s.media && n.objects == s.objects)
            || (&& At(s, step.call) && s.stages[step.call].Stored? && step.media !in s.media
                && step.media in n.media && n.media[step.media].blob == s.stages[step.call].blob
                && n.media == s.media[step.media := n.media[step.media]]
                && n.objects == s.objects[s.stages[step.call].blob := ByRow(step.media)])
  {
    hide Conflicts;
  }

  lemma OnlyInsertsAdd(s: State, step: Step)
    requires !step.Insert? && !step.LoseInsert?
    ensures Next(s, step).media == s.media
  {
    hide LookupReturns, FreshKey;
  }

  lemma StepLeaksIff(s: State, step: Step, k: ObjectKey)
    requires Inv(s)
    ensures IsLeaked(Next(s, step), k) <==> IsLeaked(s, k) || LeavesBehind(s, step, k)
  {
    hide NoOrphanPhotos, RowsUnique, RowsPaired, RowOf, CallsKnown, ResultsTrue, LookupReturns;
    if step.Insert? || step.LoseInsert? {
      hide Next;
      InsertAdds(s, step);
    }
  }

  /** Rows stay as they are, and a new row comes with its object. */
  lemma RowsStay(s: State, step: Step)
    ensures forall m :: m in s.media ==> m in Next(s, step).media && Next(s, step).media[m] == s.media[m]
    ensures forall m :: m in Next(s, step).media && m !in s.media ==>
              Next(s, step).media[m].blob in Next(s, step).objects
  {
    hide Next;
    if step.Insert? || step.LoseInsert? { InsertAdds(s, step); } else { OnlyInsertsAdd(s, step); }
  }

  /** The object of a row is deleted only by stripping it, and is not stored again. */
  lemma RowObjectStep(s: State, step: Step, m: MediaId)
    requires Inv(s) && m in s.media
    ensures s.media[m].blob in Next(s, step).objects <==>
            s.media[m].blob in s.objects && !Strips(s, step, s.media[m].blob)
  {
    hide NoOrphanPhotos, RowsUnique, RowsPaired, RowOf, CallsKnown, ResultsTrue, LookupReturns;
    if step.Insert? || step.LoseInsert? {
      hide Next;
      InsertAdds(s, step);
    }
  }

  lemma StepStripsIff(s: State, step: Step, k: ObjectKey)
    requires Inv(s)
    ensures IsBare(Next(s, step), k) <==> IsBare(s, k) || Strips(s, step, k)
  {
    RowsStay(s, step);
    if m :| m in s.media && s.media[m].blob == k { RowObjectStep(s, step, m); }
    hide NoOrphanPhotos, RowsUnique, RowsPaired, RowOf, CallsKnown, ResultsTrue, Next, ObjectsHeld;
  }

  lemma BalanceSplits(steps: seq<Step>, k: ObjectKey)
    requires steps != []
    ensures var n := |steps| - 1;
            && (LeftBehind(steps, k) <==> LeftBehind(steps[..n], k) || LeavesBehind(Run(steps[..n]), steps[n], k))
            && (Stripped(steps, k) <==> Stripped(steps[..n], k) || Strips(Run(steps[..n]), steps[n], k))
  {
    hide Run, LeavesBehind, Strips;
    var n := |steps| - 1;
    assert forall i :: 0 <= i < n ==> steps[..n][..i] == steps[..i];
    assert forall i :: 0 <= i < n ==> (LeavesBehindAt(steps[..n], i, k) <==> LeavesBehindAt(steps, i, k));
    assert forall i :: 0 <= i < n ==> (StripsAt(steps[..n], i, k) <==> StripsAt(steps, i, k));
    assert LeavesBehind(Run(steps[..n]), steps[n], k) <==> LeavesBehindAt(steps, n, k);
    assert Strips(Run(steps[..n]), steps[n], k) <==> StripsAt(steps, n, k);
  }

  /** In any run an object has no row exactly when a step left it behind, and a row has no object exactly when a
      call that doubted its commit deleted it. */
  lemma {:induction false} BalanceIsHistory(steps: seq<Step>, k: ObjectKey)
    ensures IsLeaked(Run(steps), k) <==> LeftBehind(steps, k)
    ensures IsBare(Run(steps), k) <==> Stripped(steps, k)
  {
    hide Next, LeavesBehind, Strips, Inv;
    if steps != [] {
      hide IsLeaked, IsBare, LeftBehind, Stripped;
      var n := |steps| - 1;
      BalanceIsHistory(steps[..n], k);
      Reachable(steps[..n]);
      BalanceSplits(steps, k);
      StepLeaksIff(Run(steps[..n]), steps[n], k);
      StepStripsIff(Run(steps[..n]), steps[n], k);
    }
  }

  /** Once no call is running, the stored objects are those that rows name and no doubting call deleted,
      each named by one row, plus those left behind. */
  lemma QuiescentBalance(steps: seq<Step>, k: ObjectKey)
    requires Run(steps).stages == map[]
    ensures var s := Run(steps);
            && (k in s.objects <==> (k in RowObjects(s.media) && !Stripped(steps, k)) || LeftBehind(steps, k))
            && !(k in RowObjects(s.media) && LeftBehind(steps, k))
            && (forall a, b :: a in s.media && b in s.media && s.media[a].blob == s.media[b].blob ==> a == b)
  {
    Reachable(steps);
    BalanceIsHistory(steps, k);
    hide Run, LeftBehind, Stripped, NoOrphanPhotos, RowsUnique, RowsPaired, ResultsTrue;
    var s := Run(steps);
    if k in s.objects && s.objects[k].ByRow? { assert s.media[s.objects[k].media].blob in RowObjects(s.media); }
  }

  /** So objects and rows balance exactly when no step of the run left an object behind or deleted a row's object. */
  lemma ObjectsAreRowsIff(steps: seq<Step>)
    requires Run(steps).stages == map[]
    ensures Run(steps).objects.Keys == RowObjects(Run(steps).media) <==>
            forall k :: !LeftBehind(steps, k) && !Stripped(steps, k)
  {
    hide Run, LeftBehind, Stripped;
    var s := Run(steps);
    forall k
      ensures && (k in s.objects <==> (k in RowObjects(s.media) && !Stripped(steps, k)) || LeftBehind(steps, k))
              && !(k in RowObjects(s.media) && LeftBehind(steps, k))
              && (Stripped(steps, k) ==> k in RowObjects(s.media))
    {
      QuiescentBalance(steps, k);
      BalanceIsHistory(steps, k);
    }
    if s.objects.Keys == RowObjects(s.media) {
      forall k ensures !LeftBehind(steps, k) && !Stripped(steps, k) {
        assert k in s.objects.Keys <==> k in RowObjects(s.media);
      }
    }
    if forall k :: !LeftBehind(steps, k) && !Stripped(steps, k) {
      forall k ensures k in s.objects.Keys <==> k in RowObjects(s.media) {
        assert !LeftBehind(steps, k) && !Stripped(steps, k);
      }
      assert s.objects.Keys == RowObjects(s.media);
    }
  }

  /** No media row outlives a rolled-back cat creation. */
  lemma PhotosHaveTheirCats(steps: seq<Step>, m: MediaId)
    requires m in Run(steps).media && Run(steps).media[m].kind == CatCreation
    ensures IsPhoto(Run(steps).cats, m)
  {
    Reachable(steps);
    hide Run, ResultsTrue, RowsUnique, ObjectsHeld;
  }

  /** A cat exists only with its photo's row, and with the photo's object, held by that row, exactly when no
      call that doubted the commit deleted it. */
  lemma CatsHaveTheirPhotos(steps: seq<Step>, c: CatId)
    requires c in Run(steps).cats
    ensures var s := Run(steps);
            var p := s.cats[c].photo;
            && p in s.media && s.media[p].owner == s.cats[c].owner
            && (s.media[p].blob in s.objects <==> !Stripped(steps, s.media[p].blob))
            && (s.media[p].blob in s.objects ==> s.objects[s.media[p].blob] == ByRow(p))
  {
    hide Run, ResultsTrue, RowsUnique, Stripped, LeftBehind;
    Reachable(steps);
    var p := Run(steps).cats[c].photo;
    var k := Run(steps).media[p].blob;
    BalanceIsHistory(steps, k);
    assert IsBare(Run(steps), k) <==> k !in Run(steps).objects;
  }

  const DOUBTING: seq<Step> := [
    Begin(1, Call(CatCreation, 7, None), None), Put(1, 20), LoseInsert(1, 10, 5), Cleanup(1)]

  /** A run that leaves a cat with no photo object: the commit was reported as failed. */
  lemma CatWithoutPhoto()
    ensures var s := Run(DOUBTING); 5 in s.cats && s.cats[5].photo == 10 && 10 in s.media && s.objects == map[]
  {
    assert DOUBTING[..3] == [Begin(1, Call(CatCreation, 7, None), None), Put(1, 20), LoseInsert(1, 10, 5)];
    assert DOUBTING[..3][..2] == [Begin(1, Call(CatCreation, 7, None), None), Put(1, 20)];
    assert DOUBTING[..3][..2][..1] == [Begin(1, Call(CatCreation, 7, None), None)];
    assert Run(DOUBTING[..3][..2][..1]) == Next(INITIAL, Begin(1, Call(CatCreation, 7, None), None));
  }
}
