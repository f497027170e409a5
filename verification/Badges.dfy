/** Badge derivation: one pass over the sorted contributions against the
    order-free meaning of "earned" and "earned at". */
module Badges {
  import opened Collections
  import opened Sql

  type Time = int
  type CatId = int

  datatype Kind = Update | Help | CatAdded

  datatype Event = Event(kind: Kind, cat: CatId, createdAt: Time, serial: int, statuses: seq<string>)

  datatype Badge = FirstSighting | Feeder | WaterHelper | NeighborhoodWatcher | CatsOfIstanbul

  /** The fixed vocabulary, in the order it is rendered. */
  const BADGES: seq<Badge> := [FirstSighting, Feeder, WaterHelper, NeighborhoodWatcher, CatsOfIstanbul]

  function Target(b: Badge): nat {
    match b
    case FirstSighting => 1
    case Feeder => 5
    case WaterHelper => 5
    case NeighborhoodWatcher => 10
    case CatsOfIstanbul => 25
  }

  // ---- what a badge counts, over any collection of events ----

  /** The events up to and including a time, or all of them. */
  predicate Within(e: Event, until: Option<Time>) { until.None? || e.createdAt <= until.value }

  function Occurrences(statuses: seq<string>, s: string): nat {
    if statuses == [] then 0
    else Occurrences(statuses[..|statuses| - 1], s) + if statuses[|statuses| - 1] == s then 1 else 0
  }

  function Weight(e: Event, s: string, until: Option<Time>): nat {
    if e.kind == Update && Within(e, until) then Occurrences(e.statuses, s) else 0
  }

  function Count(events: seq<Event>, s: string, until: Option<Time>): nat {
    if events == [] then 0 else Count(events[..|events| - 1], s, until) + Weight(events[|events| - 1], s, until)
  }

  predicate Sees(e: Event) { e.kind == Update && "seen" in e.statuses }

  function SeenCats(events: seq<Event>, until: Option<Time>): set<CatId> {
    set e | e in events && Sees(e) && Within(e, until) :: e.cat
  }

  function AllCats(events: seq<Event>, until: Option<Time>): set<CatId> {
    set e | e in events && Within(e, until) :: e.cat
  }

  function Value(b: Badge, events: seq<Event>, until: Option<Time>): nat {
    match b
    case FirstSighting => if Count(events, "seen", until) > 0 then 1 else 0
    case Feeder => Count(events, "fed", until)
    case WaterHelper => Count(events, "water_provided", until)
    case NeighborhoodWatcher => |SeenCats(events, until)|
    case CatsOfIstanbul => |AllCats(events, until)|
  }

  predicate Reached(b: Badge, events: seq<Event>, until: Option<Time>) { Value(b, events, until) >= Target(b) }

  /** t is the least time whose inclusive past reaches the target. */
  ghost predicate EarnedAt(b: Badge, events: seq<Event>, t: Time) {
    Reached(b, events, Some(t)) && forall u :: u < t ==> !Reached(b, events, Some(u))
  }

  datatype Status = Status(badge: Badge, value: nat, earned: bool, earnedAt: Option<Time>)

  /** The simple specification of one badge's status. */
  ghost predicate Describes(s: Status, b: Badge, events: seq<Event>) {
    && s.badge == b
    && s.earned == Reached(b, events, None)
    && s.value == (if Reached(b, events, None) then Target(b) else Value(b, events, None))
    && (s.earned <==> s.earnedAt.Some?)
    && (s.earnedAt.Some? ==> EarnedAt(b, events, s.earnedAt.value))
  }

  // ---- sorting ----

  predicate Precedes(a: Event, b: Event) {
    a.createdAt < b.createdAt || (a.createdAt == b.createdAt && a.serial <= b.serial)
  }

  ghost predicate Ordered(s: seq<Event>) { forall i, j :: 0 <= i < j < |s| ==> s[i].createdAt <= s[j].createdAt }

  /** Put e after every event it does not strictly precede. */
  function Insert(s: seq<Event>, e: Event): (r: seq<Event>)
    ensures multiset(r) == multiset(s) + multiset{e}
  {
    if s == [] || Precedes(s[|s| - 1], e) then s + [e]
    else
      assert s == s[..|s| - 1] + [s[|s| - 1]];
      Insert(s[..|s| - 1], e) + [s[|s| - 1]]
  }

  /** A stable sort by (created_at, seq). */
  function Sorted(s: seq<Event>): (r: seq<Event>)
    ensures multiset(r) == multiset(s)
  {
    if s == [] then []
    else
      assert s == s[..|s| - 1] + [s[|s| - 1]];
      Insert(Sorted(s[..|s| - 1]), s[|s| - 1])
  }

  lemma InsertedFrom(s: seq<Event>, e: Event, x: Event)
    requires x in Insert(s, e)
    ensures x in s || x == e
  {
    assert x in multiset(Insert(s, e));
  }

  lemma {:induction false} InsertKeepsOrder(s: seq<Event>, e: Event)
    requires Ordered(s)
    ensures Ordered(Insert(s, e))
  {
    if s != [] && !Precedes(s[|s| - 1], e) {
      var n := |s| - 1;
      var r := Insert(s[..n], e);
      InsertKeepsOrder(s[..n], e);
      forall i | 0 <= i < |r| ensures r[i].createdAt <= s[n].createdAt {
        InsertedFrom(s[..n], e, r[i]);
      }
      assert Insert(s, e) == r + [s[n]];
    }
  }

  lemma {:induction false} SortedIsOrdered(s: seq<Event>)
    ensures Ordered(Sorted(s))
  {
    if s != [] {
      SortedIsOrdered(s[..|s| - 1]);
      InsertKeepsOrder(Sorted(s[..|s| - 1]), s[|s| - 1]);
    }
  }

  // ---- values grow with the events and with time ----

  lemma {:induction false} CountSplits(a: seq<Event>, b: seq<Event>, s: string, until: Option<Time>)
    ensures Count(a + b, s, until) == Count(a, s, until) + Count(b, s, until)
    decreases |b|
  {
    if b == [] {
      assert a + b == a;
    } else {
      var n := |b| - 1;
      assert (a + b)[..|a + b| - 1] == a + b[..n];
      CountSplits(a, b[..n], s, until);
    }
  }

  lemma OneFewer<T>(a: multiset<T>, b: multiset<T>, x: T)
    requires a + multiset{x} <= b + multiset{x}
    ensures a <= b
  {
    forall e ensures a[e] <= b[e] {
      assert (a + multiset{x})[e] <= (b + multiset{x})[e];
    }
  }

  lemma {:induction false} CountMonotone(a: seq<Event>, b: seq<Event>, s: string, until: Option<Time>)
    requires multiset(a) <= multiset(b)
    ensures Count(a, s, until) <= Count(b, s, until)
    decreases |a|
  {
    if a != [] {
      var n := |a| - 1;
      var x := a[n];
      assert a == a[..n] + [x];
      assert x in multiset(b);
      var i :| 0 <= i < |b| && b[i] == x;
      var rest := b[..i] + b[i + 1..];
      assert b == b[..i] + [x] + b[i + 1..];
      OneFewer(multiset(a[..n]), multiset(rest), x);
      CountMonotone(a[..n], rest, s, until);
      CountSplits(b[..i], b[i + 1..], s, until);
      CountSplits(b[..i] + [x], b[i + 1..], s, until);
      assert (b[..i] + [x])[..|b[..i] + [x]| - 1] == b[..i];
    }
  }

  /** More events never lower a value. */
  lemma ValueMonotone(b: Badge, fewer: seq<Event>, more: seq<Event>, until: Option<Time>)
    requires multiset(fewer) <= multiset(more)
    ensures Value(b, fewer, until) <= Value(b, more, until)
  {
    CountMonotone(fewer, more, "seen", until);
    CountMonotone(fewer, more, "fed", until);
    CountMonotone(fewer, more, "water_provided", until);
    forall e | e in fewer ensures e in more { assert e in multiset(fewer); }
    SubsetSize(SeenCats(fewer, until), SeenCats(more, until));
    SubsetSize(AllCats(fewer, until), AllCats(more, until));
  }

  /** The order of the events does not matter. */
  lemma ValueOrderFree(b: Badge, x: seq<Event>, y: seq<Event>, until: Option<Time>)
    requires multiset(x) == multiset(y)
    ensures Value(b, x, until) == Value(b, y, until)
  {
    ValueMonotone(b, x, y, until);
    ValueMonotone(b, y, x, until);
  }

  lemma {:induction false} CountOfPast(past: seq<Event>, later: seq<Event>, s: string, t: Time)
    requires forall e :: e in past ==> e.createdAt <= t
    requires forall e :: e in later ==> e.createdAt > t
    ensures Count(past + later, s, Some(t)) == Count(past, s, None)
    decreases |past| + |later|
  {
    var all := past + later;
    if later != [] {
      var n := |later| - 1;
      assert all[..|all| - 1] == past + later[..n];
      assert later[n] in later;
      CountOfPast(past, later[..n], s, t);
    } else if past != [] {
      var n := |past| - 1;
      assert all == past && past[..n] + later == past[..n];
      assert past[n] in past;
      CountOfPast(past[..n], later, s, t);
    } else {
      assert all == [];
    }
  }

  /** At a time that splits the events, the inclusive past is all that counts. */
  lemma ValueOfPast(b: Badge, past: seq<Event>, later: seq<Event>, t: Time)
    requires forall e :: e in past ==> e.createdAt <= t
    requires forall e :: e in later ==> e.createdAt > t
    ensures Value(b, past + later, Some(t)) == Value(b, past, None)
  {
    CountOfPast(past, later, "seen", t);
    CountOfPast(past, later, "fed", t);
    CountOfPast(past, later, "water_provided", t);
    assert SeenCats(past + later, Some(t)) == SeenCats(past, None);
    assert AllCats(past + later, Some(t)) == AllCats(past, None);
  }

  // ---- the crossing event of a sorted list ----

  /** The time of the event at which a prefix first reaches the target. */
  function Crossing(b: Badge, s: seq<Event>): Option<Time> {
    if s == [] then None
    else
      var before := Crossing(b, s[..|s| - 1]);
      if before.Some? then before else if Reached(b, s, None) then Some(s[|s| - 1].createdAt) else None
  }

  lemma PrefixReachesLess(b: Badge, s: seq<Event>, n: nat)
    requires n <= |s|
    ensures Value(b, s[..n], None) <= Value(b, s, None)
  {
    assert s == s[..n] + s[n..];
    ValueMonotone(b, s[..n], s, None);
  }

  lemma EmptyReachesNothing(b: Badge)
    ensures !Reached(b, [], None)
  {
    assert SeenCats([], None) == {} && AllCats([], None) == {};
  }

  lemma {:induction false} CrossingIffReached(b: Badge, s: seq<Event>)
    ensures Crossing(b, s).Some? <==> Reached(b, s, None)
  {
    if s == [] {
      EmptyReachesNothing(b);
    } else {
      CrossingIffReached(b, s[..|s| - 1]);
      PrefixReachesLess(b, s, |s| - 1);
    }
  }

  lemma {:induction false} CrossingIndex(b: Badge, s: seq<Event>) returns (k: nat)
    requires Crossing(b, s).Some?
    ensures k < |s| && Crossing(b, s) == Some(s[k].createdAt) && Reached(b, s[..k + 1], None)
            && !Reached(b, s[..k], None)
  {
    hide Reached;
    var n := |s| - 1;
    CrossingIffReached(b, s[..n]);
    if Crossing(b, s[..n]).Some? {
      k := CrossingIndex(b, s[..n]);
      assert s[..n][..k] == s[..k] && s[..n][..k + 1] == s[..k + 1];
    } else {
      k := n;
      assert s[..k + 1] == s;
    }
  }

  /** How many leading events of an ordered list are not after t. */
  lemma {:induction false} SplitAt(s: seq<Event>, t: Time) returns (m: nat)
    requires Ordered(s)
    ensures m <= |s| && (forall i :: 0 <= i < m ==> s[i].createdAt <= t)
            && (forall i :: m <= i < |s| ==> s[i].createdAt > t)
  {
    m := 0;
    while m < |s| && s[m].createdAt <= t
      invariant m <= |s| && forall i :: 0 <= i < m ==> s[i].createdAt <= t
    {
      m := m + 1;
    }
  }

  lemma ReachedAtTime(b: Badge, s: seq<Event>, t: Time) returns (m: nat)
    requires Ordered(s)
    ensures m <= |s| && (forall i :: 0 <= i < m ==> s[i].createdAt <= t)
            && (forall i :: m <= i < |s| ==> s[i].createdAt > t)
    ensures Reached(b, s, Some(t)) <==> Reached(b, s[..m], None)
  {
    m := SplitAt(s, t);
    assert s == s[..m] + s[m..];
    ValueOfPast(b, s[..m], s[m..], t);
  }

  /** The crossing event's time is the least time whose inclusive past reaches the target. */
  lemma CrossingIsEarnedAt(b: Badge, s: seq<Event>)
    requires Ordered(s) && Crossing(b, s).Some?
    ensures EarnedAt(b, s, Crossing(b, s).value)
  {
    hide Reached;
    var k := CrossingIndex(b, s);
    var t := s[k].createdAt;
    var m := ReachedAtTime(b, s, t);
    assert k < m;
    MoreIsReached(b, s, k + 1, m);
    forall u | u < t ensures !Reached(b, s, Some(u)) {
      var l := ReachedAtTime(b, s, u);
      assert l <= k;
      if Reached(b, s[..l], None) { MoreIsReached(b, s, l, k); }
    }
  }

  lemma MoreIsReached(b: Badge, s: seq<Event>, k: nat, m: nat)
    requires k <= m <= |s| && Reached(b, s[..k], None)
    ensures Reached(b, s[..m], None)
  {
    assert s[..m][..k] == s[..k];
    PrefixReachesLess(b, s[..m], k);
  }

  // ---- the single pass ----

  /** e with only its first j statuses: the event as far as the inner loop has come. */
  function Partly(e: Event, j: nat): Event
    requires j <= |e.statuses|
  {
    e.(statuses := e.statuses[..j])
  }

  /** The crossing time once one more, possibly partly read, event is counted. */
  function CrossedBy(b: Badge, past: seq<Event>, e: Event): Option<Time> {
    var before := Crossing(b, past);
    if before.Some? then before else if Reached(b, past + [e], None) then Some(e.createdAt) else None
  }

  lemma CrossedByWhole(b: Badge, past: seq<Event>, e: Event)
    ensures CrossedBy(b, past, e) == Crossing(b, past + [e])
  {
    assert (past + [e])[..|past|] == past;
  }

  lemma CountOfOneMore(past: seq<Event>, e: Event, j: nat, s: string)
    requires j < |e.statuses| && e.kind == Update
    ensures Count(past + [Partly(e, j + 1)], s, None) ==
            Count(past + [Partly(e, j)], s, None) + (if e.statuses[j] == s then 1 else 0)
  {
    assert e.statuses[..j + 1][..j] == e.statuses[..j];
    assert forall x :: (past + [x])[..|past|] == past;
  }

  lemma SeenOfOneMore(past: seq<Event>, e: Event, j: nat)
    requires j < |e.statuses| && e.kind == Update
    ensures SeenCats(past + [Partly(e, j + 1)], None) ==
            SeenCats(past + [Partly(e, j)], None) + (if e.statuses[j] == "seen" then {e.cat} else {})
  {
    var q, r := past + [Partly(e, j)], past + [Partly(e, j + 1)];
    assert Partly(e, j) in q && Partly(e, j + 1) in r;
    assert forall x :: x in q <==> x in past || x == Partly(e, j);
    assert forall x :: x in r <==> x in past || x == Partly(e, j + 1);
    assert forall s :: s in e.statuses[..j + 1] <==> s in e.statuses[..j] || s == e.statuses[j];
  }

  lemma NothingReadYet(past: seq<Event>, e: Event, s: string)
    ensures Count(past + [Partly(e, 0)], s, None) == Count(past, s, None)
    ensures SeenCats(past + [Partly(e, 0)], None) == SeenCats(past, None)
  {
    assert (past + [Partly(e, 0)])[..|past|] == past;
    assert forall x :: x in past + [Partly(e, 0)] <==> x in past || x == Partly(e, 0);
  }

  /** A value that grows by at most one reaches its target exactly when it equals it. */
  lemma CrossingStep(b: Badge, past: seq<Event>, e: Event, f: Event)
    requires f.createdAt == e.createdAt
    requires Value(b, past + [e], None) <= Value(b, past + [f], None) <= Value(b, past + [e], None) + 1
    ensures CrossedBy(b, past, f) ==
            if CrossedBy(b, past, e).Some? then CrossedBy(b, past, e)
            else if Value(b, past + [f], None) == Target(b) then Some(e.createdAt) else None
  {
    hide Value, Crossing;
  }

  function Tally(counts: map<string, nat>, s: string): nat { if s in counts then counts[s] else 0 }

  function When(thresholdAt: map<Badge, Time>, b: Badge): Option<Time> {
    if b in thresholdAt then Some(thresholdAt[b]) else None
  }

  /** The variables of the pass agree with the events read so far, the last one perhaps only partly. */
  ghost predicate Agrees(past: seq<Event>, e: Event, counts: map<string, nat>, seenCats: set<CatId>,
                         firstSeenAt: Option<Time>,
                         thresholdAt: map<Badge, Time>)
  {
    && (forall s :: Tally(counts, s) == Count(past + [e], s, None))
    && seenCats == SeenCats(past + [e], None)
    && firstSeenAt == CrossedBy(FirstSighting, past, e)
    && When(thresholdAt, Feeder) == CrossedBy(Feeder, past, e)
    && When(thresholdAt, WaterHelper) == CrossedBy(WaterHelper, past, e)
    && When(thresholdAt, NeighborhoodWatcher) == CrossedBy(NeighborhoodWatcher, past, e)
  }

  lemma GrowsByOne(s: set<CatId>, c: CatId)
    ensures |s| <= |s + {c}| <= |s| + 1
  {
    if c in s { assert s + {c} == s; }
  }

  lemma NotCrossedNotReached(b: Badge, past: seq<Event>, e: Event)
    requires CrossedBy(b, past, e).None?
    ensures Value(b, past + [e], None) < Target(b)
  {
    hide Value;
  }

  /** Whether reading the j-th status can move the badge: its own status was read. */
  predicate Moves(b: Badge, s: string) {
    match b
    case FirstSighting => s == "seen"
    case Feeder => s == "fed"
    case WaterHelper => s == "water_provided"
    case NeighborhoodWatcher => s == "seen"
    case CatsOfIstanbul => false
  }

  lemma StatusCounted(past: seq<Event>, e: Event, j: nat, b: Badge)
    requires j < |e.statuses| && e.kind == Update && b != CatsOfIstanbul
    ensures CrossedBy(b, past, Partly(e, j + 1)) ==
            if CrossedBy(b, past, Partly(e, j)).Some? then CrossedBy(b, past, Partly(e, j))
            else if Moves(b, e.statuses[j]) && Value(b, past + [Partly(e, j + 1)], None) == Target(b)
            then Some(e.createdAt) else None
  {
    var q, r := past + [Partly(e, j)], past + [Partly(e, j + 1)];
    match b {
      case FirstSighting => CountOfOneMore(past, e, j, "seen");
      case Feeder => CountOfOneMore(past, e, j, "fed");
      case WaterHelper => CountOfOneMore(past, e, j, "water_provided");
      case NeighborhoodWatcher =>
        SeenOfOneMore(past, e, j);
        GrowsByOne(SeenCats(q, None), e.cat);
    }
    assert Value(b, q, None) <= Value(b, r, None) <= Value(b, q, None) + 1;
    assert !Moves(b, e.statuses[j]) ==> Value(b, r, None) == Value(b, q, None);
    hide Value, CrossedBy, Partly;
    CrossingStep(b, past, Partly(e, j), Partly(e, j + 1));
    if CrossedBy(b, past, Partly(e, j)).None? { NotCrossedNotReached(b, past, Partly(e, j)); }
  }

  /** The guarded assignments of the inner loop keep the variables in step with the events. */
  lemma StatusAgrees(past: seq<Event>, e: Event, j: nat, counts: map<string, nat>, seenCats: set<CatId>,
                     firstSeenAt: Option<Time>,
                     thresholdAt: map<Badge, Time>, counts': map<string, nat>, seenCats': set<CatId>,
                     firstSeenAt': Option<Time>,
                     thresholdAt': map<Badge, Time>)
    requires j < |e.statuses| && e.kind == Update
             && Agrees(past, Partly(e, j), counts, seenCats, firstSeenAt, thresholdAt)
    requires counts' == counts[e.statuses[j] := Tally(counts, e.statuses[j]) + 1]
    requires seenCats' == if e.statuses[j] == "seen" then seenCats + {e.cat} else seenCats
    requires firstSeenAt' == if e.statuses[j] == "seen" && firstSeenAt.None? then Some(e.createdAt) else firstSeenAt
    requires Advanced(NeighborhoodWatcher, |seenCats'|, e, j, thresholdAt, thresholdAt')
    requires Advanced(Feeder, Tally(counts', "fed"), e, j, thresholdAt, thresholdAt')
    requires Advanced(WaterHelper, Tally(counts', "water_provided"), e, j, thresholdAt, thresholdAt')
    ensures Agrees(past, Partly(e, j + 1), counts', seenCats', firstSeenAt', thresholdAt')
  {
    hide Count, SeenCats, CrossedBy, Partly;
    SeenOfOneMore(past, e, j);
    forall x ensures Tally(counts', x) == Count(past + [Partly(e, j + 1)], x, None) {
      CountOfOneMore(past, e, j, x);
    }
    StatusCounted(past, e, j, FirstSighting);
    StatusCounted(past, e, j, Feeder);
    StatusCounted(past, e, j, WaterHelper);
    StatusCounted(past, e, j, NeighborhoodWatcher);
    CountOfOneMore(past, e, j, "seen");
    if firstSeenAt.None? { NotCrossedNotReached(FirstSighting, past, Partly(e, j)); }
  }

  /** The threshold of one badge after the j-th status: set once, at the moment the count equals the target. */
  predicate Advanced(b: Badge, count: nat, e: Event, j: nat, before: map<Badge, Time>, after: map<Badge, Time>)
    requires j < |e.statuses|
  {
    When(after, b) == if When(before, b).None? && Moves(b, e.statuses[j]) && count == Target(b) then Some(e.createdAt)
    else When(before, b)
  }

  /** The inner loop of badgeProgress over one ordinary update's statuses. */
  method CountStatuses(ghost past: seq<Event>, e: Event, counts: map<string, nat>, seenCats: set<CatId>,
                       firstSeenAt: Option<Time>,
                       thresholdAt: map<Badge, Time>)
    returns (counts': map<string, nat>, seenCats': set<CatId>, firstSeenAt': Option<Time>,
             thresholdAt': map<Badge, Time>)
    requires e.kind == Update && Agrees(past, Partly(e, 0), counts, seenCats, firstSeenAt, thresholdAt)
    ensures Agrees(past, e, counts', seenCats', firstSeenAt', thresholdAt')
    ensures When(thresholdAt', CatsOfIstanbul) == When(thresholdAt, CatsOfIstanbul)
  {
    hide Agrees;
    counts', seenCats', firstSeenAt', thresholdAt' := counts, seenCats, firstSeenAt, thresholdAt;
    for j := 0 to |e.statuses|
      invariant Agrees(past, Partly(e, j), counts', seenCats', firstSeenAt', thresholdAt')
      invariant When(thresholdAt', CatsOfIstanbul) == When(thresholdAt, CatsOfIstanbul)
    {
      ghost var before := (counts', seenCats', firstSeenAt', thresholdAt');
      var s := e.statuses[j];
      counts' := counts'[s := Tally(counts', s) + 1];
      if s == "seen" {
        if firstSeenAt'.None? { firstSeenAt' := Some(e.createdAt); }
        seenCats' := seenCats' + {e.cat};
        if |seenCats'| == Target(NeighborhoodWatcher) && NeighborhoodWatcher !in thresholdAt' {
          thresholdAt' := thresholdAt'[NeighborhoodWatcher := e.createdAt];
        }
      }
      if s == "fed" && counts'["fed"] == Target(Feeder) && Feeder !in thresholdAt' {
        thresholdAt' := thresholdAt'[Feeder := e.createdAt];
      }
      if s == "water_provided" && counts'["water_provided"] == Target(WaterHelper) && WaterHelper !in thresholdAt' {
        thresholdAt' := thresholdAt'[WaterHelper := e.createdAt];
      }
      StatusAgrees(past, e, j, before.0, before.1, before.2, before.3, counts', seenCats', firstSeenAt', thresholdAt');
    }
    assert e.statuses[..|e.statuses|] == e.statuses;
    assert Partly(e, |e.statuses|) == e;
  }

  /** The variables of the pass after whole events. */
  ghost predicate Tallied(p: seq<Event>, counts: map<string, nat>, seenCats: set<CatId>, firstSeenAt: Option<Time>,
                          thresholdAt: map<Badge, Time>)
  {
    && (forall s :: Tally(counts, s) == Count(p, s, None))
    && seenCats == SeenCats(p, None)
    && firstSeenAt == Crossing(FirstSighting, p)
    && When(thresholdAt, Feeder) == Crossing(Feeder, p)
    && When(thresholdAt, WaterHelper) == Crossing(WaterHelper, p)
    && When(thresholdAt, NeighborhoodWatcher) == Crossing(NeighborhoodWatcher, p)
  }

  /** An event that adds nothing to a badge's value does not cross its target. */
  lemma UnmovedBadge(b: Badge, p: seq<Event>, e: Event)
    requires Value(b, p + [e], None) == Value(b, p, None)
    ensures CrossedBy(b, p, e) == Crossing(b, p) && Crossing(b, p + [e]) == Crossing(b, p)
  {
    CrossingIffReached(b, p);
    CrossedByWhole(b, p, e);
    hide Value, Crossing;
  }

  lemma BeforeStatuses(p: seq<Event>, e: Event, counts: map<string, nat>, seenCats: set<CatId>,
                       firstSeenAt: Option<Time>, thresholdAt: map<Badge, Time>)
    requires Tallied(p, counts, seenCats, firstSeenAt, thresholdAt)
    ensures Agrees(p, Partly(e, 0), counts, seenCats, firstSeenAt, thresholdAt)
  {
    forall s ensures Count(p + [Partly(e, 0)], s, None) == Count(p, s, None) { NothingReadYet(p, e, s); }
    NothingReadYet(p, e, "seen");
    hide Count, SeenCats, Crossing, CrossedBy, Partly;
    UnmovedBadge(FirstSighting, p, Partly(e, 0));
    UnmovedBadge(Feeder, p, Partly(e, 0));
    UnmovedBadge(WaterHelper, p, Partly(e, 0));
    UnmovedBadge(NeighborhoodWatcher, p, Partly(e, 0));
  }

  lemma AfterStatuses(p: seq<Event>, e: Event, counts: map<string, nat>, seenCats: set<CatId>,
                      firstSeenAt: Option<Time>, thresholdAt: map<Badge, Time>)
    requires Agrees(p, e, counts, seenCats, firstSeenAt, thresholdAt)
    ensures Tallied(p + [e], counts, seenCats, firstSeenAt, thresholdAt)
  {
    hide Count, SeenCats, Crossing, CrossedBy;
    CrossedByWhole(FirstSighting, p, e);
    CrossedByWhole(Feeder, p, e);
    CrossedByWhole(WaterHelper, p, e);
    CrossedByWhole(NeighborhoodWatcher, p, e);
  }

  lemma OtherKindsCountNothing(p: seq<Event>, e: Event, counts: map<string, nat>, seenCats: set<CatId>,
                               firstSeenAt: Option<Time>, thresholdAt: map<Badge, Time>)
    requires e.kind != Update && Tallied(p, counts, seenCats, firstSeenAt, thresholdAt)
    ensures Tallied(p + [e], counts, seenCats, firstSeenAt, thresholdAt)
  {
    assert (p + [e])[..|p|] == p;
    forall s ensures Count(p + [e], s, None) == Count(p, s, None) {}
    assert forall x :: x in p + [e] <==> x in p || x == e;
    assert SeenCats(p + [e], None) == SeenCats(p, None);
    hide Count, SeenCats, Crossing;
    UnmovedBadge(FirstSighting, p, e);
    UnmovedBadge(Feeder, p, e);
    UnmovedBadge(WaterHelper, p, e);
    UnmovedBadge(NeighborhoodWatcher, p, e);
  }

  lemma CatCounted(p: seq<Event>, e: Event)
    ensures AllCats(p + [e], None) == AllCats(p, None) + {e.cat}
    ensures Crossing(CatsOfIstanbul, p + [e]) ==
            if Crossing(CatsOfIstanbul, p).Some? then Crossing(CatsOfIstanbul, p)
            else if |AllCats(p + [e], None)| == Target(CatsOfIstanbul) then Some(e.createdAt) else None
  {
    assert forall x :: x in p + [e] <==> x in p || x == e;
    assert AllCats(p + [e], None) == AllCats(p, None) + {e.cat};
    GrowsByOne(AllCats(p, None), e.cat);
    CrossingIffReached(CatsOfIstanbul, p);
    CrossedByWhole(CatsOfIstanbul, p, e);
    hide AllCats, Crossing;
  }

  lemma StatusDescribes(b: Badge, events: seq<Event>, raw: nat, at: Option<Time>)
    requires raw == Value(b, Sorted(events), None) && at == Crossing(b, Sorted(events))
    ensures raw >= Target(b) ==> at.Some?
    ensures Describes(Status(b, if raw > Target(b) then Target(b) else raw, raw >= Target(b), if raw >= Target(b)
                             then at else None), b, events)
  {
    hide Value, Crossing, Sorted, Ordered;
    var sorted := Sorted(events);
    SortedIsOrdered(events);
    CrossingIffReached(b, sorted);
    ValueOrderFree(b, sorted, events, None);
    forall u ensures Value(b, sorted, Some(u)) == Value(b, events, Some(u)) {
      ValueOrderFree(b, sorted, events, Some(u));
    }
    if at.Some? { CrossingIsEarnedAt(b, sorted); }
  }

  /** badgeProgress: the one-pass derivation meets the simple specification of every badge, for events in any order. */
  method BadgeProgress(events: seq<Event>) returns (statuses: seq<Status>)
    ensures |statuses| == |BADGES| && forall i :: 0 <= i < |BADGES| ==> Describes(statuses[i], BADGES[i], events)
  {
    hide Tallied, Agrees, Crossing, AllCats, Describes;
    var sorted := Sorted(events);
    var counts, seenCats, allCats, firstSeenAt, thresholdAt := StartTally();
    for i := 0 to |sorted|
      invariant Tallied(sorted[..i], counts, seenCats, firstSeenAt, thresholdAt)
      invariant allCats == AllCats(sorted[..i], None)
                && When(thresholdAt, CatsOfIstanbul) == Crossing(CatsOfIstanbul, sorted[..i])
    {
      var e := sorted[i];
      ghost var p := sorted[..i];
      assert sorted[..i + 1] == p + [e];
      CatCounted(p, e);
      allCats := allCats + {e.cat};
      if e.kind == Update {
        BeforeStatuses(p, e, counts, seenCats, firstSeenAt, thresholdAt);
        counts, seenCats, firstSeenAt, thresholdAt := CountStatuses(p, e, counts, seenCats, firstSeenAt, thresholdAt);
        AfterStatuses(p, e, counts, seenCats, firstSeenAt, thresholdAt);
      } else {
        OtherKindsCountNothing(p, e, counts, seenCats, firstSeenAt, thresholdAt);
      }
      if |allCats| == Target(CatsOfIstanbul) && CatsOfIstanbul !in thresholdAt {
        OtherThresholds(p + [e], counts, seenCats, firstSeenAt, thresholdAt, e.createdAt);
        thresholdAt := thresholdAt[CatsOfIstanbul := e.createdAt];
      }
    }
    assert sorted[..|sorted|] == sorted;
    statuses := BuildStatuses(events, counts, seenCats, allCats, firstSeenAt, thresholdAt);
  }

  lemma OtherThresholds(p: seq<Event>, counts: map<string, nat>, seenCats: set<CatId>, firstSeenAt: Option<Time>,
                        thresholdAt: map<Badge, Time>, at: Time)
    requires Tallied(p, counts, seenCats, firstSeenAt, thresholdAt)
    ensures Tallied(p, counts, seenCats, firstSeenAt, thresholdAt[CatsOfIstanbul := at])
  {}

  method StartTally()
    returns (counts: map<string, nat>, seenCats: set<CatId>, allCats: set<CatId>, firstSeenAt: Option<Time>,
             thresholdAt: map<Badge, Time>)
    ensures Tallied([], counts, seenCats, firstSeenAt, thresholdAt)
    ensures allCats == AllCats([], None) && When(thresholdAt, CatsOfIstanbul) == Crossing(CatsOfIstanbul, [])
  {
    counts, seenCats, allCats, firstSeenAt, thresholdAt := map[], {}, {}, None, map[];
  }

  /** The closing loop over the badge vocabulary. */
  method BuildStatuses(events: seq<Event>, counts: map<string, nat>, seenCats: set<CatId>, allCats: set<CatId>,
                       firstSeenAt: Option<Time>,
                       thresholdAt: map<Badge, Time>)
    returns (statuses: seq<Status>)
    requires Tallied(Sorted(events), counts, seenCats, firstSeenAt, thresholdAt)
    requires allCats == AllCats(Sorted(events), None)
             && When(thresholdAt, CatsOfIstanbul) == Crossing(CatsOfIstanbul, Sorted(events))
    ensures |statuses| == |BADGES| && forall i :: 0 <= i < |BADGES| ==> Describes(statuses[i], BADGES[i], events)
  {
    hide Crossing, Describes, Sorted, SeenCats, AllCats, Count;
    CrossingIffReached(FirstSighting, Sorted(events));
    statuses := [];
    for i := 0 to |BADGES|
      invariant |statuses| == i && forall k :: 0 <= k < i ==> Describes(statuses[k], BADGES[k], events)
    {
      var b := BADGES[i];
      var value :=
        match b
        case FirstSighting => (if firstSeenAt.Some? then 1 else 0)
        case Feeder => Tally(counts, "fed")
        case WaterHelper => Tally(counts, "water_provided")
        case NeighborhoodWatcher => |seenCats|
        case CatsOfIstanbul => |allCats|;
      var at := if b == FirstSighting then firstSeenAt else When(thresholdAt, b);
      StatusDescribes(b, events, value, at);
      var earned := value >= Target(b);
      var shown := if value > Target(b) then Target(b) else value;
      statuses := statuses + [Status(b, shown, earned, if earned then at else None)];
    }
  }

  // ---- consequences ----

  lemma {:induction false} CountedIffSeen(events: seq<Event>, s: string, until: Option<Time>)
    ensures Count(events, s, until) > 0 <==>
            exists e :: e in events && e.kind == Update && s in e.statuses && Within(e, until)
  {
    if events != [] {
      var rest, e := events[..|events| - 1], events[|events| - 1];
      CountedIffSeen(rest, s, until);
      OccursIff(e.statuses, s);
      assert e in events;
      assert forall x :: x in events <==> x in rest || x == e;
    }
  }

  lemma {:induction false} OccursIff(statuses: seq<string>, s: string)
    ensures Occurrences(statuses, s) > 0 <==> s in statuses
  {
    if statuses != [] {
      OccursIff(statuses[..|statuses| - 1], s);
      assert statuses == statuses[..|statuses| - 1] + [statuses[|statuses| - 1]];
    }
  }

  /** The five badges: one update with "seen"; five feedings; five waterings; ten cats seen; 25 cats in any way. */
  lemma EarnedMeans(s: Status, b: Badge, events: seq<Event>)
    requires Describes(s, b, events)
    ensures b in BADGES
    ensures s.earned <==>
            match b
            case FirstSighting => exists e :: e in events && e.kind == Update && "seen" in e.statuses
            case Feeder => Count(events, "fed", None) >= 5
            case WaterHelper => Count(events, "water_provided", None) >= 5
            case NeighborhoodWatcher => |set e | e in events && e.kind == Update && "seen" in e.statuses :: e.cat| >= 10
            case CatsOfIstanbul => |set e | e in events :: e.cat| >= 25
  {
    CountedIffSeen(events, "seen", None);
    assert SeenCats(events, None) == set e | e in events && e.kind == Update && "seen" in e.statuses :: e.cat;
    assert AllCats(events, None) == set e | e in events :: e.cat;
    assert BADGES[0] == FirstSighting && BADGES[1] == Feeder && BADGES[2] == WaterHelper
           && BADGES[3] == NeighborhoodWatcher && BADGES[4] == CatsOfIstanbul;
  }

  lemma EarnedAtUnique(b: Badge, events: seq<Event>, t: Time, u: Time)
    requires EarnedAt(b, events, t) && EarnedAt(b, events, u)
    ensures t == u
  {}

  /** The specification determines each status, and the order of the events does not matter to it. */
  lemma StatusOrderFree(b: Badge, x: seq<Event>, y: seq<Event>, s: Status, r: Status)
    requires multiset(x) == multiset(y) && Describes(s, b, x) && Describes(r, b, y)
    ensures s == r
  {
    ValueOrderFree(b, x, y, None);
    forall u ensures Value(b, x, Some(u)) == Value(b, y, Some(u)) { ValueOrderFree(b, x, y, Some(u)); }
    hide Value;
    if s.earnedAt.Some? && r.earnedAt.Some? { EarnedAtUnique(b, x, s.earnedAt.value, r.earnedAt.value); }
  }

  /** Adding events never un-earns a badge, lowers its value or moves its earned time later. */
  lemma MoreEventsKeepBadges(b: Badge, fewer: seq<Event>, more: seq<Event>, s: Status, r: Status)
    requires multiset(fewer) <= multiset(more) && Describes(s, b, fewer) && Describes(r, b, more)
    ensures s.value <= r.value && (s.earned ==> r.earned && r.earnedAt.value <= s.earnedAt.value)
  {
    ValueMonotone(b, fewer, more, None);
    forall u ensures Value(b, fewer, Some(u)) <= Value(b, more, Some(u)) { ValueMonotone(b, fewer, more, Some(u)); }
    hide Value;
  }
}
