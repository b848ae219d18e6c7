/** The provider catalog behind its double-checked cache. Regime: any number of callers whose steps
    alternate in any order, under a readers-writer lock; time passes between any two steps, any
    fetch may fail, and any caller may be dropped at any point, which releases its lock.
 */
module CatalogCache {
  import opened Wrappers

  /** 300 seconds, in nanoseconds. */
  const TTL: nat := 300_000_000_000

  datatype Snapshot = Snapshot(sizes: seq<string>, regions: seq<string>, images: seq<string>)

  datatype Entry = Entry(snapshot: Snapshot, fetchedAt: nat)

  /** How a caller came by its snapshot: from the cache, found fresh at that time, or by its own refresh. */
  datatype Origin = Cached(checkedAt: nat) | Made(fetchedAt: nat)

  /** Where a caller is. */
  datatype Task =
    | WantRead
    | Reading
    | ReadClone(checkedAt: nat)
    | WantWrite
    | Writing
    | WriteClone(checkedAt: nat)
    | FetchSizes
    | FetchRegions(sizes: seq<string>)
    | FetchImages(sizes: seq<string>, regions: seq<string>)
    | Store(snapshot: Snapshot)
    | Publish(entry: Entry)
    | Got(snapshot: Snapshot, origin: Origin)
    | Errored

  datatype Kind = Sizes | Regions | Images

  /** A fetch of one list by a caller, and its answer, if there was one. */
  datatype Fetch = Fetch(kind: Kind, caller: int, answer: Option<seq<string>>)

  /** `log` and `fetches` are history: every successful refresh, and every fetch. */
  datatype State = State(
    now: nat,
    cache: Option<Entry>,
    readers: set<int>,
    writer: Option<int>,
    tasks: map<int, Task>,
    log: seq<Entry>,
    fetches: seq<Fetch>)

  datatype Action = Spawn(id: int) | Tick(ns: nat) | Run(id: int, answer: Option<seq<string>>) | Drop(id: int)

  predicate HoldsRead(t: Task) { t.Reading? || t.ReadClone? }

  predicate Refreshing(t: Task) { t.FetchSizes? || t.FetchRegions? || t.FetchImages? || t.Store? }

  predicate HoldsWrite(t: Task) { t.Writing? || t.WriteClone? || Refreshing(t) || t.Publish? }

  predicate Finished(t: Task) { t.Got? || t.Errored? }

  predicate Fresh(e: Entry, now: nat) { now < e.fetchedAt + TTL }

  predicate CacheFresh(s: State) { s.cache.Some? && Fresh(s.cache.value, s.now) }

  ghost predicate NoReaders(s: State) { forall id :: id !in s.readers }

  ghost predicate CanRun(s: State, t: Task) {
    && !Finished(t)
    && (t.WantRead? ==> s.writer.None?)
    && (t.WantWrite? ==> s.writer.None? && NoReaders(s))
    && (t.ReadClone? || t.WriteClone? ==> s.cache.Some?)
  }

  function Noted(s: State, kind: Kind, id: int, answer: Option<seq<string>>): State {
    s.(fetches := s.fetches + [Fetch(kind, id, answer)])
  }

  ghost predicate Enabled(s: State, a: Action) {
    match a
    case Spawn(id) => id !in s.tasks
    case Tick(_) => true
    case Run(id, _) => id in s.tasks && CanRun(s, s.tasks[id])
    case Drop(id) => id in s.tasks && !Finished(s.tasks[id])
  }

  function Release(s: State, id: int): State {
    s.(readers := s.readers - {id}, writer := if s.writer == Some(id) then None else s.writer)
  }

  function At(s: State, id: int, t: Task): State {
    s.(tasks := s.tasks[id := t])
  }

  /** After a fetch: a failure ends the caller, an answer takes it on. */
  function Fetched(s: State, id: int, answer: Option<seq<string>>, next: seq<string> -> Task): State {
    if answer.None? then At(Release(s, id), id, Errored) else At(s, id, next(answer.value))
  }

  function Apply(s: State, a: Action): State
    requires Enabled(s, a)
  {
    match a
    case Spawn(id) => At(s, id, WantRead)
    case Tick(ns) => s.(now := s.now + ns)
    case Drop(id) => Release(s.(tasks := s.tasks - {id}), id)
    case Run(id, answer) =>
      match s.tasks[id]
      case WantRead => At(s.(readers := s.readers + {id}), id, Reading)
      case Reading => if CacheFresh(s) then At(s, id, ReadClone(s.now)) else At(Release(s, id), id, WantWrite)
      case ReadClone(t) => At(Release(s, id), id, Got(s.cache.value.snapshot, Cached(t)))
      case WantWrite => At(s.(writer := Some(id)), id, Writing)
      case Writing => At(s, id, if CacheFresh(s) then WriteClone(s.now) else FetchSizes)
      case WriteClone(t) => At(Release(s, id), id, Got(s.cache.value.snapshot, Cached(t)))
      case FetchSizes => Fetched(Noted(s, Sizes, id, answer), id, answer, a => FetchRegions(a))
      case FetchRegions(sizes) => Fetched(Noted(s, Regions, id, answer), id, answer, a => FetchImages(sizes, a))
      case FetchImages(sizes, regions) =>
        Fetched(Noted(s, Images, id, answer), id, answer, a => Store(Snapshot(sizes, regions, a)))
      case Store(snapshot) =>
        var e := Entry(snapshot, s.now);
        At(s.(cache := Some(e), log := s.log + [e]), id, Publish(e))
      case Publish(e) => At(Release(s, id), id, Got(e.snapshot, Made(e.fetchedAt)))
  }

  ghost predicate Legal(s: State, actions: seq<Action>)
    decreases actions
  {
    actions == [] || (Enabled(s, actions[0]) && Legal(Apply(s, actions[0]), actions[1..]))
  }

  function Exec(s: State, actions: seq<Action>): State
    requires Legal(s, actions)
    decreases actions
  {
    if actions == [] then s else Exec(Apply(s, actions[0]), actions[1..])
  }

  ghost predicate Initial(s: State) {
    s.cache.None? && NoReaders(s) && s.writer.None? && s.tasks == map[] && s.log == [] && s.fetches == []
  }

  // ---------- the invariant ----------

  /** The lock is held by exactly the callers whose position says so, and by one writer at most. */
  ghost predicate LockOk(s: State) {
    && (forall id :: id in s.readers <==> id in s.tasks && HoldsRead(s.tasks[id]))
    && (forall id :: s.writer == Some(id) <==> id in s.tasks && HoldsWrite(s.tasks[id]))
    && (s.writer.Some? ==> NoReaders(s))
  }

  /** The cache holds the last refresh, and refreshes are at least the time to live apart. */
  ghost predicate LogOk(s: State) {
    && (s.cache.None? <==> s.log == [])
    && (s.cache.Some? ==> s.cache.value == s.log[|s.log| - 1] && s.cache.value.fetchedAt <= s.now)
    && Spaced(s.log)
  }

  ghost predicate Spaced(log: seq<Entry>) {
    forall i :: 0 <= i < |log| - 1 ==> log[i].fetchedAt + TTL <= log[i + 1].fetchedAt
  }

  ghost predicate OneRefresh(log: seq<Entry>, snapshot: Snapshot, origin: Origin) {
    exists k :: 0 <= k < |log| && log[k].snapshot == snapshot
      && match origin
         case Cached(t) => log[k].fetchedAt <= t && Fresh(log[k], t)
         case Made(t) => log[k].fetchedAt == t
  }

  /** What a caller's position says about the cache. */
  ghost predicate Knows(s: State, t: Task) {
    && (t.ReadClone? || t.WriteClone? ==>
         s.cache.Some? && s.cache.value.fetchedAt <= t.checkedAt && Fresh(s.cache.value, t.checkedAt))
    && (Refreshing(t) ==> !CacheFresh(s))
    && (t.Publish? ==> t.entry in s.log)
    && (t.Got? ==> OneRefresh(s.log, t.snapshot, t.origin))
  }

  ghost predicate Inv(s: State) {
    LockOk(s) && LogOk(s) && forall id :: id in s.tasks ==> Knows(s, s.tasks[id])
  }

  lemma LockKept(s: State, a: Action)
    requires LockOk(s) && Enabled(s, a)
    ensures LockOk(Apply(s, a))
  {
    var v := Apply(s, a);
    if a.Run? {
      forall id | id != a.id ensures id in v.tasks <==> id in s.tasks {}
    }
  }

  lemma LogKept(s: State, a: Action)
    requires Inv(s) && Enabled(s, a)
    ensures LogOk(Apply(s, a))
  {
  }

  /** A caller that does not move keeps what it knows: while it holds the lock the cache stays as it is. */
  lemma OthersKnow(s: State, a: Action, other: int)
    requires Inv(s) && Enabled(s, a) && other in s.tasks && !(a.Run? && a.id == other) && !(a.Drop? && a.id == other)
    ensures var v := Apply(s, a); other in v.tasks && v.tasks[other] == s.tasks[other] && Knows(v, v.tasks[other])
  {
    var v, t := Apply(s, a), s.tasks[other];
    if a.Run? && s.tasks[a.id].Store? {
      assert s.writer == Some(a.id) && other !in s.readers && s.writer != Some(other);
      if t.Got? {
        var k :| 0 <= k < |s.log| && s.log[k].snapshot == t.snapshot
          && match t.origin
             case Cached(c) => s.log[k].fetchedAt <= c && Fresh(s.log[k], c)
             case Made(c) => s.log[k].fetchedAt == c;
        assert v.log[k] == s.log[k];
      }
    }
  }

  lemma AnswererKnows(s: State, id: int, answer: Option<seq<string>>)
    requires Inv(s) && Enabled(s, Run(id, answer)) && (s.tasks[id].ReadClone? || s.tasks[id].WriteClone?)
    ensures var v := Apply(s, Run(id, answer)); Knows(v, v.tasks[id])
  {
    var t, last := s.tasks[id], |s.log| - 1;
    assert Knows(s, t);
    assert s.log[last].snapshot == s.cache.value.snapshot && s.log[last].fetchedAt <= t.checkedAt
        && Fresh(s.log[last], t.checkedAt);
  }

  lemma RefresherKnows(s: State, id: int, answer: Option<seq<string>>)
    requires Inv(s) && Enabled(s, Run(id, answer)) && (s.tasks[id].Store? || s.tasks[id].Publish?)
    ensures var v := Apply(s, Run(id, answer)); Knows(v, v.tasks[id])
  {
    var v, t := Apply(s, Run(id, answer)), s.tasks[id];
    if t.Publish? {
      assert Knows(s, t);
      var k :| 0 <= k < |s.log| && s.log[k] == t.entry;
      assert s.log[k].snapshot == t.entry.snapshot && s.log[k].fetchedAt == t.entry.fetchedAt;
    } else {
      assert v.log[|v.log| - 1] == v.tasks[id].entry;
    }
  }

  lemma MoverKnows(s: State, id: int, answer: Option<seq<string>>)
    requires Inv(s) && Enabled(s, Run(id, answer))
    ensures var v := Apply(s, Run(id, answer)); Knows(v, v.tasks[id])
  {
    var t := s.tasks[id];
    if t.ReadClone? || t.WriteClone? {
      AnswererKnows(s, id, answer);
    } else if t.Store? || t.Publish? {
      RefresherKnows(s, id, answer);
    } else {
      assert Knows(s, t);
    }
  }

  lemma Kept(s: State, a: Action)
    requires Inv(s) && Enabled(s, a)
    ensures Inv(Apply(s, a))
  {
    LockKept(s, a);
    LogKept(s, a);
    var v := Apply(s, a);
    forall id | id in v.tasks ensures Knows(v, v.tasks[id]) {
      if a.Run? && id == a.id {
        MoverKnows(s, id, a.answer);
      } else if id in s.tasks {
        OthersKnow(s, a, id);
      }
    }
  }

  lemma {:induction false} Always(s: State, actions: seq<Action>)
    requires Inv(s) && Legal(s, actions)
    ensures Inv(Exec(s, actions))
    decreases actions
  {
    if actions != [] {
      Kept(s, actions[0]);
      Always(Apply(s, actions[0]), actions[1..]);
    }
  }

  // ---------- what callers can rely on ----------

  /** Over every run, the stamps of successive successful refreshes are at least 300 seconds apart. */
  lemma RefreshesAreSpaced(s: State, actions: seq<Action>, i: nat)
    requires Initial(s) && Legal(s, actions) && i + 1 < |Exec(s, actions).log|
    ensures Exec(s, actions).log[i].fetchedAt + 300_000_000_000 <= Exec(s, actions).log[i + 1].fetchedAt
  {
    Always(s, actions);
  }

  /** Over every run, every caller that got an answer got its sizes, regions and images from one and
      the same refresh, which was under 300 seconds old when it checked, or which it had just made. */
  lemma AnswersComeFromOneRefresh(s: State, actions: seq<Action>, id: int)
    requires Initial(s) && Legal(s, actions)
    requires id in Exec(s, actions).tasks && Exec(s, actions).tasks[id].Got?
    ensures var v := Exec(s, actions); OneRefresh(v.log, v.tasks[id].snapshot, v.tasks[id].origin)
  {
    Always(s, actions);
  }

  /** A refresh that fails, and a caller that is dropped, change nothing but its own lock: the cache
      keeps the last successful refresh. */
  lemma FailureChangesNothing(s: State, actions: seq<Action>, a: Action)
    requires Initial(s) && Legal(s, actions) && Enabled(Exec(s, actions), a)
    requires a.Drop? || (a.Run? && Apply(Exec(s, actions), a).tasks[a.id].Errored?)
    ensures var v, u := Exec(s, actions), Apply(Exec(s, actions), a);
      && u.cache == v.cache && u.log == v.log
      && (v.log != [] ==> u.cache == Some(v.log[|v.log| - 1]))
      && u.writer != Some(a.id) && a.id !in u.readers
      && forall other :: other != a.id && other in v.tasks ==> other in u.tasks && u.tasks[other] == v.tasks[other]
  {
    Always(s, actions);
  }

  /** Nobody waits for ever: while any caller is unfinished, some caller can take a step. */
  lemma NoDeadlock(s: State, actions: seq<Action>, waiting: int) returns (id: int)
    requires Initial(s) && Legal(s, actions)
    requires waiting in Exec(s, actions).tasks && !Finished(Exec(s, actions).tasks[waiting])
    ensures Enabled(Exec(s, actions), Run(id, None))
  {
    Always(s, actions);
    var v := Exec(s, actions);
    if v.writer.Some? {
      id := v.writer.value;
    } else if !NoReaders(v) {
      id :| id in v.readers;
    } else {
      id := waiting;
    }
    assert Knows(v, v.tasks[id]);
  }

  /** Both checks, the one under the read lock and the one under the write lock, let a caller answer from the cache
      exactly if the last refresh is under 300 seconds old. The second matters: of two callers that both found the
      cache stale, the later to get the write lock answers from what the first has fetched. */
  lemma ChecksAreExact(s: State, actions: seq<Action>, id: int, answer: Option<seq<string>>)
    requires Initial(s) && Legal(s, actions)
    requires var v := Exec(s, actions); id in v.tasks && (v.tasks[id].Reading? || v.tasks[id].Writing?)
    ensures var v, u := Exec(s, actions), Apply(Exec(s, actions), Run(id, answer));
      && (u.tasks[id].ReadClone? || u.tasks[id].WriteClone? <==>
            v.log != [] && v.now < v.log[|v.log| - 1].fetchedAt + 300_000_000_000)
      && (u.tasks[id].ReadClone? ==> u.readers == v.readers)
      && (u.tasks[id].WriteClone? ==> u.writer == v.writer)
  {
    Always(s, actions);
  }

  // ---------- where the lists come from ----------

  /** Three fetches in a row by one caller, answered with the lists of the snapshot. */
  ghost predicate ThreeFetches(fetches: seq<Fetch>, i: int, id: int, snapshot: Snapshot) {
    && 0 <= i && i + 2 < |fetches|
    && fetches[i] == Fetch(Sizes, id, Some(snapshot.sizes))
    && fetches[i + 1] == Fetch(Regions, id, Some(snapshot.regions))
    && fetches[i + 2] == Fetch(Images, id, Some(snapshot.images))
  }

  ghost predicate FetchedBy(fetches: seq<Fetch>, id: int, snapshot: Snapshot) {
    exists i :: ThreeFetches(fetches, i, id, snapshot)
  }

  ghost predicate FetchedBySome(fetches: seq<Fetch>, snapshot: Snapshot) {
    exists id :: FetchedBy(fetches, id, snapshot)
  }

  ghost predicate FailedFetch(fetches: seq<Fetch>, id: int) {
    exists i :: 0 <= i < |fetches| && fetches[i].caller == id && fetches[i].answer.None?
  }

  /** What a caller's position says about the fetches so far. */
  ghost predicate HasFetched(fetches: seq<Fetch>, id: int, t: Task) {
    var n := |fetches|;
    match t
    case FetchRegions(sizes) => n >= 1 && fetches[n - 1] == Fetch(Sizes, id, Some(sizes))
    case FetchImages(sizes, regions) =>
      && n >= 2 && fetches[n - 2] == Fetch(Sizes, id, Some(sizes))
      && fetches[n - 1] == Fetch(Regions, id, Some(regions))
    case Store(snapshot) => ThreeFetches(fetches, n - 3, id, snapshot)
    case Publish(e) => FetchedBy(fetches, id, e.snapshot)
    case Got(snapshot, Made(_)) => FetchedBy(fetches, id, snapshot)
    case Errored => FailedFetch(fetches, id)
    case _ => true
  }

  ghost predicate FetchInv(s: State) {
    && (forall id :: id in s.tasks ==> HasFetched(s.fetches, id, s.tasks[id]))
    && (forall k :: 0 <= k < |s.log| ==> FetchedBySome(s.fetches, s.log[k].snapshot))
  }

  lemma StillFetched(fetches: seq<Fetch>, f: Fetch, id: int, snapshot: Snapshot)
    requires FetchedBy(fetches, id, snapshot)
    ensures FetchedBy(fetches + [f], id, snapshot)
  {
    var i :| ThreeFetches(fetches, i, id, snapshot);
    assert ThreeFetches(fetches + [f], i, id, snapshot);
  }

  lemma StillFailed(fetches: seq<Fetch>, f: Fetch, id: int)
    requires FailedFetch(fetches, id)
    ensures FailedFetch(fetches + [f], id)
  {
    var i :| 0 <= i < |fetches| && fetches[i].caller == id && fetches[i].answer.None?;
    assert (fetches + [f])[i] == fetches[i];
  }

  /** One more fetch by somebody else. */
  lemma StillHasFetched(fetches: seq<Fetch>, f: Fetch, id: int, t: Task)
    requires HasFetched(fetches, id, t) && !Refreshing(t)
    ensures HasFetched(fetches + [f], id, t)
  {
    match t
    case Publish(e) => StillFetched(fetches, f, id, e.snapshot);
    case Got(snapshot, Made(_)) => StillFetched(fetches, f, id, snapshot);
    case Errored => StillFailed(fetches, f, id);
    case _ =>
  }

  predicate Fetching(t: Task) { t.FetchSizes? || t.FetchRegions? || t.FetchImages? }

  function Asked(t: Task): Kind
    requires Fetching(t)
  {
    if t.FetchSizes? then Sizes else if t.FetchRegions? then Regions else Images
  }

  lemma FetchNoted(s: State, id: int, answer: Option<seq<string>>)
    requires Enabled(s, Run(id, answer)) && Fetching(s.tasks[id]) && HasFetched(s.fetches, id, s.tasks[id])
    ensures var v := Apply(s, Run(id, answer));
      && v.fetches == s.fetches + [Fetch(Asked(s.tasks[id]), id, answer)] && v.log == s.log
      && HasFetched(v.fetches, id, v.tasks[id])
  {
    var v, n := Apply(s, Run(id, answer)), |s.fetches|;
    assert v.fetches[n] == Fetch(Asked(s.tasks[id]), id, answer);
    assert forall i :: 0 <= i < n ==> v.fetches[i] == s.fetches[i];
    if answer.None? {
      assert FailedFetch(v.fetches, id);
    }
  }

  lemma FetchKeepsFetches(s: State, id: int, answer: Option<seq<string>>)
    requires LockOk(s) && FetchInv(s) && Enabled(s, Run(id, answer)) && Fetching(s.tasks[id])
    ensures FetchInv(Apply(s, Run(id, answer)))
  {
    var v := Apply(s, Run(id, answer));
    var f := Fetch(Asked(s.tasks[id]), id, answer);
    FetchNoted(s, id, answer);
    forall other | other in v.tasks && other != id ensures HasFetched(v.fetches, other, v.tasks[other]) {
      assert s.writer == Some(id) && s.writer != Some(other);
      StillHasFetched(s.fetches, f, other, s.tasks[other]);
    }
    forall k | 0 <= k < |v.log| ensures FetchedBySome(v.fetches, v.log[k].snapshot) {
      var fetcher :| FetchedBy(s.fetches, fetcher, s.log[k].snapshot);
      StillFetched(s.fetches, f, fetcher, s.log[k].snapshot);
    }
  }

  lemma OthersKeepFetches(s: State, a: Action)
    requires FetchInv(s) && Enabled(s, a) && !(a.Run? && Fetching(s.tasks[a.id]))
    ensures FetchInv(Apply(s, a))
  {
    var v := Apply(s, a);
    assert v.fetches == s.fetches;
    if a.Run? && s.tasks[a.id].Store? {
      var snapshot := s.tasks[a.id].snapshot;
      assert ThreeFetches(v.fetches, |v.fetches| - 3, a.id, snapshot);
      assert FetchedBy(v.fetches, a.id, snapshot);
    }
    forall id | id in v.tasks ensures HasFetched(v.fetches, id, v.tasks[id]) {
      assert id in s.tasks ==> HasFetched(s.fetches, id, s.tasks[id]);
    }
  }

  lemma {:induction false} AlwaysFetched(s: State, actions: seq<Action>)
    requires Inv(s) && FetchInv(s) && Legal(s, actions)
    ensures Inv(Exec(s, actions)) && FetchInv(Exec(s, actions))
    decreases actions
  {
    if actions != [] {
      var a := actions[0];
      Kept(s, a);
      if a.Run? && Fetching(s.tasks[a.id]) {
        FetchKeepsFetches(s, a.id, a.answer);
      } else {
        OthersKeepFetches(s, a);
      }
      AlwaysFetched(Apply(s, a), actions[1..]);
    }
  }

  /** Over every run, each refresh has the answers of three fetches in a row, of sizes, regions and images, by one
      caller; a caller that refreshed the catalog has the answers of its own; and only a caller one of whose fetches
      failed ends in an error. */
  lemma ListsAreAsFetched(s: State, actions: seq<Action>)
    requires Initial(s) && Legal(s, actions)
    ensures var v := Exec(s, actions);
      && (forall k :: 0 <= k < |v.log| ==> FetchedBySome(v.fetches, v.log[k].snapshot))
      && (forall id :: id in v.tasks && v.tasks[id].Got? && v.tasks[id].origin.Made? ==>
            FetchedBy(v.fetches, id, v.tasks[id].snapshot))
      && (forall id :: id in v.tasks && v.tasks[id].Errored? ==> FailedFetch(v.fetches, id))
  {
    AlwaysFetched(s, actions);
    var v := Exec(s, actions);
    assert forall id :: id in v.tasks ==> HasFetched(v.fetches, id, v.tasks[id]);
  }

  /** Nothing is fetched while the last refresh is under 300 seconds old. */
  lemma FetchesOnlyWhenStale(s: State, actions: seq<Action>, a: Action)
    requires Initial(s) && Legal(s, actions) && Enabled(Exec(s, actions), a)
    requires Apply(Exec(s, actions), a).fetches != Exec(s, actions).fetches
    ensures var v := Exec(s, actions); v.log == [] || v.log[|v.log| - 1].fetchedAt + 300_000_000_000 <= v.now
  {
    Always(s, actions);
    assert Knows(Exec(s, actions), Exec(s, actions).tasks[a.id]);
  }

  // ---------- how long a caller takes ----------

  /** How many steps a caller can still take. */
  function Rank(t: Task): nat {
    match t
    case WantRead => 9
    case Reading => 8
    case WantWrite => 7
    case Writing => 6
    case FetchSizes => 5
    case FetchRegions(_) => 4
    case FetchImages(_, _) => 3
    case Store(_) => 2
    case Publish(_) => 1
    case ReadClone(_) => 1
    case WriteClone(_) => 1
    case Got(_, _) => 0
    case Errored => 0
  }

  function StepsOf(actions: seq<Action>, id: int): nat {
    if actions == [] then 0 else (if actions[0].Run? && actions[0].id == id then 1 else 0) + StepsOf(actions[1..], id)
  }

  lemma MoveDropsRank(s: State, id: int, answer: Option<seq<string>>)
    requires Enabled(s, Run(id, answer))
    ensures var v := Apply(s, Run(id, answer)); id in v.tasks && Rank(v.tasks[id]) < Rank(s.tasks[id])
  {
  }

  lemma OthersStay(s: State, a: Action, id: int)
    requires Enabled(s, a) && id in s.tasks && a != Drop(id) && !(a.Run? && a.id == id)
    ensures var v := Apply(s, a); id in v.tasks && v.tasks[id] == s.tasks[id]
  {
  }

  lemma StepDropsRank(s: State, a: Action, id: int)
    requires Enabled(s, a) && id in s.tasks && a != Drop(id)
    ensures var v := Apply(s, a);
      id in v.tasks && Rank(v.tasks[id]) + (if a.Run? && a.id == id then 1 else 0) <= Rank(s.tasks[id])
  {
    if a.Run? && a.id == id {
      MoveDropsRank(s, id, a.answer);
    } else {
      OthersStay(s, a, id);
    }
  }

  /** A caller that is not dropped takes nine steps at most, whatever the others do. */
  lemma {:induction false} CallersFinish(s: State, actions: seq<Action>, id: int)
    requires Legal(s, actions) && id in s.tasks && forall i :: 0 <= i < |actions| ==> actions[i] != Drop(id)
    ensures id in Exec(s, actions).tasks
    ensures StepsOf(actions, id) + Rank(Exec(s, actions).tasks[id]) <= Rank(s.tasks[id]) <= 9
    ensures Rank(Exec(s, actions).tasks[id]) == 0 <==> Finished(Exec(s, actions).tasks[id])
    decreases actions
  {
    if actions != [] {
      StepDropsRank(s, actions[0], id);
      assert forall i :: 0 <= i < |actions[1..]| ==> actions[1..][i] == actions[i + 1];
      CallersFinish(Apply(s, actions[0]), actions[1..], id);
    }
  }
}
