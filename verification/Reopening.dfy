/** Failed saves of internal/chathistory/store.go: removals come before the index is written, so a save that fails
    in between leaves an index that names a file which is gone, and loading the directory stops at that file. */
module Reopening {

  import opened Basics
  import opened ChatHistory

  /** However a save of the rebuilt state fails, the directory it leaves opens again, exactly when the old index
      names none of the files to be removed. */
  lemma FailedSaveReopensIff(mid: State)
    requires Opens(mid.index, mid.files)
    ensures (forall b | Written(mid, b, false) :: Opens(b.index, b.files)) <==> Named(mid.index) !! mid.deleted
  {
    forall b | Written(mid, b, false) && Named(mid.index) !! mid.deleted ensures Opens(b.index, b.files) {
      var done, gone :| MaybeWritten(mid.files, b.files, mid.details, mid.dirty, mid.deleted, done, gone);
    }
    if id :| id in Named(mid.index) && id in mid.deleted {
      var b := mid.(files := mid.files - mid.deleted);
      NothingAdded(mid.files, mid.details, mid.deleted);
      assert MaybeWritten(mid.files, b.files, mid.details, mid.dirty, mid.deleted, {}, mid.deleted);
      assert Written(mid, b, false) && id !in b.files;
    }
  }

  // ---------------------------------------------------------------- which entries every rebuild keeps

  /** The other entries that are not older: a sort may put them all ahead. */
  function Ahead(text: Text, details: map<string, Entry>, id: string): set<string>
    requires id in details
  {
    set other | other in details && other != id && !Newer(text, details, id, other)
  }

  predicate Survives(text: Text, limit: int, details: map<string, Entry>, id: string)
    requires id in details
  {
    limit == 0 || |Ahead(text, details, id)| < limit
  }

  lemma {:induction false} SortedList(text: Text, details: map<string, Entry>) returns (items: seq<Summary>)
    requires Keyed(details)
    ensures Sorted(items) && Lists(text, items, details)
    decreases |details|
  {
    items := [];
    if details != map[] {
      var id :| id in details;
      var rest := details - {id};
      assert rest.Keys == details.Keys - {id} && rest[id := details[id]] == details;
      assert |rest| < |details|;
      items := SortedList(text, rest);
      InsertKeepsSorted(items, SummaryOf(text, details[id]));
      InsertLists(text, items, rest, id, details[id]);
      items := Insert(items, SummaryOf(text, details[id]));
    }
  }

  /** A sorted list that puts an entry behind all that are not older. */
  lemma ListedLast(text: Text, details: map<string, Entry>, id: string) returns (items: seq<Summary>, k: nat)
    requires Keyed(details) && id in details
    ensures Sorted(items) && Lists(text, items, details)
    ensures |Ahead(text, details, id)| <= k < |items| && items[k].id == id
  {
    var rest := details - {id};
    assert rest[id := details[id]] == details;
    var s := SummaryOf(text, details[id]);
    var others := SortedList(text, rest);
    k := InsertPlaces(others, s);
    InsertKeepsSorted(others, s);
    InsertLists(text, others, rest, id, details[id]);
    items := Insert(others, s);
    AheadIsBefore(text, details, id, others, k);
  }

  lemma AheadIsBefore(text: Text, details: map<string, Entry>, id: string, others: seq<Summary>, k: nat)
    requires id in details && Lists(text, others, details - {id}) && Sorted(others) && k <= |others|
    requires k < |others| ==> Before(SummaryOf(text, details[id]), others[k])
    ensures |Ahead(text, details, id)| <= k
  {
    var head := others[..k];
    forall j | k <= j < |others| ensures Before(SummaryOf(text, details[id]), others[j]) {
      assert j == k || !Before(others[j], others[k]);
    }
    forall other | other in Ahead(text, details, id) ensures other in IdsOf(head) {
      assert other in (details - {id});
      var j := PlaceOf(others, other);
      assert others[j] in others;
      assert others[j] == head[j];
    }
    DistinctCounts(head);
    Fewer(Ahead(text, details, id), IdsOf(head));
  }

  /** A rebuild that keeps the head of a sorted list. */
  lemma CutRebuilds(text: Text, a: State, items: seq<Summary>) returns (mid: State)
    requires Keyed(a.details) && Sorted(items) && Lists(text, items, a.details)
    ensures Rebuilt(text, a, mid)
    ensures var limit := AllowedLimit(a.limit);
      mid.items == if limit != 0 && |items| > limit then items[..limit] else items
  {
    var limit := AllowedLimit(a.limit);
    var cut := limit != 0 && |items| > limit;
    var kept := if cut then Only(a.details, IdsOf(items[..limit])) else a.details;
    if cut {
      KeptAreNewest(text, items, a.details, limit);
    } else {
      AllAreKept(text, items, a.details, limit);
    }
    var gone := Marked(text, a.details.Keys - kept.Keys);
    mid := a.(limit := limit, items := if cut then items[..limit] else items, details := kept, dirty := a.dirty - gone,
              deleted := a.deleted + gone);
  }

  /** An entry survives every rebuild exactly when fewer others than the limit are not older. */
  lemma SurvivesIff(text: Text, a: State, id: string)
    requires Keyed(a.details) && id in a.details
    ensures Survives(text, AllowedLimit(a.limit), a.details, id) <==>
            forall mid | Rebuilt(text, a, mid) :: id in mid.details
  {
    var limit := AllowedLimit(a.limit);
    forall mid | Rebuilt(text, a, mid) && id !in mid.details
      ensures !Survives(text, limit, a.details, id)
    {
      assert mid.details.Keys <= Ahead(text, a.details, id);
      Fewer(mid.details.Keys, Ahead(text, a.details, id));
    }
    if !Survives(text, limit, a.details, id) {
      var items, k := ListedLast(text, a.details, id);
      var mid := CutRebuilds(text, a, items);
      forall s | s in mid.items ensures s.id != id {
        var i :| 0 <= i < limit && items[..limit][i] == s;
        assert items[i].id != items[k].id;
      }
      assert id !in IdsOf(mid.items);
    }
  }

  // ---------------------------------------------------------------- operations

  /** Deleted, or an entry that a rebuild may evict. */
  predicate AtRisk(text: Text, s: State, id: string) {
    id in s.deleted || (id in s.details && !Survives(text, AllowedLimit(s.limit), s.details, id))
  }

  predicate Spares(text: Text, index: Option<File>, s: State) {
    forall id | id in Named(index) :: !AtRisk(text, s, id)
  }

  /** From any consistent state whose directory opens: however the save of an operation fails, the directory opens
      again, exactly when the operation spares every entry the index on disk names. */
  lemma FailedOperationReopensIff(text: Text, a: State, c: Change)
    requires Consistent(text, a) && Opens(a.index, a.files) && Allowed(text, a, c)
    ensures (forall b | Saved(text, Changed(a, c), b, false) :: Opens(b.index, b.files)) <==>
            Spares(text, a.index, Changed(a, c))
  {
    var m := Changed(a, c);
    ChangeKeepsReady(text, a, c);
    forall b | Saved(text, m, b, false) && Spares(text, a.index, m) ensures Opens(b.index, b.files) {
      var mid :| Rebuilt(text, m, mid) && Written(mid, b, false);
      RebuildDeletes(text, m, mid);
      forall id | id in Named(m.index) && id in m.details ensures id in mid.details {
        SurvivesIff(text, m, id);
      }
      FailedSaveReopensIff(mid);
    }
    if !Spares(text, a.index, m) {
      var id :| id in Named(a.index) && AtRisk(text, m, id);
      var mid := RebuildWithout(text, m, id);
      FailedSaveReopensIff(mid);
      var b :| Written(mid, b, false) && !Opens(b.index, b.files);
      assert Saved(text, m, b, false);
    }
  }

  lemma RebuildDeletes(text: Text, a: State, mid: State)
    requires Ready(text, a) && Rebuilt(text, a, mid)
    ensures mid.deleted == a.deleted + (a.details.Keys - mid.details.Keys)
  {
    CleanAreMarked(text, a.details.Keys - mid.details.Keys);
  }

  lemma RebuildWithout(text: Text, m: State, id: string) returns (mid: State)
    requires Ready(text, m) && AtRisk(text, m, id)
    ensures Rebuilt(text, m, mid) && id in mid.deleted
  {
    if id in m.deleted {
      var items := SortedList(text, m.details);
      mid := CutRebuilds(text, m, items);
    } else {
      SurvivesIff(text, m, id);
      mid :| Rebuilt(text, m, mid) && id !in mid.details;
    }
    RebuildDeletes(text, m, mid);
  }

  /** What a caller can check beforehand, when the last save succeeded. */
  ghost predicate Harmless(text: Text, a: State, c: Change) {
    match c
    case Record(e) => e.id in a.details || a.limit == 0 || |a.details| < a.limit ||
      forall other | other in a.details :: Before(SummaryOf(text, a.details[other]), SummaryOf(text, e))
    case Remove(ids, _) => ids == {}
    case Relimit(limit, _) => limit == 0 || |a.details| <= limit
  }

  /** After a successful save, an operation that fails can block the store exactly when it removes an entry: an
      update never does, a start only in a full history, a new limit only below the number of entries, a deletion
      or the clearing of a history that is not empty always. */
  lemma FlushedOperationReopensIff(text: Text, a: State, c: Change)
    requires Consistent(text, a) && Flushed(a) && Allowed(text, a, c)
    ensures (forall b | Saved(text, Changed(a, c), b, false) :: Opens(b.index, b.files)) <==> Harmless(text, a, c)
  {
    NamedWhenFlushed(text, a);
    FailedOperationReopensIff(text, a, c);
    ListsCounts(text, a.items, a.details);
    match c
    case Record(e) => RecordSparesIff(text, a, e);
    case Remove(ids, revision) => RemovalSparesIff(text, a, ids, revision);
    case Relimit(limit, revision) => LimitSparesIff(text, a, limit, revision);
  }

  lemma RecordSparesIff(text: Text, a: State, e: Entry)
    requires Indexed(text, a) && a.deleted == {} && Named(a.index) == a.details.Keys && |a.items| == |a.details|
    ensures Spares(text, a.index, WithEntry(a, e)) <==> Harmless(text, a, Record(e))
  {
    if e.id in a.details {
      assert a.details[e.id := e].Keys == a.details.Keys;
      FewSurvive(text, a.limit, a.details[e.id := e]);
    } else {
      StartSparesIff(text, a.limit, a.details, e, a.items);
    }
  }

  lemma RemovalSparesIff(text: Text, a: State, ids: set<string>, revision: Int64)
    requires Indexed(text, a) && a.deleted == {} && Named(a.index) == a.details.Keys && |a.items| == |a.details|
    requires ids <= a.details.Keys
    ensures Spares(text, a.index, Without(a, ids, revision)) <==> Harmless(text, a, Remove(ids, revision))
  {
    if ids == {} {
      assert a.details - ids == a.details;
      FewSurvive(text, a.limit, a.details);
    } else {
      var id :| id in ids;
      assert id in Named(a.index) && AtRisk(text, Without(a, ids, revision), id);
    }
  }

  lemma LimitSparesIff(text: Text, a: State, limit: int, revision: Int64)
    requires Indexed(text, a) && a.deleted == {} && Named(a.index) == a.details.Keys && |a.items| == |a.details|
    requires IsAllowedLimit(limit)
    ensures Spares(text, a.index, Changed(a, Relimit(limit, revision))) <==> Harmless(text, a, Relimit(limit, revision))
  {
    if limit == 0 || |a.details| <= limit {
      FewSurvive(text, limit, a.details);
    } else {
      var oldest := OldestIsLast(text, a.items, a.details);
      assert AtRisk(text, Changed(a, Relimit(limit, revision)), oldest);
    }
  }

  lemma StartSparesIff(text: Text, limit: int, details: map<string, Entry>, e: Entry, items: seq<Summary>)
    requires Lists(text, items, details) && Sorted(items) && e.id !in details && (limit != 0 ==> |details| <= limit)
    requires limit >= 0
    ensures (forall id | id in details :: Survives(text, limit, details[e.id := e], id)) <==>
            limit == 0 || |details| < limit ||
            forall other | other in details :: Before(SummaryOf(text, details[other]), SummaryOf(text, e))
  {
    if limit == 0 || |details| < limit {
      FewSurvive(text, limit, details[e.id := e]);
    } else {
      ListsCounts(text, items, details);
      var oldest := OldestIsLast(text, items, details);
      NewcomerEvictsIff(text, details, e, limit, oldest);
    }
  }

  lemma NamedWhenFlushed(text: Text, a: State)
    requires Consistent(text, a) && Flushed(a)
    ensures Named(a.index) == a.details.Keys && Opens(a.index, a.files)
  {
    forall id | id in a.details ensures id in a.files {
      assert OnDisk(a, id);
    }
  }

  lemma FewSurvive(text: Text, limit: int, details: map<string, Entry>)
    requires limit == 0 || |details| <= limit
    ensures forall id | id in details :: Survives(text, limit, details, id)
  {
    forall id | id in details ensures Survives(text, limit, details, id) {
      Fewer(Ahead(text, details, id), details.Keys - {id});
    }
  }

  /** The last entry of a sorted list is newer than none. */
  lemma OldestIsLast(text: Text, items: seq<Summary>, details: map<string, Entry>) returns (oldest: string)
    requires Lists(text, items, details) && Sorted(items) && items != []
    ensures oldest in details && forall other | other in details :: !Newer(text, details, oldest, other)
    ensures Ahead(text, details, oldest) == details.Keys - {oldest}
    ensures |Ahead(text, details, oldest)| == |details| - 1
  {
    var last := items[|items| - 1];
    assert last in items;
    oldest := last.id;
    forall other | other in details ensures !Newer(text, details, oldest, other) {
      var i := PlaceOf(items, other);
      assert items[i] in items;
    }
  }

  /** A new entry in a full history leaves all the old ones in place exactly when all of them are newer. */
  lemma NewcomerEvictsIff(text: Text, details: map<string, Entry>, e: Entry, limit: int, oldest: string)
    requires e.id !in details && |details| == limit > 0 && oldest in details
    requires forall other | other in details :: !Newer(text, details, oldest, other)
    ensures (forall id | id in details :: Survives(text, limit, details[e.id := e], id)) <==>
            (forall other | other in details :: Before(SummaryOf(text, details[other]), SummaryOf(text, e)))
  {
    var more := details[e.id := e];
    if forall other | other in details :: Before(SummaryOf(text, details[other]), SummaryOf(text, e)) {
      forall id | id in details ensures Survives(text, limit, more, id) {
        assert Newer(text, more, id, e.id);
        Fewer(Ahead(text, more, id), details.Keys - {id});
      }
    } else {
      var other :| other in details && !Before(SummaryOf(text, details[other]), SummaryOf(text, e));
      assert !Newer(text, details, oldest, other);
      OldestIsEvicted(text, details, e, oldest);
    }
  }

  lemma OldestIsEvicted(text: Text, details: map<string, Entry>, e: Entry, oldest: string)
    requires e.id !in details && oldest in details
    requires forall other | other in details :: !Newer(text, details, oldest, other)
    requires !Before(SummaryOf(text, details[oldest]), SummaryOf(text, e))
    ensures |Ahead(text, details[e.id := e], oldest)| == |details|
  {
    var more := details[e.id := e];
    forall other | other in more ensures !Newer(text, more, oldest, other) {
      assert other in details ==> !Newer(text, details, oldest, other);
    }
    assert Ahead(text, more, oldest) == more.Keys - {oldest};
    assert more.Keys == details.Keys + {e.id};
  }

  /** An operation whose save succeeds, or which spares every entry the index names. */
  ghost predicate OperatesSafely(text: Text, a: State, b: State) {
    b == a || exists c, now, ok :: Mutates(text, a, b, c, now, ok) && (ok || Spares(text, a.index, Changed(a, c)))
  }

  /** Through every sequence of such operations the directory can be opened at any time. */
  lemma {:induction false} RunKeepsOpening(text: Text, states: seq<State>, i: nat)
    requires i < |states| && Consistent(text, states[0]) && Opens(states[0].index, states[0].files)
    requires forall k | 0 < k < |states| :: OperatesSafely(text, states[k - 1], states[k])
    ensures Consistent(text, states[i]) && Opens(states[i].index, states[i].files)
    decreases i
  {
    if i > 0 {
      RunKeepsOpening(text, states, i - 1);
      SafeOperationKeepsOpening(text, states[i - 1], states[i]);
    }
  }

  lemma SafeOperationKeepsOpening(text: Text, a: State, b: State)
    requires Consistent(text, a) && Opens(a.index, a.files) && OperatesSafely(text, a, b)
    ensures Consistent(text, b) && Opens(b.index, b.files)
  {
    if b != a {
      var c, now, ok :| Mutates(text, a, b, c, now, ok) && (ok || Spares(text, a.index, Changed(a, c)));
      MutationKeepsConsistent(text, a, b, c, now, ok);
      if ok {
        NamedWhenFlushed(text, b);
      } else {
        FailedOperationReopensIff(text, a, c);
      }
    }
  }

  // ---------------------------------------------------------------- an input that fails

  const EMPTY := State(20, 0, [], map[], {}, {}, map[], Some(File(20, 0, [])), {})

  /** The index that lists one entry. */
  function Listing(e: Entry): Option<File> {
    Some(File(20, 1, [SummaryOf(ASCII, e)]))
  }

  function Holding(e: Entry): State {
    State(20, 1, [SummaryOf(ASCII, e)], map["a" := e], {}, {}, map["a" := e], Listing(e), {})
  }

  function Blocked(e: Entry): State {
    State(20, 2, [], map[], {}, {"a"}, map[], Listing(e), {})
  }

  /** An empty directory, one entry started and saved, and its deletion when the index cannot be written. */
  lemma DeletionBlocksTheStore(params: StartParams, millis: int)
    ensures var e := Started(ASCII, "a", params, 1, millis);
      && Consistent(ASCII, EMPTY) && Flushed(EMPTY) && Flushed(Holding(e))
      && Operates(ASCII, EMPTY, Holding(e)) && Operates(ASCII, Holding(e), Blocked(e))
      && IsDirectory(ASCII, Blocked(e).index, Blocked(e).files) && !Opens(Blocked(e).index, Blocked(e).files)
  {
    EmptyIsFlushed();
    BlockedRun(Started(ASCII, "a", params, 1, millis));
  }

  lemma EmptyIsFlushed()
    ensures Consistent(ASCII, EMPTY) && Flushed(EMPTY)
  {
    assert EMPTY.details == map[];
  }

  lemma BlockedRun(e: Entry)
    requires e.id == "a" && e.revision == 1
    ensures Flushed(Holding(e)) && Operates(ASCII, EMPTY, Holding(e)) && Operates(ASCII, Holding(e), Blocked(e))
    ensures IsDirectory(ASCII, Blocked(e).index, Blocked(e).files) && !Opens(Blocked(e).index, Blocked(e).files)
  {
    StartIsSaved(e);
    DeletionFails(e);
    TrimsToA();
    DoesNotOpen(Listing(e), e);
  }

  lemma DoesNotOpen(index: Option<File>, e: Entry)
    requires index.Some? && index.value.items == [SummaryOf(ASCII, e)] && e.id == "a" && Clean(ASCII, "a")
    ensures IsDirectory(ASCII, index, map[]) && !Opens(index, map[])
  {
    assert SummaryOf(ASCII, e) in index.value.items;
    assert Named(index) == {"a"};
  }

  lemma StartIsSaved(e: Entry)
    requires e.id == "a" && e.revision == 1
    ensures Operates(ASCII, EMPTY, Holding(e)) && Flushed(Holding(e))
  {
    var m := Changed(EMPTY, Record(e));
    var mid := m.(items := [SummaryOf(ASCII, e)]);
    ItIsRebuilt(e, m, mid);
    assert m.files + Only(m.details, {"a"}) == map["a" := e];
    assert Written(mid, Holding(e), true);
    assert Mutates(ASCII, EMPTY, Holding(e), Record(e), 1, true);
  }

  lemma ItIsRebuilt(e: Entry, m: State, mid: State)
    requires e.id == "a" && m.details == map["a" := e] && m.limit == 20 && mid == m.(items := [SummaryOf(ASCII, e)])
    ensures Clean(ASCII, "a") && Rebuilt(ASCII, m, mid)
  {
    TrimsToA();
    assert SummaryOf(ASCII, e) in mid.items && |m.details| == 1;
    assert Marked(ASCII, m.details.Keys - mid.details.Keys) == {};
  }

  lemma DeletionFails(e: Entry)
    requires e.id == "a"
    ensures Operates(ASCII, Holding(e), Blocked(e))
  {
    var a, b := Holding(e), Blocked(e);
    var m := Changed(a, Remove({"a"}, 2));
    assert m.details == map[] && Marked(ASCII, {}) == {};
    var mid := m.(items := []);
    assert Rebuilt(ASCII, m, mid);
    assert WriteFiles(m.files, m.details, {}, {"a"}) == map[];
    assert MaybeWritten(mid.files, b.files, mid.details, mid.dirty, mid.deleted, {}, {"a"});
    assert Written(mid, b, false);
    assert Mutates(ASCII, a, b, Remove({"a"}, 2), 2, false);
  }
}
