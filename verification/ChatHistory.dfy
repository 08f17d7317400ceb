/** The write-back chat history of internal/chathistory/store.go: entries in memory, an index of summaries,
    and a directory of detail files that every operation tries to bring up to date. */
module ChatHistory {

  import opened Basics
  import FoldText

  datatype Result<T> = Ok(value: T) | Err(error: Error)

  datatype Error = NotLoaded | Disabled | IdRequired | NotFound | BadLimit | NotSaved

  // What a request records when it starts; the entry keeps it unchanged.
  datatype StartParams = StartParams(
    callerID: string, userAgent: string, accountID: string, surface: string, model: string, stream: bool,
    userInput: string, messages: seq<(string, string)>, historyText: string, finalPrompt: string)

  datatype UpdateParams = UpdateParams(
    status: string, reasoningContent: string, content: string, error: string, statusCode: int, elapsedMs: int,
    finishReason: string, usage: Option<map<string, int>>, completed: bool)

  datatype Entry = Entry(
    id: string, revision: Int64, createdAt: int, updatedAt: int, completedAt: int, status: string, start: StartParams,
    reasoningContent: string, content: string, error: string, statusCode: int, elapsedMs: int, finishReason: string,
    usage: Option<map<string, int>>)

  datatype Summary = Summary(
    id: string, revision: Int64, createdAt: int, updatedAt: int, completedAt: int, status: string, start: StartParams,
    preview: string, statusCode: int, elapsedMs: int, finishReason: string)

  datatype File = File(limit: int, revision: Int64, items: seq<Summary>)

  // strings.TrimSpace and buildPreview.
  datatype Text = Text(trim: string -> string, preview: Entry -> string)

  const DEFAULT_LIMIT := 20

  predicate IsAllowedLimit(limit: int) {
    limit == 0 || limit == 10 || limit == 20 || limit == 50
  }

  /** An identifier the trimming in the mark functions leaves alone. */
  predicate Clean(text: Text, id: string) {
    id != "" && text.trim(id) == id
  }

  function SummaryOf(text: Text, e: Entry): Summary {
    Summary(e.id, e.revision, e.createdAt, e.updatedAt, e.completedAt, e.status, e.start, text.preview(e), e.statusCode,
            e.elapsedMs, e.finishReason)
  }

  /** Newer first: by creation, then revision, then update. */
  predicate Before(a: Summary, b: Summary) {
    a.createdAt > b.createdAt ||
    (a.createdAt == b.createdAt && (a.revision > b.revision || (a.revision == b.revision && a.updatedAt > b.updatedAt)))
  }

  ghost predicate Sorted(items: seq<Summary>) {
    forall i, j | 0 <= i < j < |items| :: !Before(items[j], items[i])
  }

  function IdsOf(items: seq<Summary>): set<string> {
    set s | s in items :: s.id
  }

  ghost predicate Distinct(items: seq<Summary>) {
    forall i, j | 0 <= i < j < |items| :: items[i].id != items[j].id
  }

  /** The items are exactly the summaries of the entries, one each. */
  ghost predicate Lists(text: Text, items: seq<Summary>, details: map<string, Entry>) {
    && (forall s | s in items :: s.id in details && s == SummaryOf(text, details[s.id]))
    && IdsOf(items) == details.Keys && Distinct(items)
  }

  ghost predicate Keyed(details: map<string, Entry>) {
    forall id | id in details :: details[id].id == id
  }

  ghost predicate AllClean(text: Text, ids: set<string>) {
    forall id | id in ids :: Clean(text, id)
  }

  /** The identifiers as the mark functions store them. */
  function Marked(text: Text, ids: set<string>): set<string> {
    set id | id in ids && text.trim(id) != "" :: text.trim(id)
  }

  lemma CleanAreMarked(text: Text, ids: set<string>)
    requires AllClean(text, ids)
    ensures Marked(text, ids) == ids
  {
    forall id | id in ids ensures id in Marked(text, ids) {
      assert text.trim(id) == id;
    }
  }

  // ---------------------------------------------------------------- sorting

  function Insert(items: seq<Summary>, s: Summary): seq<Summary> {
    if items == [] then [s]
    else if Before(s, items[0]) then [s] + items
    else [items[0]] + Insert(items[1..], s)
  }

  /** Where the new summary lands; the others keep their order. */
  lemma {:induction false} InsertPlaces(items: seq<Summary>, s: Summary) returns (k: nat)
    ensures k <= |items| && Insert(items, s) == items[..k] + [s] + items[k..]
    ensures forall i | 0 <= i < k :: !Before(s, items[i])
    ensures k < |items| ==> Before(s, items[k])
  {
    k := 0;
    if items != [] && !Before(s, items[0]) {
      var first, rest := items[0], items[1..];
      var j := InsertPlaces(rest, s);
      k := j + 1;
      assert [first] + (rest[..j] + [s] + rest[j..]) == items[..k] + [s] + items[k..];
      forall i | 0 <= i < k ensures !Before(s, items[i]) {
        assert i > 0 ==> items[i] == rest[i - 1];
      }
    }
  }

  lemma InsertKeepsSorted(items: seq<Summary>, s: Summary)
    requires Sorted(items)
    ensures Sorted(Insert(items, s))
  {
    var k := InsertPlaces(items, s);
    var r := Insert(items, s);
    forall i, j | 0 <= i < j < |r| ensures !Before(r[j], r[i]) {
      if k < j && i == k {
        assert !Before(items[j - 1], items[k]) || j - 1 == k;
      }
    }
  }

  lemma InsertMembers(items: seq<Summary>, s: Summary)
    ensures forall t :: t in Insert(items, s) <==> t in items || t == s
  {
    var k := InsertPlaces(items, s);
    var r := Insert(items, s);
    assert items == items[..k] + items[k..];
    forall t ensures t in r <==> t in items || t == s {
      assert t in r <==> t in items[..k] || t == s || t in items[k..];
      assert t in items <==> t in items[..k] || t in items[k..];
    }
  }

  lemma InsertIds(items: seq<Summary>, s: Summary)
    ensures IdsOf(Insert(items, s)) == IdsOf(items) + {s.id}
  {
    InsertMembers(items, s);
    assert s in Insert(items, s);
  }

  lemma InsertDistinct(items: seq<Summary>, s: Summary)
    requires Distinct(items) && s.id !in IdsOf(items)
    ensures Distinct(Insert(items, s))
  {
    var k := InsertPlaces(items, s);
    forall i | 0 <= i < |items| ensures items[i].id != s.id {
      assert items[i] in items;
    }
  }

  lemma InsertLists(text: Text, items: seq<Summary>, details: map<string, Entry>, id: string, e: Entry)
    requires Lists(text, items, details) && id !in details && e.id == id
    ensures Lists(text, Insert(items, SummaryOf(text, e)), details[id := e])
  {
    var s := SummaryOf(text, e);
    InsertMembers(items, s);
    InsertIds(items, s);
    InsertDistinct(items, s);
  }

  function Only(details: map<string, Entry>, ids: set<string>): map<string, Entry> {
    map id | id in details && id in ids :: details[id]
  }

  lemma OneMore(details: map<string, Entry>, todo: set<string>, id: string)
    requires id in todo && todo <= details.Keys
    ensures Only(details, details.Keys - (todo - {id})) == Only(details, details.Keys - todo)[id := details[id]]
    ensures id !in Only(details, details.Keys - todo)
  {
  }

  // ---------------------------------------------------------------- the index

  /** What rebuilding the index leaves of the entries: the newest ones within the limit. */
  ghost predicate KeepsNewest(text: Text, limit: int, details: map<string, Entry>, kept: map<string, Entry>) {
    && kept.Keys <= details.Keys && (forall id | id in kept :: kept[id] == details[id])
    && (limit == 0 || |details| <= limit ==> kept == details)
    && (limit != 0 && |details| > limit ==> |kept| == limit)
    && (forall id, other | id in kept && other in details && other !in kept ::
          !Before(SummaryOf(text, details[other]), SummaryOf(text, details[id])))
  }

  /** time.Now().UnixNano(), or one more than the last revision; the addition wraps. */
  function NextRevision(revision: Int64, now: Int64): Int64 {
    if now > revision then now else if revision == MAX_INT64 then -0x8000_0000_0000_0000 else revision + 1
  }

  /** The revision strictly increases except at the end of the 64-bit range. */
  lemma RevisionIncreasesIff(revision: Int64, now: Int64)
    ensures NextRevision(revision, now) > revision <==> revision < MAX_INT64
  {
  }

  /** The entry after an update. */
  function Updated(text: Text, e: Entry, p: UpdateParams, revision: Int64, now: int): Entry {
    e.(revision := revision, updatedAt := now,
       status := if p.status != "" then p.status else e.status,
       reasoningContent := if p.reasoningContent != "" || e.reasoningContent == "" then p.reasoningContent
         else e.reasoningContent,
       content := if p.content != "" || e.content == "" then p.content else e.content,
       error := text.trim(p.error), statusCode := p.statusCode, elapsedMs := p.elapsedMs,
       finishReason := text.trim(p.finishReason),
       usage := if p.usage.Some? then p.usage else e.usage,
       completedAt := if p.completed then now else e.completedAt)
  }

  function Started(text: Text, id: string, p: StartParams, revision: Int64, now: int): Entry {
    Entry(id, revision, now, now, 0, "streaming",
          p.(callerID := text.trim(p.callerID), userAgent := text.trim(p.userAgent),
            accountID := text.trim(p.accountID),
             surface := text.trim(p.surface), model := text.trim(p.model), userInput := text.trim(p.userInput),
             finalPrompt := text.trim(p.finalPrompt)),
          "", "", "", 0, 0, "", None)
  }

  // ---------------------------------------------------------------- the store

  /** The store and its directory at one moment: detail files by identifier, and the index file. The stray files
      are those that were there before the store opened and that its index does not name. */
  datatype State = State(
    limit: int, revision: Int64, items: seq<Summary>, details: map<string, Entry>, dirty: set<string>,
      deleted: set<string>,
    files: map<string, Entry>, index: Option<File>, stray: set<string>)

  /** The file of the identifier holds its detail; without a detail there is none, but for a stray one. */
  ghost predicate OnDisk(s: State, id: string) {
    if id in s.details then id in s.files && s.files[id] == s.details[id] else id in s.files ==> id in s.stray
  }

  /** Every detail that is neither dirty nor deleted is on disk exactly as in memory. */
  ghost predicate Synced(s: State) {
    && s.dirty <= s.details.Keys && s.deleted !! s.details.Keys
    && forall id | id !in s.dirty && id !in s.deleted :: OnDisk(s, id)
  }

  /** The index is the sorted list of all details, within the limit. */
  ghost predicate Indexed(text: Text, s: State) {
    IsAllowedLimit(s.limit) && Lists(text, s.items, s.details) && Sorted(s.items) &&
      (s.limit != 0 ==> |s.items| <= s.limit)
  }

  ghost predicate Consistent(text: Text, s: State) {
    Keyed(s.details) && AllClean(text, s.details.Keys) && Synced(s) && Indexed(text, s)
  }

  /** The directory holds exactly what is in memory, but for stray files. */
  ghost predicate Flushed(s: State) {
    s.index == Some(File(s.limit, s.revision, s.items)) && s.dirty == {} && s.deleted == {} &&
      forall id :: OnDisk(s, id)
  }

  function AllowedLimit(limit: int): int {
    if IsAllowedLimit(limit) then limit else DEFAULT_LIMIT
  }

  /** rebuildIndexLocked: the newest entries stay, the others become deleted. */
  ghost predicate Rebuilt(text: Text, a: State, b: State) {
    && Keyed(b.details) && Indexed(text, b) && KeepsNewest(text, b.limit, a.details, b.details) && Remarked(text, a, b)
  }

  ghost predicate Remarked(text: Text, a: State, b: State) {
    && b.limit == AllowedLimit(a.limit) && b.details.Keys <= a.details.Keys
    && b.dirty == a.dirty - Marked(text, a.details.Keys - b.details.Keys)
    && b.deleted == a.deleted + Marked(text, a.details.Keys - b.details.Keys)
    && b.revision == a.revision && b.files == a.files && b.index == a.index && b.stray == a.stray
  }

  /** Writing the pending changes: all of them and the index, or some of them. */
  ghost predicate Written(a: State, b: State, ok: bool) {
    if ok then
      b == a.(files := WriteFiles(a.files, a.details, a.dirty, a.deleted),
        index := Some(File(a.limit, a.revision, a.items)),
              dirty := {}, deleted := {})
    else
      b == a.(files := b.files) && PartlyWritten(a.files, b.files, a.details, a.dirty, a.deleted)
  }

  /** saveLocked. */
  ghost predicate Saved(text: Text, a: State, b: State, ok: bool) {
    exists mid :: Rebuilt(text, a, mid) && Written(mid, b, ok)
  }

  function WriteFiles(files: map<string, Entry>, details: map<string, Entry>, dirty: set<string>,
                      deleted: set<string>): map<string, Entry> {
    files - deleted + Only(details, dirty)
  }

  /** Some removals, or all of them and some writes, were done. */
  ghost predicate PartlyWritten(before: map<string, Entry>, files: map<string, Entry>, details: map<string, Entry>,
                                dirty: set<string>, deleted: set<string>) {
    exists done, gone :: MaybeWritten(before, files, details, dirty, deleted, done, gone)
  }

  predicate MaybeWritten(before: map<string, Entry>, files: map<string, Entry>, details: map<string, Entry>,
                         dirty: set<string>, deleted: set<string>, done: set<string>, gone: set<string>) {
    done <= dirty && gone <= deleted && (done != {} ==> gone == deleted) &&
      files == WriteFiles(before, details, done, gone)
  }

  // ---------------------------------------------------------------- what the operations change before they save

  function WithEntry(s: State, e: Entry): State {
    s.(details := s.details[e.id := e], dirty := s.dirty + {e.id}, deleted := s.deleted - {e.id},
      revision := e.revision)
  }

  function Without(s: State, ids: set<string>, revision: Int64): State {
    s.(details := s.details - ids, dirty := s.dirty - ids, deleted := s.deleted + ids, revision := revision)
  }

  function Named(index: Option<File>): set<string> {
    if index.Some? then IdsOf(index.value.items) else {}
  }

  /** What the index names is as the store writes it; a named file may be missing, and others may be there. */
  ghost predicate IsDirectory(text: Text, index: Option<File>, files: map<string, Entry>) {
    AllClean(text, Named(index)) && forall id | id in Named(index) && id in files :: files[id].id == id
  }

  /** No named file is missing. */
  ghost predicate Opens(index: Option<File>, files: map<string, Entry>) {
    Named(index) <= files.Keys
  }

  class Store {
    const text: Text
    var limit: int
    var revision: Int64
    var items: seq<Summary>
    var details: map<string, Entry>
    var dirty: set<string>
    var deleted: set<string>
    var files: map<string, Entry>
    var index: Option<File>
    var failed: bool                   // loading left an error, which every operation returns
    ghost const stray: set<string>

    ghost function Now(): State
      reads this
    {
      State(limit, revision, items, details, dirty, deleted, files, index, stray)
    }

    /** Opens a directory: reads the details the index names, then rebuilds and rewrites what it can. */
    constructor Open(text: Text, index: Option<File>, files: map<string, Entry>)
      requires IsDirectory(text, index, files)
      ensures this.text == text && stray == files.Keys - Named(index)
      ensures failed <==> !Opens(index, files)
      ensures failed ==> this.files == files && this.index == index
      ensures !failed ==> Consistent(text, Now()) && KeepsNewest(text, limit, Only(files, Named(index)), details)
      ensures !failed ==> limit == AllowedLimit(if index.Some? then index.value.limit else DEFAULT_LIMIT)
      ensures !failed ==> revision == if index.Some? then index.value.revision else 0
    {
      this.text := text;
      limit := if index.Some? then index.value.limit else DEFAULT_LIMIT;
      revision := if index.Some? then index.value.revision else 0;
      items := [];
      details := map[];
      dirty := {};
      deleted := {};
      this.files := files;
      this.index := index;
      failed := false;
      stray := files.Keys - Named(index);
      new;
      if index.Some? {
        var ok := ReadDetails(index.value.items);
        if !ok {
          failed := true;
          return;
        }
      }
      assert details == Only(files, Named(index));
      var _ := RebuildAndSave();
    }

    method ReadDetails(listed: seq<Summary>) returns (ok: bool)
      requires details == map[]
      modifies this`details
      ensures ok <==> IdsOf(listed) <= files.Keys
      ensures ok ==> details == Only(files, IdsOf(listed))
    {
      for i := 0 to |listed|
        invariant IdsOf(listed[..i]) <= files.Keys && details == Only(files, IdsOf(listed[..i]))
      {
        assert listed[..i + 1] == listed[..i] + [listed[i]] && listed[i] in listed;
        MoreIds(listed[..i], listed[i]);
        if listed[i].id !in files {
          return false;
        }
        details := details[listed[i].id := files[listed[i].id]];
      }
      assert listed[..|listed|] == listed;
      return true;
    }

    method MarkDetailDirty(id: string)
      modifies this`dirty, this`deleted
      ensures text.trim(id) != "" ==> dirty == old(dirty) + {text.trim(id)} && deleted == old(deleted) - {text.trim(id)}
      ensures text.trim(id) == "" ==> dirty == old(dirty) && deleted == old(deleted)
    {
      var key := text.trim(id);
      if key == "" {
        return;
      }
      dirty := dirty + {key};
      deleted := deleted - {key};
    }

    method MarkDetailDeleted(id: string)
      modifies this`dirty, this`deleted
      ensures text.trim(id) != "" ==> deleted == old(deleted) + {text.trim(id)} && dirty == old(dirty) - {text.trim(id)}
      ensures text.trim(id) == "" ==> dirty == old(dirty) && deleted == old(deleted)
    {
      var key := text.trim(id);
      if key == "" {
        return;
      }
      deleted := deleted + {key};
      dirty := dirty - {key};
    }

    method SortSummaries() returns (sorted: seq<Summary>)
      requires Keyed(details)
      ensures Sorted(sorted) && Lists(text, sorted, details)
    {
      sorted := [];
      var todo := details.Keys;
      while todo != {}
        invariant todo <= details.Keys && Sorted(sorted) && Lists(text, sorted, Only(details, details.Keys - todo))
        decreases |todo|
      {
        var id :| id in todo;
        var s := SummaryOf(text, details[id]);
        OneMore(details, todo, id);
        InsertKeepsSorted(sorted, s);
        InsertLists(text, sorted, Only(details, details.Keys - todo), id, details[id]);
        sorted := Insert(sorted, s);
        todo := todo - {id};
      }
      assert Only(details, details.Keys) == details;
    }

    method RebuildIndex()
      requires Keyed(details)
      modifies this`limit, this`items, this`details, this`dirty, this`deleted
      ensures Rebuilt(text, old(Now()), Now())
    {
      var summaries := SortSummaries();
      limit := AllowedLimit(limit);
      items := CutToLimit(summaries);
      CutIsRebuilt(text, old(Now()), Now());
    }

    method CutToLimit(summaries: seq<Summary>) returns (kept: seq<Summary>)
      requires Keyed(details) && Lists(text, summaries, details) && Sorted(summaries) && IsAllowedLimit(limit)
      modifies this`details, this`dirty, this`deleted
      ensures Keyed(details) && Lists(text, kept, details) && Sorted(kept) && (limit != 0 ==> |kept| <= limit)
      ensures KeepsNewest(text, limit, old(details), details)
      ensures dirty == old(dirty) - Marked(text, old(details).Keys - details.Keys)
      ensures deleted == old(deleted) + Marked(text, old(details).Keys - details.Keys)
    {
      kept := summaries;
      if limit != 0 && |summaries| > limit {
        KeptAreNewest(text, summaries, details, limit);
        kept := summaries[..limit];
        Evict(IdsOf(kept));
      } else {
        AllAreKept(text, summaries, details, limit);
        NothingMarked(text, details.Keys);
      }
    }

    /** Drops every detail that is not kept. */
    method Evict(keep: set<string>)
      modifies this`details, this`dirty, this`deleted
      ensures details == Only(old(details), keep)
      ensures var evicted := old(details).Keys - details.Keys;
        dirty == old(dirty) - Marked(text, evicted) && deleted == old(deleted) + Marked(text, evicted)
    {
      var todo := details.Keys - keep;
      ghost var gone: set<string> := {};
      while todo != {}
        invariant todo + gone == old(details).Keys - keep && todo !! gone
        invariant details == Only(old(details), old(details).Keys - gone)
        invariant dirty == old(dirty) - Marked(text, gone) && deleted == old(deleted) + Marked(text, gone)
        decreases |todo|
      {
        var id :| id in todo;
        EvictOne(gone, id);
        EvictedOneMore(old(details), gone, id);
        todo := todo - {id};
        gone := gone + {id};
      }
      EvictedAll(old(details), keep);
    }

    method EvictOne(ghost gone: set<string>, id: string)
      modifies this`details, this`dirty, this`deleted
      ensures details == old(details) - {id}
      ensures forall d: set<string> | old(dirty) == d - Marked(text, gone) :: dirty == d - Marked(text, gone + {id})
      ensures forall d: set<string> | old(deleted) == d + Marked(text, gone) :: deleted == d + Marked(text, gone + {id})
    {
      MarkOneMore(text, gone, id);
      MarkDetailDeleted(id);
      details := details - {id};
    }

    /** Removes and writes the pending details, then the index. Every disk operation may fail. */
    method SaveLocked() returns (ok: bool)
      requires Keyed(details)
      modifies this
      ensures failed == old(failed)
      ensures Saved(text, old(Now()), Now(), ok)
    {
      RebuildIndex();
      ok := SavePending();
    }

    method SavePending() returns (ok: bool)
      modifies this`files, this`index, this`dirty, this`deleted
      ensures Written(old(Now()), Now(), ok)
    {
      ok := FlushDetails();
      if !ok {
        return;
      }
      ghost var before := files;
      ok := *;
      if !ok {
        AllWritten(old(files), details, dirty, deleted);
        return;                                        // the index could not be written
      }
      index := Some(File(limit, revision, items));
      dirty := {};
      deleted := {};
    }

    method FlushDetails() returns (ok: bool)
      modifies this`files
      ensures PartlyWritten(old(files), files, details, dirty, deleted)
      ensures ok ==> files == WriteFiles(old(files), details, dirty, deleted)
    {
      ghost var gone, done: set<string> := {}, {};
      NothingWritten(files, details);
      assert MaybeWritten(files, files, details, dirty, deleted, done, gone);
      ok := *;
      if !ok {
        return;                                        // the directory could not be made
      }
      ok, gone := RemoveDetails();
      NothingAdded(old(files), details, gone);
      assert MaybeWritten(old(files), files, details, dirty, deleted, {}, gone);
      if !ok {
        return;
      }
      ok, done := WriteDetails();
      assert MaybeWritten(old(files), files, details, dirty, deleted, done, deleted);
    }

    method RemoveDetails() returns (ok: bool, ghost gone: set<string>)
      modifies this`files
      ensures gone <= deleted && files == old(files) - gone && (ok ==> gone == deleted)
    {
      var todo := deleted;
      gone := {};
      while todo != {}
        invariant todo + gone == deleted && files == old(files) - gone
        decreases |todo|
      {
        var id :| id in todo;
        ok := *;
        if !ok {
          return;
        }
        files := files - {id};
        todo := todo - {id};
        gone := gone + {id};
      }
      ok := true;
    }

    method WriteDetails() returns (ok: bool, ghost done: set<string>)
      modifies this`files
      ensures done <= dirty && files == old(files) + Only(details, done) && (ok ==> done == dirty)
    {
      var todo := dirty;
      done := {};
      assert files == old(files) + Only(details, done);
      while todo != {}
        invariant todo + done == dirty && files == old(files) + Only(details, done)
        decreases |todo|
      {
        var id :| id in todo;
        if id in details {
          ok := *;
          if !ok {
            return;
          }
          files := files[id := details[id]];
        }
        todo := todo - {id};
        done := done + {id};
      }
      ok := true;
    }

    /** The end of every operation. */
    method RebuildAndSave() returns (ok: bool)
      requires Ready(text, Now())
      modifies this
      ensures failed == old(failed)
      ensures Saved(text, old(Now()), Now(), ok) && Consistent(text, Now()) && (ok ==> Flushed(Now()))
    {
      RebuildIndex();
      ghost var rebuilt := Now();
      ok := SaveLocked();
      SavedTwice(text, old(Now()), rebuilt, Now(), ok);
      SaveKeepsConsistent(text, old(Now()), Now(), ok);
    }

    method NextRevisionLocked(now: Int64) returns (next: Int64)
      modifies this`revision
      ensures next == revision == NextRevision(old(revision), now)
    {
      next := now;
      if next <= revision {
        next := if revision == MAX_INT64 then -0x8000_0000_0000_0000 else revision + 1;
      }
      revision := next;
    }

    /** Migrates a file of the old format, whose identifiers were never trimmed. The details in memory are the
        newest of those in the file; which of them reach the disk is told by LegacyWritten. */
    method LoadLegacy(legacy: seq<Entry>, legacyLimit: int, clock: Int64) returns (ok: bool)
      requires details == map[] && dirty == {} && deleted == {} && stray == files.Keys && Idempotent(text)
      modifies this
      ensures failed == old(failed) && Keyed(details) && Indexed(text, Now()) && limit == AllowedLimit(legacyLimit)
      ensures revision == HighestRevision(text, legacy, clock)
      ensures KeepsNewest(text, limit, Loaded(text, legacy, clock), details)
      ensures ok ==> forall id | id in details ::
        OnDisk(Now(), id) <==> LegacyWritten(text, Loaded(text, legacy, clock), old(files), details, id)
      ensures ok ==> (Flushed(Now()) <==>
        forall id | id in details :: LegacyWritten(text, Loaded(text, legacy, clock), old(files), details, id))
    {
      ReadLegacy(legacy, legacyLimit, clock);
      ghost var loaded := Now();
      ok := RebuildAndSaveLegacy();
      LegacyIndexed(text, loaded, Now(), ok);
      if ok {
        LegacySaved(text, loaded, Now());
      }
    }

    method ReadLegacy(legacy: seq<Entry>, legacyLimit: int, clock: Int64)
      requires details == map[] && dirty == {} && deleted == {}
      modifies this`details, this`dirty, this`deleted, this`limit, this`revision
      ensures details == Loaded(text, legacy, clock) && Keyed(details) &&
        forall id | id in details :: text.trim(id) != ""
      ensures dirty == Marked(text, details.Keys) && deleted == {}
      ensures limit == AllowedLimit(legacyLimit) && revision == HighestRevision(text, legacy, clock)
    {
      limit := AllowedLimit(legacyLimit);
      revision := 0;
      assert legacy[..0] == [];
      for i := 0 to |legacy|
        invariant details == Loaded(text, legacy[..i], clock) && revision == HighestRevision(text, legacy[..i], clock)
        invariant Keyed(details) && forall id | id in details :: text.trim(id) != ""
        invariant dirty == Marked(text, details.Keys) && deleted == {} && limit == AllowedLimit(legacyLimit)
      {
        assert legacy[..i + 1] == legacy[..i] + [legacy[i]] && legacy[..i + 1][..i] == legacy[..i];
        if text.trim(legacy[i].id) != "" {
          AddLegacy(Migrated(legacy[i], clock));
        }
      }
      assert legacy[..|legacy|] == legacy;
    }

    method AddLegacy(item: Entry)
      requires text.trim(item.id) != "" && dirty == Marked(text, details.Keys) && deleted == {}
      modifies this`details, this`dirty, this`deleted, this`revision
      ensures details == old(details)[item.id := item] && dirty == Marked(text, details.Keys) && deleted == {}
      ensures revision == if item.revision > old(revision) then item.revision else old(revision)
    {
      if item.revision > revision {
        revision := item.revision;
      }
      MarkOneMore(text, details.Keys, item.id);
      assert details[item.id := item].Keys == details.Keys + {item.id};
      details := details[item.id := item];
      MarkDetailDirty(item.id);
    }

    method RebuildAndSaveLegacy() returns (ok: bool)
      requires Keyed(details)
      modifies this
      ensures failed == old(failed)
      ensures Saved(text, old(Now()), Now(), ok)
    {
      RebuildIndex();
      ghost var rebuilt := Now();
      ok := SaveLocked();
      SavedTwice(text, old(Now()), rebuilt, Now(), ok);
    }

    method Put(e: Entry)
      requires Ready(text, Now()) && Clean(text, e.id) && e.revision == revision
      modifies this`details, this`dirty, this`deleted
      ensures Now() == WithEntry(old(Now()), e) && Ready(text, Now())
    {
      details := details[e.id := e];
      MarkDetailDirty(e.id);
      WithEntryIsReady(text, old(Now()), e);
    }

    /** The end of an operation that draws a revision and records an entry under it. */
    method PutAndSave(e: Entry, ghost before: State, ghost now: Int64) returns (ok: bool)
      requires Ready(text, Now()) && Clean(text, e.id)
      requires Now() == before.(revision := e.revision) && e.revision == NextRevision(before.revision, now)
      modifies this
      ensures failed == old(failed)
      ensures Saved(text, WithEntry(before, e), Now(), ok) && Consistent(text, Now()) && (ok ==> Flushed(Now()))
      ensures Operates(text, before, Now())
    {
      Put(e);
      assert Now() == WithEntry(before, e);
      ok := RebuildAndSave();
      assert Mutates(text, before, Now(), Record(e), now, ok);
    }

    /** The end of an operation that has removed entries: a revision is drawn and the rest saved. */
    method RemovedAndSave(ghost ids: set<string>, ghost before: State, nanos: Int64) returns (ok: bool)
      requires Ready(text, Now()) && ids <= before.details.Keys && Now() == Without(before, ids, before.revision)
      modifies this
      ensures failed == old(failed)
      ensures Saved(text, Without(before, ids, NextRevision(before.revision, nanos)), Now(), ok)
      ensures Consistent(text, Now()) && (ok ==> Flushed(Now()) && ids !! files.Keys)
      ensures details.Keys <= old(details).Keys && Operates(text, before, Now())
    {
      var next := NextRevisionLocked(nanos);
      ghost var changed := Now();
      assert changed == Without(before, ids, next);
      ok := RebuildAndSave();
      SavedKeepsKeys(text, changed, Now(), ok);
      if ok {
        DeletedAreGone(text, changed, Now());
      }
      assert Mutates(text, before, Now(), Remove(ids, next), nanos, ok);
    }

    method Drop(id: string)
      requires Ready(text, Now()) && id in details
      modifies this`details, this`dirty, this`deleted
      ensures Now() == Without(old(Now()), {id}, revision) && Ready(text, Now())
    {
      MarkDetailDeleted(id);
      details := details - {id};
      WithoutIsReady(text, old(Now()), {id}, revision);
    }

    method DropAll()
      requires Ready(text, Now())
      modifies this`details, this`dirty, this`deleted
      ensures Now() == Without(old(Now()), old(details).Keys, revision) && Ready(text, Now())
    {
      CleanAreMarked(text, details.Keys);
      Evict({});
      assert details == map[] && old(details).Keys - details.Keys == old(details).Keys;
      WithoutIsReady(text, old(Now()), old(details).Keys, revision);
    }

    /** A new entry, with the identifier, the clock and the revision clock the source reads. */
    method Start(params: StartParams, id: string, millis: int, nanos: Int64) returns (r: Result<Entry>)
      requires (failed || Consistent(text, Now())) && Clean(text, id)
      modifies this
      ensures failed == old(failed) && (failed ==> r == Err(NotLoaded) && Now() == old(Now()))
      ensures !failed ==> Consistent(text, Now())
      ensures !failed && old(limit) == 0 ==> r == Err(Disabled) && Now() == old(Now())
      ensures var e := Started(text, id, params, NextRevision(old(revision), nanos), millis);
        !failed && old(limit) != 0 ==>
          r == (if r.Ok? then Ok(e) else Err(NotSaved)) && Saved(text, WithEntry(old(Now()), e), Now(), r.Ok?)
      ensures r.Ok? ==> Flushed(Now())
      ensures Operates(text, old(Now()), Now())
    {
      if failed {
        return Err(NotLoaded);
      }
      if limit == 0 {
        return Err(Disabled);
      }
      var next := NextRevisionLocked(nanos);
      var entry := Started(text, id, params, next, millis);
      var ok := PutAndSave(entry, old(Now()), nanos);
      return if ok then Ok(entry) else Err(NotSaved);
    }

    method Update(id: string, params: UpdateParams, millis: int, nanos: Int64) returns (r: Result<Entry>)
      requires failed || Consistent(text, Now())
      modifies this
      ensures failed == old(failed) && (failed ==> r == Err(NotLoaded) && Now() == old(Now()))
      ensures !failed ==> Consistent(text, Now())
      ensures var target := text.trim(id);
        !failed && target !in old(details) ==>
          r == Err(if target == "" then IdRequired else NotFound) && Now() == old(Now())
      ensures var target := text.trim(id);
        !failed && target in old(details) ==>
          var e := Updated(text, old(details)[target], params, NextRevision(old(revision), nanos), millis);
          r == (if r.Ok? then Ok(e) else Err(NotSaved)) && Saved(text, WithEntry(old(Now()), e), Now(), r.Ok?)
      ensures r.Ok? ==> Flushed(Now())
      ensures Operates(text, old(Now()), Now())
    {
      if failed {
        return Err(NotLoaded);
      }
      var target := text.trim(id);
      if target == "" {
        return Err(IdRequired);
      }
      if target !in details {
        return Err(NotFound);
      }
      var next := NextRevisionLocked(nanos);
      var item := Updated(text, details[target], params, next, millis);
      var ok := PutAndSave(item, old(Now()), nanos);
      return if ok then Ok(item) else Err(NotSaved);
    }

    method Delete(id: string, nanos: Int64) returns (r: Result<()>)
      requires failed || Consistent(text, Now())
      modifies this
      ensures failed == old(failed) && (failed ==> r == Err(NotLoaded) && Now() == old(Now()))
      ensures !failed ==> Consistent(text, Now())
      ensures var target := text.trim(id);
        !failed && target !in old(details) ==>
          r == Err(if target == "" then IdRequired else NotFound) && Now() == old(Now())
      ensures var target := text.trim(id);
        !failed && target in old(details) ==>
          (r == Ok(()) || r == Err(NotSaved)) &&
          Saved(text, Without(old(Now()), {target}, NextRevision(old(revision), nanos)), Now(), r.Ok?)
      ensures r.Ok? ==> Flushed(Now()) && text.trim(id) !in files
      ensures Operates(text, old(Now()), Now())
    {
      if failed {
        return Err(NotLoaded);
      }
      var target := text.trim(id);
      if target == "" {
        return Err(IdRequired);
      }
      if target !in details {
        return Err(NotFound);
      }
      ghost var before := Now();
      Drop(target);
      var ok := RemovedAndSave({target}, before, nanos);
      return if ok then Ok(()) else Err(NotSaved);
    }

    method Clear(nanos: Int64) returns (r: Result<()>)
      requires failed || Consistent(text, Now())
      modifies this
      ensures failed == old(failed) && (failed ==> r == Err(NotLoaded) && Now() == old(Now()))
      ensures !failed ==> Consistent(text, Now()) && details == map[]
      ensures !failed ==> (r == Ok(()) || r == Err(NotSaved))
      ensures !failed ==> Saved(text, Without(old(Now()), old(details).Keys, NextRevision(old(revision), nanos)),
        Now(), r.Ok?)
      ensures r.Ok? ==> Flushed(Now())
      ensures Operates(text, old(Now()), Now())
    {
      if failed {
        return Err(NotLoaded);
      }
      ghost var before, ids := Now(), details.Keys;
      DropAll();
      var ok := RemovedAndSave(ids, before, nanos);
      return if ok then Ok(()) else Err(NotSaved);
    }

    method SetLimit(newLimit: int, nanos: Int64) returns (r: Result<()>)
      requires failed || Consistent(text, Now())
      modifies this
      ensures failed == old(failed) && (failed ==> r == Err(NotLoaded) && Now() == old(Now()))
      ensures !failed ==> Consistent(text, Now())
      ensures !failed && !IsAllowedLimit(newLimit) ==> r == Err(BadLimit) && Now() == old(Now())
      ensures !failed && IsAllowedLimit(newLimit) ==>
        (r == Ok(()) || r == Err(NotSaved)) && limit == newLimit &&
        Saved(text, old(Now()).(limit := newLimit, revision := NextRevision(old(revision), nanos)), Now(), r.Ok?)
      ensures r.Ok? ==> Flushed(Now())
      ensures Operates(text, old(Now()), Now())
    {
      if failed {
        return Err(NotLoaded);
      }
      if !IsAllowedLimit(newLimit) {
        return Err(BadLimit);
      }
      limit := newLimit;
      var _ := NextRevisionLocked(nanos);
      var ok := RebuildAndSave();
      assert Mutates(text, old(Now()), Now(), Relimit(newLimit, NextRevision(old(revision), nanos)), nanos, ok);
      return if ok then Ok(()) else Err(NotSaved);
    }
  }

  lemma CutIsRebuilt(text: Text, a: State, b: State)
    requires Keyed(b.details) && Lists(text, b.items, b.details) && Sorted(b.items)
    requires b.limit == AllowedLimit(a.limit) && (b.limit != 0 ==> |b.items| <= b.limit)
    requires KeepsNewest(text, b.limit, a.details, b.details)
    requires var gone := Marked(text, a.details.Keys - b.details.Keys);
      b == a.(limit := b.limit, items := b.items, details := b.details, dirty := a.dirty - gone,
              deleted := a.deleted + gone)
    ensures Rebuilt(text, a, b)
  {
  }

  /** Ready to be saved: consistent but for the index. */
  ghost predicate Ready(text: Text, s: State) {
    Keyed(s.details) && AllClean(text, s.details.Keys) && Synced(s)
  }

  lemma WithEntryIsReady(text: Text, s: State, e: Entry)
    requires Ready(text, s) && Clean(text, e.id)
    ensures Ready(text, WithEntry(s, e))
  {
  }

  lemma WithoutIsReady(text: Text, s: State, ids: set<string>, revision: Int64)
    requires Ready(text, s) && ids <= s.details.Keys
    ensures Ready(text, Without(s, ids, revision))
  {
  }

  lemma RebuildKeepsReady(text: Text, a: State, b: State)
    requires Ready(text, a) && Rebuilt(text, a, b)
    ensures Consistent(text, b)
  {
    var evicted := a.details.Keys - b.details.Keys;
    CleanAreMarked(text, evicted);
    forall id | id !in b.dirty && id !in b.deleted ensures OnDisk(b, id) {
      assert OnDisk(a, id);
    }
  }

  /** A failed save keeps what it has done apart; a complete one brings the directory up to date. */
  lemma WritingKeepsConsistent(text: Text, a: State, b: State, ok: bool)
    requires Consistent(text, a) && Written(a, b, ok)
    ensures Consistent(text, b) && (ok ==> Flushed(b))
  {
    if ok {
      forall id ensures OnDisk(b, id) {
        assert id !in a.dirty && id !in a.deleted ==> OnDisk(a, id);
      }
    } else {
      var done, gone :| MaybeWritten(a.files, b.files, a.details, a.dirty, a.deleted, done, gone);
      forall id | id !in b.dirty && id !in b.deleted ensures OnDisk(b, id) {
        assert OnDisk(a, id);
      }
    }
  }

  lemma SavedKeepsKeys(text: Text, a: State, b: State, ok: bool)
    requires Saved(text, a, b, ok)
    ensures b.details.Keys <= a.details.Keys
  {
  }

  /** A successful save leaves no file of a deleted entry. */
  lemma DeletedAreGone(text: Text, a: State, b: State)
    requires Ready(text, a) && Saved(text, a, b, true)
    ensures a.deleted !! b.files.Keys
  {
    var mid :| Rebuilt(text, a, mid) && Written(mid, b, true);
    assert a.deleted <= mid.deleted && mid.deleted !! mid.dirty;
  }

  /** Whatever part of a save fails, the store stays consistent with its directory; and when none fails, the
      directory holds exactly what is in memory. */
  lemma SaveKeepsConsistent(text: Text, a: State, b: State, ok: bool)
    requires Ready(text, a) && Saved(text, a, b, ok)
    ensures Consistent(text, b) && (ok ==> Flushed(b)) && (!ok ==> b.index == a.index)
    ensures b.revision == a.revision && b.limit == AllowedLimit(a.limit) &&
      KeepsNewest(text, b.limit, a.details, b.details)
  {
    var mid :| Rebuilt(text, a, mid) && Written(mid, b, ok);
    RebuildKeepsReady(text, a, mid);
    WritingKeepsConsistent(text, mid, b, ok);
  }

  /** Rebuilding before saveLocked, which rebuilds again, changes nothing. */
  lemma SavedTwice(text: Text, a: State, mid: State, b: State, ok: bool)
    requires Rebuilt(text, a, mid) && Saved(text, mid, b, ok)
    ensures Saved(text, a, b, ok)
  {
    var again :| Rebuilt(text, mid, again) && Written(again, b, ok);
    RebuiltTwice(text, a, mid, again);
  }

  lemma RebuiltTwice(text: Text, a: State, mid: State, again: State)
    requires Rebuilt(text, a, mid) && Rebuilt(text, mid, again)
    ensures Rebuilt(text, a, again)
  {
    ListsCounts(text, mid.items, mid.details);
    assert again.details == mid.details;
    NothingMarked(text, mid.details.Keys);
    assert again.dirty == mid.dirty && again.deleted == mid.deleted;
  }

  lemma NothingMarked(text: Text, ids: set<string>)
    ensures Marked(text, ids - ids) == {}
  {
  }

  lemma MoreIds(items: seq<Summary>, s: Summary)
    ensures IdsOf(items + [s]) == IdsOf(items) + {s.id}
  {
    assert s in items + [s];
    assert forall t :: t in items + [s] <==> t in items || t == s;
  }

  lemma NothingWritten(files: map<string, Entry>, details: map<string, Entry>)
    ensures files == WriteFiles(files, details, {}, {})
  {
  }

  lemma NothingAdded(files: map<string, Entry>, details: map<string, Entry>, gone: set<string>)
    ensures files - gone == WriteFiles(files, details, {}, gone)
  {
  }

  lemma EvictedOneMore(details: map<string, Entry>, gone: set<string>, id: string)
    ensures Only(details, details.Keys - gone) - {id} == Only(details, details.Keys - (gone + {id}))
  {
  }

  lemma EvictedAll(details: map<string, Entry>, keep: set<string>)
    ensures Only(details, details.Keys - (details.Keys - keep)) == Only(details, keep)
    ensures details.Keys - Only(details, keep).Keys == details.Keys - keep
  {
  }

  lemma AllWritten(files: map<string, Entry>, details: map<string, Entry>, dirty: set<string>, deleted: set<string>)
    ensures PartlyWritten(files, WriteFiles(files, details, dirty, deleted), details, dirty, deleted)
  {
    assert MaybeWritten(files, WriteFiles(files, details, dirty, deleted), details, dirty, deleted, dirty, deleted);
  }

  lemma MarkOneMore(text: Text, gone: set<string>, id: string)
    ensures Marked(text, gone + {id}) == Marked(text, gone) + (if text.trim(id) != "" then {text.trim(id)} else {})
  {
    forall m | m in Marked(text, gone + {id}) && m !in Marked(text, gone) ensures m == text.trim(id) {
      var k :| k in gone + {id} && text.trim(k) != "" && text.trim(k) == m;
      assert k in gone ==> m in Marked(text, gone);
    }
  }

  /** One item per entry. */
  lemma {:induction false} ListsCounts(text: Text, items: seq<Summary>, details: map<string, Entry>)
    requires Lists(text, items, details)
    ensures |items| == |details|
  {
    DistinctCounts(items);
  }

  lemma {:induction false} DistinctCounts(items: seq<Summary>)
    requires Distinct(items)
    ensures |IdsOf(items)| == |items|
  {
    if items != [] {
      var n := |items| - 1;
      DistinctCounts(items[..n]);
      assert items == items[..n] + [items[n]];
      assert IdsOf(items) == IdsOf(items[..n]) + {items[n].id};
      forall s | s in items[..n] ensures s.id != items[n].id {
        var i :| 0 <= i < n && items[i] == s;
      }
    }
  }

  /** Cutting the sorted list keeps the newest. */
  lemma KeptAreNewest(text: Text, items: seq<Summary>, details: map<string, Entry>, limit: int)
    requires Lists(text, items, details) && Sorted(items) && 0 < limit < |items|
    ensures var kept := Only(details, IdsOf(items[..limit]));
      KeepsNewest(text, limit, details, kept) && Lists(text, items[..limit], kept) && Sorted(items[..limit])
  {
    var kept := Only(details, IdsOf(items[..limit]));
    HeadLists(text, items, details, limit);
    ListsCounts(text, items, details);
    ListsCounts(text, items[..limit], kept);
    forall id, other | id in kept && other in details && other !in kept
      ensures !Before(SummaryOf(text, details[other]), SummaryOf(text, details[id]))
    {
      CutAfterNewest(text, items, details, limit, id, other);
    }
  }

  lemma AllAreKept(text: Text, items: seq<Summary>, details: map<string, Entry>, limit: int)
    requires Lists(text, items, details) && (limit == 0 || |items| <= limit)
    ensures KeepsNewest(text, limit, details, details)
  {
    ListsCounts(text, items, details);
  }

  lemma HeadLists(text: Text, items: seq<Summary>, details: map<string, Entry>, limit: int)
    requires Lists(text, items, details) && 0 < limit < |items|
    ensures var kept := Only(details, IdsOf(items[..limit])); Lists(text, items[..limit], kept)
  {
    var head := items[..limit];
    assert forall s | s in head :: s in items;
    assert IdsOf(head) <= details.Keys;
    assert Only(details, IdsOf(head)).Keys == IdsOf(head);
  }

  lemma CutAfterNewest(text: Text, items: seq<Summary>, details: map<string, Entry>, limit: int, id: string,
                       other: string)
    requires Lists(text, items, details) && Sorted(items) && 0 < limit < |items|
    requires id in details && other in details && id in IdsOf(items[..limit]) && other !in IdsOf(items[..limit])
    ensures !Before(SummaryOf(text, details[other]), SummaryOf(text, details[id]))
  {
    var i := PlaceOf(items[..limit], id);
    var j := PlaceOf(items, other);
    assert items[i] == items[..limit][i];
    assert items[i] in items && items[j] in items;
    forall k | 0 <= k < limit ensures items[k].id != other {
      assert items[..limit][k] in items[..limit];
    }
  }

  lemma PlaceOf(items: seq<Summary>, id: string) returns (i: nat)
    requires id in IdsOf(items)
    ensures i < |items| && items[i].id == id
  {
    var s :| s in items && s.id == id;
    i :| i < |items| && items[i] == s;
  }

  // ---------------------------------------------------------------- migration

  ghost predicate Idempotent(text: Text) {
    forall s :: text.trim(text.trim(s)) == text.trim(s)
  }

  /** A legacy entry without a revision gets its update time, or the clock. */
  function Migrated(e: Entry, clock: Int64): Entry {
    if e.revision != 0 then e else e.(revision := if 0 < e.updatedAt <= MAX_INT64 then e.updatedAt else clock)
  }

  /** The entries of a legacy file by identifier, the later of two with the same one, none with a blank one. */
  function Loaded(text: Text, legacy: seq<Entry>, clock: Int64): map<string, Entry> {
    if legacy == [] then map[]
    else
      var e, before := legacy[|legacy| - 1], Loaded(text, legacy[..|legacy| - 1], clock);
      if text.trim(e.id) == "" then before else before[e.id := Migrated(e, clock)]
  }

  function HighestRevision(text: Text, legacy: seq<Entry>, clock: Int64): Int64 {
    if legacy == [] then 0
    else
      var e, before := legacy[|legacy| - 1], HighestRevision(text, legacy[..|legacy| - 1], clock);
      if text.trim(e.id) == "" || Migrated(e, clock).revision <= before then before else Migrated(e, clock).revision
  }

  /** When a kept legacy entry is on disk: a clean identifier must not be the trimmed one of an evicted entry, whose
      removal takes its mark; one with surrounding space is never written and must have been there. */
  ghost predicate LegacyWritten(text: Text, loaded: map<string, Entry>, files: map<string, Entry>,
                                kept: map<string, Entry>, id: string)
    requires id in kept
  {
    if text.trim(id) == id then forall e | e in loaded && e !in kept :: text.trim(e) != id
    else id in files && files[id] == kept[id]
  }

  /** Exactly which entries a successful migration leaves on disk. */
  lemma LegacySaved(text: Text, a: State, b: State)
    requires Keyed(a.details) && Saved(text, a, b, true) && Idempotent(text)
    requires a.dirty == Marked(text, a.details.Keys) && a.deleted == {} && a.stray == a.files.Keys
    requires forall id | id in a.details :: text.trim(id) != ""
    ensures forall id | id in b.details :: OnDisk(b, id) <==> LegacyWritten(text, a.details, a.files, b.details, id)
    ensures Flushed(b) <==> forall id | id in b.details :: LegacyWritten(text, a.details, a.files, b.details, id)
  {
    var mid :| Rebuilt(text, a, mid) && Written(mid, b, true);
    WrittenAfterRebuild(text, a, mid, b);
    LegacyFiles(text, a.details, a.files, b.details, b);
  }

  lemma WrittenAfterRebuild(text: Text, a: State, mid: State, b: State)
    requires Remarked(text, a, mid) && Written(mid, b, true) && a.dirty == Marked(text, a.details.Keys) &&
      a.deleted == {}
    ensures b.details.Keys <= a.details.Keys && b.stray == a.stray
    ensures b.index == Some(File(b.limit, b.revision, b.items)) && b.dirty == {} && b.deleted == {}
    ensures var gone := Marked(text, a.details.Keys - b.details.Keys);
      b.files == WriteFiles(a.files, b.details, Marked(text, a.details.Keys) - gone, gone)
  {
    assert {} + mid.deleted == mid.deleted;
  }

  lemma LegacyFiles(text: Text, loaded: map<string, Entry>, files: map<string, Entry>, kept: map<string, Entry>,
                    b: State)
    requires b.details == kept && kept.Keys <= loaded.Keys && b.stray == files.Keys && Idempotent(text)
    requires forall id | id in loaded :: text.trim(id) != ""
    requires b.index == Some(File(b.limit, b.revision, b.items)) && b.dirty == {} && b.deleted == {}
    requires var gone := Marked(text, loaded.Keys - kept.Keys);
      b.files == WriteFiles(files, kept, Marked(text, loaded.Keys) - gone, gone)
    ensures forall id | id in kept :: OnDisk(b, id) <==> LegacyWritten(text, loaded, files, kept, id)
    ensures Flushed(b) <==> forall id | id in kept :: LegacyWritten(text, loaded, files, kept, id)
  {
    forall id | id in kept ensures OnDisk(b, id) <==> LegacyWritten(text, loaded, files, kept, id) {
      LegacyEntry(text, loaded, files, kept, b, id);
    }
    forall id | id !in kept ensures OnDisk(b, id) {
    }
  }

  lemma LegacyIndexed(text: Text, a: State, b: State, ok: bool)
    requires Keyed(a.details) && Saved(text, a, b, ok)
    ensures Keyed(b.details) && Indexed(text, b) && KeepsNewest(text, b.limit, a.details, b.details)
    ensures b.limit == AllowedLimit(a.limit) && b.revision == a.revision
  {
    var mid :| Rebuilt(text, a, mid) && Written(mid, b, ok);
    assert b.items == mid.items && b.details == mid.details && b.limit == mid.limit;
  }

  /** The file of one kept entry after its writing, given all that was loaded and all that was evicted. */
  lemma LegacyEntry(text: Text, loaded: map<string, Entry>, files: map<string, Entry>, kept: map<string, Entry>,
                    b: State, id: string)
    requires b.details == kept && kept.Keys <= loaded.Keys && id in kept && text.trim(id) != "" && Idempotent(text)
    requires var gone := Marked(text, loaded.Keys - kept.Keys);
      b.files == WriteFiles(files, kept, Marked(text, loaded.Keys) - gone, gone)
    ensures OnDisk(b, id) <==> LegacyWritten(text, loaded, files, kept, id)
  {
    var gone := Marked(text, loaded.Keys - kept.Keys);
    if text.trim(id) == id {
      CleanIsMarked(text, loaded.Keys, id);
      MarkedIff(text, loaded.Keys - kept.Keys, id);
    } else {
      PaddedIsNotMarked(text, loaded.Keys, id);
      PaddedIsNotMarked(text, loaded.Keys - kept.Keys, id);
    }
    FileAfter(files, kept, Marked(text, loaded.Keys) - gone, gone, id);
  }

  lemma FileAfter(files: map<string, Entry>, details: map<string, Entry>, dirty: set<string>, deleted: set<string>,
                  id: string)
    requires id in details
    ensures var after := WriteFiles(files, details, dirty, deleted);
      && (id in dirty ==> id in after && after[id] == details[id])
      && (id !in dirty && id in deleted ==> id !in after)
      && (id !in dirty && id !in deleted ==> (id in after <==> id in files) && (id in files ==> after[id] == files[id]))
  {
  }

  lemma CleanIsMarked(text: Text, ids: set<string>, id: string)
    requires id in ids && text.trim(id) == id != ""
    ensures id in Marked(text, ids)
  {
  }

  lemma MarkedIff(text: Text, ids: set<string>, id: string)
    requires id != ""
    ensures id in Marked(text, ids) <==> exists e :: e in ids && text.trim(e) == id
  {
  }

  lemma PaddedIsNotMarked(text: Text, ids: set<string>, id: string)
    requires Idempotent(text) && text.trim(id) != id
    ensures id !in Marked(text, ids)
  {
  }

  // Two legacy files that lose an entry, with strings.TrimSpace.
  const ASCII := Text(FoldText.TrimSpace, (_: Entry) => "")

  function Plain(id: string, createdAt: int): Entry {
    Entry(id, 1, createdAt, 0, 0, "", StartParams("", "", "", "", "", false, "", [], "", ""), "", "", "", 0, 0,
      "", None)
  }

  /** The store once a legacy file is read, over an empty directory. */
  ghost function Loading(legacy: seq<Entry>, clock: Int64): State {
    var details := Loaded(ASCII, legacy, clock);
    State(10, HighestRevision(ASCII, legacy, clock), [], details, Marked(ASCII, details.Keys), {}, map[], None, {})
  }

  lemma TrimsToA()
    ensures FoldText.TrimSpace(" a") == "a" == FoldText.TrimSpace("a")
  {
    assert " a"[1..] == "a" && FoldText.TrimLeft(" a") == FoldText.TrimLeft("a") == "a";
    assert FoldText.TrimRight("a") == "a";
  }

  /** An identifier with surrounding space: indexed, and never written. */
  lemma PaddedIsLost(clock: Int64, b: State, ok: bool)
    requires Saved(ASCII, Loading([Plain(" a", 0)], clock), b, ok)
    ensures " a" in b.details && " a" !in b.files
  {
    var a := Loading([Plain(" a", 0)], clock);
    LoadedOneMore([], Plain(" a", 0), clock);
    assert [] + [Plain(" a", 0)] == [Plain(" a", 0)];
    TrimsToA();
    var mid :| Rebuilt(ASCII, a, mid) && Written(mid, b, ok);
    assert |a.details| == 1 && mid.details == a.details;
    assert " a"[0] == ' ' && "a"[0] == 'a' && " a" !in a.dirty;
    assert mid.dirty <= a.dirty;
  }

  lemma LoadedOneMore(legacy: seq<Entry>, e: Entry, clock: Int64)
    requires e.revision != 0
    ensures Loaded(ASCII, legacy + [e], clock) ==
            if FoldText.TrimSpace(e.id) == "" then Loaded(ASCII, legacy, clock)
            else Loaded(ASCII, legacy, clock)[e.id := e]
  {
    assert (legacy + [e])[..|legacy|] == legacy;
  }

  function Bs(n: nat): (id: string)
    ensures |id| == n + 3 && id[0] == 'b'
  {
    seq(n + 3, _ => 'b')
  }

  lemma BsAreClean(n: nat)
    ensures FoldText.TrimSpace(Bs(n)) == Bs(n)
  {
    assert FoldText.TrimLeft(Bs(n)) == Bs(n);
  }

  /** A legacy file with an entry, an older one with the same identifier but for a space, and n others. */
  function Crowd(n: nat): seq<Entry> {
    if n == 0 then [Plain("a", 1), Plain(" a", 0)] else Crowd(n - 1) + [Plain(Bs(n - 1), 1)]
  }

  function CrowdMap(n: nat): map<string, Entry> {
    if n == 0 then map["a" := Plain("a", 1)][" a" := Plain(" a", 0)]
    else CrowdMap(n - 1)[Bs(n - 1) := Plain(Bs(n - 1), 1)]
  }

  lemma TwinsLoad(legacy: seq<Entry>, clock: Int64)
    requires legacy == [Plain("a", 1), Plain(" a", 0)]
    ensures Loaded(ASCII, legacy, clock) == CrowdMap(0)
  {
    TrimsToA();
    LoadedOneMore([], Plain("a", 1), clock);
    LoadedOneMore([Plain("a", 1)], Plain(" a", 0), clock);
    assert [] + [Plain("a", 1)] == [Plain("a", 1)];
    assert [Plain("a", 1)] + [Plain(" a", 0)] == legacy;
  }

  lemma {:induction false} CrowdLoads(n: nat, clock: Int64)
    ensures Loaded(ASCII, Crowd(n), clock) == CrowdMap(n)
  {
    if n == 0 {
      TwinsLoad(Crowd(0), clock);
    } else {
      CrowdLoads(n - 1, clock);
      BsAreClean(n - 1);
      LoadedOneMore(Crowd(n - 1), Plain(Bs(n - 1), 1), clock);
    }
  }

  ghost predicate IsCrowd(details: map<string, Entry>, n: nat) {
    && (forall id | id in details :: |id| <= n + 2) && |details| == n + 2 && "a" in details && " a" in details
    && details[" a"].createdAt == 0 && forall id | id in details && id != " a" :: details[id].createdAt == 1
  }

  lemma CrowdGrows(details: map<string, Entry>, n: nat)
    requires IsCrowd(details, n)
    ensures IsCrowd(details[Bs(n) := Plain(Bs(n), 1)], n + 1)
  {
    assert Bs(n) !in details;
  }

  lemma {:induction false} CrowdIsCrowd(n: nat)
    ensures IsCrowd(CrowdMap(n), n)
  {
    if n == 0 {
      assert "a"[0] != " a"[0];
    } else {
      CrowdIsCrowd(n - 1);
      CrowdGrows(CrowdMap(n - 1), n - 1);
    }
  }

  /** A clean identifier whose older twin is evicted: kept, indexed and never written. */
  lemma TwinIsLost(clock: Int64, b: State, ok: bool)
    requires Saved(ASCII, Loading(Crowd(9), clock), b, ok)
    ensures "a" in b.details && "a" !in b.files
  {
    TrimsToA();
    CrowdLoads(9, clock);
    CrowdIsCrowd(9);
    assert "a"[0] != " a"[0];
    EvictionUnmarks(ASCII, Loading(Crowd(9), clock), b, ok, "a", " a");
  }

  /** With one entry too many exactly the oldest goes, and the mark of its trimmed identifier with it. */
  lemma EvictionUnmarks(text: Text, a: State, b: State, ok: bool, id: string, oldest: string)
    requires Saved(text, a, b, ok) && a.limit == 10 && |a.details| == 11 && a.files == map[]
    requires id in a.details && oldest in a.details && id != oldest && text.trim(oldest) == text.trim(id) == id != ""
    requires forall k | k in a.details && k != oldest :: a.details[k].createdAt > a.details[oldest].createdAt
    ensures id in b.details && id !in b.files
  {
    var mid :| Rebuilt(text, a, mid) && Written(mid, b, ok);
    OldestIsEvicted(text, a.details, mid.details, oldest);
    UnmarkedIsNotWritten(text, a, mid, b, ok, id, oldest);
  }

  lemma UnmarkedIsNotWritten(text: Text, a: State, mid: State, b: State, ok: bool, id: string, evicted: string)
    requires Rebuilt(text, a, mid) && Written(mid, b, ok) && a.files == map[]
    requires evicted in a.details && evicted !in mid.details && text.trim(evicted) == id != ""
    ensures id !in b.files
  {
    assert evicted in a.details.Keys - mid.details.Keys;
    assert id in Marked(text, a.details.Keys - mid.details.Keys) && id !in mid.dirty;
    OnlyDirtyAreWritten(mid, b, ok, id);
  }

  lemma OnlyDirtyAreWritten(a: State, b: State, ok: bool, id: string)
    requires Written(a, b, ok) && id !in a.dirty && id !in a.files
    ensures id !in b.files
  {
    if !ok {
      var done, gone :| MaybeWritten(a.files, b.files, a.details, a.dirty, a.deleted, done, gone);
    }
  }

  lemma OldestIsEvicted(text: Text, details: map<string, Entry>, kept: map<string, Entry>, oldest: string)
    requires KeepsNewest(text, 10, details, kept) && |details| == 11 && oldest in details
    requires forall id | id in details && id != oldest :: details[id].createdAt > details[oldest].createdAt
    ensures kept.Keys == details.Keys - {oldest}
  {
    forall id | id in details && id != oldest ensures Newer(text, details, id, oldest) {
    }
    NewestSurvives(text, 10, details, kept, oldest);
    Fewer(kept.Keys, details.Keys - {oldest});
  }

  /** An entry newer than all others survives any rebuild; one older than all others does not survive a full
      history, even if it was started just now under a clock that had gone back. */
  lemma NewestSurvives(text: Text, limit: int, details: map<string, Entry>, kept: map<string, Entry>, id: string)
    requires KeepsNewest(text, limit, details, kept) && id in details && limit > 0
    ensures (forall other | other in details && other != id :: Newer(text, details, id, other)) ==> id in kept
    ensures (|details| > limit && forall other | other in details && other != id ::
      Newer(text, details, other, id)) ==> id !in kept
  {
    if |details| > limit {
      SmallerMap(kept, details);
      var some :| some in kept;
      var gone :| gone in details && gone !in kept;
      assert !Newer(text, details, gone, some);
      assert id in kept ==> !Newer(text, details, gone, id);
      assert id !in kept ==> !Newer(text, details, id, some);
    }
  }

  /** What a successful save leaves is a directory that opens again with the same entries, limit and revision. */
  lemma SavedReopens(text: Text, s: State, kept: map<string, Entry>)
    requires Consistent(text, s) && Flushed(s)
    requires KeepsNewest(text, AllowedLimit(s.index.value.limit), Only(s.files, Named(s.index)), kept)
    ensures IsDirectory(text, s.index, s.files) && Opens(s.index, s.files) && kept == s.details
    ensures AllowedLimit(s.index.value.limit) == s.limit && s.index.value.revision == s.revision
  {
    forall id | id in s.details ensures id in s.files && s.files[id] == s.details[id] {
      assert OnDisk(s, id);
    }
    assert Only(s.files, Named(s.index)) == s.details;
    ListsCounts(text, s.items, s.details);
  }

  predicate Newer(text: Text, details: map<string, Entry>, a: string, b: string)
    requires a in details && b in details
  {
    Before(SummaryOf(text, details[a]), SummaryOf(text, details[b]))
  }

  lemma SmallerMap(kept: map<string, Entry>, details: map<string, Entry>)
    requires kept.Keys <= details.Keys && 0 < |kept| < |details|
    ensures (exists id :: id in kept) && exists id :: id in details && id !in kept
  {
    assert |kept.Keys| == |kept| && |details.Keys| == |details|;
    var rest := details.Keys - kept.Keys;
    assert details.Keys == kept.Keys + rest;
    assert rest != {} && kept.Keys != {};
    var gone :| gone in rest;
    var some :| some in kept.Keys;
    assert some in kept && gone in details && gone !in kept;
  }

  // ---------------------------------------------------------------- whole runs

  /** What an operation changes in memory before it rebuilds and saves. */
  datatype Change =
    | Record(entry: Entry)
    | Remove(ids: set<string>, revision: Int64)
    | Relimit(limit: int, revision: Int64)

  function Changed(s: State, c: Change): State {
    match c
    case Record(e) => WithEntry(s, e)
    case Remove(ids, revision) => Without(s, ids, revision)
    case Relimit(limit, revision) => s.(limit := limit, revision := revision)
  }

  ghost predicate Allowed(text: Text, s: State, c: Change) {
    match c
    case Record(e) => Clean(text, e.id)
    case Remove(ids, _) => ids <= s.details.Keys
    case Relimit(limit, _) => IsAllowedLimit(limit)
  }

  ghost predicate Mutates(text: Text, a: State, b: State, c: Change, now: Int64, ok: bool) {
    Allowed(text, a, c) && Changed(a, c).revision == NextRevision(a.revision, now) && Saved(text, Changed(a, c), b, ok)
  }

  /** One operation: refused, or a change that is saved as far as the disk allows. */
  ghost predicate Operates(text: Text, a: State, b: State) {
    b == a || exists c, now, ok :: Mutates(text, a, b, c, now, ok)
  }

  lemma ChangeKeepsReady(text: Text, s: State, c: Change)
    requires Ready(text, s) && Allowed(text, s, c)
    ensures Ready(text, Changed(s, c))
  {
    match c
    case Record(e) => WithEntryIsReady(text, s, e);
    case Remove(ids, revision) => WithoutIsReady(text, s, ids, revision);
    case Relimit(_, _) =>
  }

  /** The state after an operation is consistent, and its revision is a new one but at the end of the range. */
  lemma MutationKeepsConsistent(text: Text, a: State, b: State, c: Change, now: Int64, ok: bool)
    requires Ready(text, a) && Mutates(text, a, b, c, now, ok)
    ensures Consistent(text, b) && (ok ==> Flushed(b))
    ensures b.revision > a.revision <==> a.revision < MAX_INT64
  {
    var m := Changed(a, c);
    ChangeKeepsReady(text, a, c);
    SaveKeepsConsistent(text, m, b, ok);
    RevisionIncreasesIff(a.revision, now);
  }

  /** From a consistent directory, through any sequence of operations and whatever part of their saves fails:
      every state is consistent, and until the 64-bit range is exhausted the revision never goes back. */
  lemma {:induction false} RunKeepsConsistent(text: Text, states: seq<State>, i: nat)
    requires i < |states| && Consistent(text, states[0])
    requires forall k | 0 < k < |states| :: Operates(text, states[k - 1], states[k])
    ensures Consistent(text, states[i])
    ensures i > 0 && states[i - 1].revision < MAX_INT64 ==> states[i - 1].revision <= states[i].revision
    decreases i
  {
    if i > 0 {
      RunKeepsConsistent(text, states, i - 1);
      OperationKeepsConsistent(text, states[i - 1], states[i]);
    }
  }

  lemma OperationKeepsConsistent(text: Text, a: State, b: State)
    requires Consistent(text, a) && Operates(text, a, b)
    ensures Consistent(text, b) && (a.revision < MAX_INT64 ==> a.revision <= b.revision)
  {
    if b != a {
      var c, now, ok :| Mutates(text, a, b, c, now, ok);
      MutationKeepsConsistent(text, a, b, c, now, ok);
    }
  }
}
