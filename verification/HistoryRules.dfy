/** What internal/chathistory/store.go records of a conversation, over the updates that follow its start. */
module HistoryRules {

  import opened Basics
  import opened ChatHistory

  /** An update and what the store reads from its clocks for it. */
  datatype Change = Change(params: UpdateParams, revision: Int64, now: int)

  function After(text: Text, e: Entry, changes: seq<Change>): Entry
    decreases |changes|
  {
    if changes == [] then e
    else After(text, Updated(text, e, changes[0].params, changes[0].revision, changes[0].now), changes[1..])
  }

  /** The last of some texts that is not empty, or the one before them. */
  function LastText(before: string, texts: seq<string>): string {
    if texts == [] then before
    else if texts[|texts| - 1] != "" then texts[|texts| - 1]
    else LastText(before, texts[..|texts| - 1])
  }

  function Contents(changes: seq<Change>): seq<string> {
    seq(|changes|, i requires 0 <= i < |changes| => changes[i].params.content)
  }

  function Reasonings(changes: seq<Change>): seq<string> {
    seq(|changes|, i requires 0 <= i < |changes| => changes[i].params.reasoningContent)
  }

  function Statuses(changes: seq<Change>): seq<string> {
    seq(|changes|, i requires 0 <= i < |changes| => changes[i].params.status)
  }

  function LastUsage(before: Option<map<string, int>>, changes: seq<Change>): Option<map<string, int>> {
    if changes == [] then before
    else
      var c := changes[|changes| - 1];
      if c.params.usage.Some? then c.params.usage else LastUsage(before, changes[..|changes| - 1])
  }

  function LastCompletion(before: int, changes: seq<Change>): int {
    if changes == [] then before
    else
      var c := changes[|changes| - 1];
      if c.params.completed then c.now else LastCompletion(before, changes[..|changes| - 1])
  }

  lemma {:induction false} AfterAppend(text: Text, e: Entry, first: seq<Change>, second: seq<Change>)
    ensures After(text, e, first + second) == After(text, After(text, e, first), second)
    decreases |first|
  {
    if first == [] {
      assert first + second == second;
    } else {
      var c := first[0];
      assert (first + second)[1..] == first[1..] + second;
      AfterAppend(text, Updated(text, e, c.params, c.revision, c.now), first[1..], second);
    }
  }

  lemma AfterOneMore(text: Text, e: Entry, changes: seq<Change>)
    requires changes != []
    ensures var n := |changes| - 1;
      var c := changes[n];
      After(text, e, changes) == Updated(text, After(text, e, changes[..n]), c.params, c.revision, c.now)
  {
    var n := |changes| - 1;
    AfterAppend(text, e, changes[..n], [changes[n]]);
    assert changes[..n] + [changes[n]] == changes && [changes[n]][1..] == [];
  }

  /** Updates never erase: what an entry ends with is the last content, reasoning, status, usage and completion it was
      given; the identifier, the start time and what the request brought stay. */
  lemma {:induction false} UpdatesAccumulate(text: Text, e: Entry, changes: seq<Change>)
    ensures var r := After(text, e, changes);
      && r.content == LastText(e.content, Contents(changes))
      && r.reasoningContent == LastText(e.reasoningContent, Reasonings(changes))
      && r.status == LastText(e.status, Statuses(changes))
      && r.usage == LastUsage(e.usage, changes) && r.completedAt == LastCompletion(e.completedAt, changes)
      && r.id == e.id && r.createdAt == e.createdAt && r.start == e.start
    decreases |changes|
  {
    if changes != [] {
      var n := |changes| - 1;
      UpdatesAccumulate(text, e, changes[..n]);
      AfterOneMore(text, e, changes);
      assert Contents(changes)[..n] == Contents(changes[..n]);
      assert Reasonings(changes)[..n] == Reasonings(changes[..n]);
      assert Statuses(changes)[..n] == Statuses(changes[..n]);
    }
  }

  /** The rest is that of the last update: its clocks, its error and the outcome of the request. */
  lemma LastUpdateCounts(text: Text, e: Entry, changes: seq<Change>)
    requires changes != []
    ensures var r, c := After(text, e, changes), changes[|changes| - 1];
      && r.revision == c.revision && r.updatedAt == c.now && r.error == text.trim(c.params.error)
      && r.statusCode == c.params.statusCode && r.elapsedMs == c.params.elapsedMs
      && r.finishReason == text.trim(c.params.finishReason)
  {
    AfterOneMore(text, e, changes);
  }

  /** A new entry is streaming, without content, and carries the request, its texts trimmed. */
  lemma StartIsEmpty(text: Text, id: string, p: StartParams, revision: Int64, now: int)
    ensures var e := Started(text, id, p, revision, now);
      && e.id == id && e.revision == revision && e.createdAt == e.updatedAt == now && e.completedAt == 0
      && e.status == "streaming" && e.content == "" && e.reasoningContent == "" && e.error == "" && e.usage == None
      && e.start.messages == p.messages && e.start.historyText == p.historyText && e.start.stream == p.stream
      && e.start.userInput == text.trim(p.userInput) && e.start.finalPrompt == text.trim(p.finalPrompt)
      && e.start.model == text.trim(p.model) && e.start.surface == text.trim(p.surface)
      && e.start.callerID == text.trim(p.callerID) && e.start.accountID == text.trim(p.accountID)
      && e.start.userAgent == text.trim(p.userAgent)
  {
  }

  /** The index, read from the front: later creations first, among equals later revisions, then later updates; and every
      line of it tells what its entry holds. */
  lemma IndexIsNewestFirst(text: Text, s: State, i: nat, j: nat)
    requires Indexed(text, s) && i < j < |s.items|
    ensures var a, b := s.items[i], s.items[j];
      && a.createdAt >= b.createdAt && (a.createdAt == b.createdAt ==> a.revision >= b.revision)
      && (a.createdAt == b.createdAt && a.revision == b.revision ==> a.updatedAt >= b.updatedAt)
  {
  }

  lemma IndexTellsEntries(text: Text, s: State, i: nat)
    requires Indexed(text, s) && Keyed(s.details) && i < |s.items|
    ensures var a := s.items[i];
      a.id in s.details &&
      var e := s.details[a.id];
      && a.revision == e.revision && a.createdAt == e.createdAt && a.updatedAt == e.updatedAt
      && a.completedAt == e.completedAt && a.status == e.status && a.start == e.start && a.preview == text.preview(e)
      && a.statusCode == e.statusCode && a.elapsedMs == e.elapsedMs && a.finishReason == e.finishReason
    ensures |s.items| == |s.details|
  {
    assert s.items[i] in s.items;
    ListsCounts(text, s.items, s.details);
  }

  /** The supported limits, and the one that replaces any other. */
  lemma LimitsAre(limit: int)
    ensures AllowedLimit(limit) == if limit in {0, 10, 20, 50} then limit else 20
  {
  }

  // ---------------------------------------------------------------- what a failing save and a migration leave

  /** Removals come first: while a file to be removed is still there, nothing has been written. */
  lemma RemovalsComeFirst(before: map<string, Entry>, files: map<string, Entry>, details: map<string, Entry>,
                          dirty: set<string>, deleted: set<string>, left: string)
    requires PartlyWritten(before, files, details, dirty, deleted) && dirty !! deleted
    requires left in deleted && left in files
    ensures forall id | id in files :: id in before && files[id] == before[id]
    ensures forall id | id in before && id !in deleted :: id in files
  {
    var done, gone :| MaybeWritten(before, files, details, dirty, deleted, done, gone);
    assert left !in gone;
  }

  /** The revision a legacy entry gets: its own, else when it was last updated, else the time of the migration. */
  function RevisionOf(e: Entry, clock: Int64): int {
    if e.revision != 0 then e.revision
    else if 1 <= e.updatedAt < 0x8000_0000_0000_0000 then e.updatedAt
    else clock
  }

  lemma MigratedIs(e: Entry, clock: Int64)
    ensures Migrated(e, clock).revision == RevisionOf(e, clock)
    ensures Migrated(e, clock).(revision := e.revision) == e
  {
  }

  /** The revision of a migrated store is the highest of its entries with an identifier, and at least 0. */
  lemma {:induction false} HighestIs(text: Text, legacy: seq<Entry>, clock: Int64)
    ensures var h := HighestRevision(text, legacy, clock);
      && h >= 0
      && (forall i | 0 <= i < |legacy| && text.trim(legacy[i].id) != "" :: RevisionOf(legacy[i], clock) <= h)
      && (h > 0 ==> exists i | 0 <= i < |legacy| ::
        text.trim(legacy[i].id) != "" && RevisionOf(legacy[i], clock) == h)
    decreases |legacy|
  {
    if legacy != [] {
      var n := |legacy| - 1;
      var before := legacy[..n];
      HighestIs(text, before, clock);
      MigratedIs(legacy[n], clock);
      assert forall i | 0 <= i < n :: legacy[i] == before[i];
      var low := HighestRevision(text, before, clock);
      if low > 0 {
        var i :| 0 <= i < n && text.trim(before[i].id) != "" && RevisionOf(before[i], clock) == low;
        assert legacy[i] == before[i];
      }
    }
  }

  /** A migration keeps, of the entries with one identifier, the last; and none with a blank one. */
  lemma {:induction false} LoadedIs(text: Text, legacy: seq<Entry>, clock: Int64, i: nat)
    requires i < |legacy| && text.trim(legacy[i].id) != ""
    requires forall j | i < j < |legacy| :: legacy[j].id != legacy[i].id
    ensures legacy[i].id in Loaded(text, legacy, clock)
    ensures Loaded(text, legacy, clock)[legacy[i].id] == Migrated(legacy[i], clock)
    decreases |legacy|
  {
    var n := |legacy| - 1;
    if i < n {
      assert legacy[..n][i] == legacy[i];
      LoadedIs(text, legacy[..n], clock, i);
    }
  }

  lemma {:induction false} LoadedOnly(text: Text, legacy: seq<Entry>, clock: Int64, id: string)
    requires id in Loaded(text, legacy, clock)
    ensures text.trim(id) != "" && exists i | 0 <= i < |legacy| :: legacy[i].id == id
    decreases |legacy|
  {
    var n := |legacy| - 1;
    if text.trim(legacy[n].id) == "" || legacy[n].id != id {
      LoadedOnly(text, legacy[..n], clock, id);
      var i :| 0 <= i < n && legacy[..n][i].id == id;
      assert legacy[i].id == id;
    }
  }
}
