/**
 The creators file against the creators table: each entry is upserted, then every active creator
 that the file did not name is paused, a page at a time, while the set that is paged over shrinks.
 */
module FileSync {
  import opened Common
  import opened Paging
  import Text

  datatype Entry = Entry(uid: string, name: string, platform: string, status: string)

  datatype Creator = Creator(platform: string, uid: string, name: string, followers: int, status: string)

  /** The rows by id, and the next id the table gives out. */
  datatype Table = Table(rows: map<int, Creator>, next: int)

  /** The name resolver, if one is configured; an unknown name or uid is an error. */
  datatype Resolver = NoResolver | Resolver(uidOf: string -> Option<(string, string)>, nameOf: string -> Option<string>)

  function Or(s: string, default: string): string {
    if s == "" then default else s
  }

  function NameFor(r: Resolver, uid: string): string {
    if r.NoResolver? || Text.Trim(uid) == "" then ""
    else match r.nameOf(Text.Trim(uid))
      case Some(name) => Text.Trim(name)
      case None => ""
  }

  /** The row that an entry asks for; none if its uid cannot be found out. */
  function Prepare(r: Resolver, e: Entry): Option<Creator> {
    var uid, name := Text.Trim(e.uid), Text.Trim(e.name);
    var platform, status := Or(Text.Trim(e.platform), "bilibili"), Or(Text.Trim(e.status), "active");
    if uid != "" then
      Some(Creator(platform, uid, if name == "" then NameFor(r, uid) else name, 0, status))
    else if name == "" || r.NoResolver? then None
    else match r.uidOf(name)
      case None => None
      case Some((found, full)) => Some(Creator(platform, found, Or(full, name), 0, status))
  }

  predicate Same(c: Creator, d: Creator) {
    c.platform == d.platform && c.uid == d.uid
  }

  /** The unique key of the table, and ids that have been given out. */
  ghost predicate Sound(t: Table) {
    && t.next > 0
    && (forall id :: id in t.rows ==> 0 < id < t.next)
    && (forall i, j :: i in t.rows && j in t.rows && i != j ==> !Same(t.rows[i], t.rows[j]))
  }

  ghost predicate Holds(t: Table, c: Creator, id: int) {
    id in t.rows && Same(t.rows[id], c)
  }

  ghost function HolderOf(t: Table, c: Creator): (holder: Option<int>)
    ensures holder.Some? ==> Holds(t, c, holder.value)
    ensures holder.None? ==> forall id :: id in t.rows ==> !Same(t.rows[id], c)
  {
    if id :| Holds(t, c, id) then Some(id) else
      assert forall id :: id in t.rows && Same(t.rows[id], c) ==> Holds(t, c, id);
      None
  }

  lemma OneHolder(t: Table, c: Creator, id: int)
    requires Sound(t) && Holds(t, c, id)
    ensures HolderOf(t, c) == Some(id)
  {
    var holder := HolderOf(t, c);
    if holder.None? || holder.value != id {
      assert Same(t.rows[holder.value], t.rows[id]);
    }
  }

  /** INSERT ... ON DUPLICATE KEY UPDATE: an empty name does not overwrite. */
  function Merged(row: Creator, c: Creator): Creator {
    c.(name := Or(c.name, row.name))
  }

  datatype Outcome = Failed | Skipped | Synced(id: int)

  /** What one entry does to the table. */
  ghost function UpsertEntry(t: Table, r: Resolver, e: Entry): (Table, Outcome)
    requires Sound(t)
  {
    match Prepare(r, e)
    case None => (t, Failed)
    case Some(c) =>
      match HolderOf(t, c)
      case Some(id) =>
        if t.rows[id].status == "removed" then (t, Skipped)
        else (t.(rows := t.rows[id := Merged(t.rows[id], c)]), Synced(id))
      case None => (Table(t.rows[t.next := c], t.next + 1), Synced(t.next))
  }

  lemma UpsertKeepsSound(t: Table, r: Resolver, e: Entry)
    requires Sound(t)
    ensures Sound(UpsertEntry(t, r, e).0)
  {
    var prepared := Prepare(r, e);
    hide Prepare;
    if prepared.Some? {
      var c := prepared.value;
      var holder := HolderOf(t, c);
      if holder.Some? {
        assert Same(Merged(t.rows[holder.value], c), t.rows[holder.value]);
      }
    }
  }

  function Blank(s: string, default: string): string {
    if Text.Trim(s) != "" then Text.Trim(s) else default
  }

  /** The resolver knows a uid for the name. */
  predicate Known(r: Resolver, name: string) {
    r.Resolver? && Text.Trim(name) != "" && r.uidOf(Text.Trim(name)).Some?
  }

  /** The name that an entry comes to: its own, or what the resolver says, possibly nothing. */
  function NameOf(r: Resolver, e: Entry): string {
    if Text.Trim(e.uid) != "" then
      if Text.Trim(e.name) != "" || r.NoResolver? || r.nameOf(Text.Trim(e.uid)).None? then Text.Trim(e.name)
      else Text.Trim(r.nameOf(Text.Trim(e.uid)).value)
    else if Known(r, e.name) && r.uidOf(Text.Trim(e.name)).value.1 != "" then r.uidOf(Text.Trim(e.name)).value.1
    else Text.Trim(e.name)
  }

  /**
     What an entry does, field by field. It fails exactly if it has no uid and none is known for its
     name, and is skipped exactly if its creator has been removed. A synced row has the uid that was
     given or found, the platform given or "bilibili", the status given or "active", and the name that
     the entry comes to or else the name it had.
   */
  lemma EntryTells(t: Table, r: Resolver, e: Entry)
    requires Sound(t)
    ensures var (after, outcome) := UpsertEntry(t, r, e);
      outcome.Failed? <==> Text.Trim(e.uid) == "" && !Known(r, e.name)
    ensures var (after, outcome) := UpsertEntry(t, r, e);
      outcome.Failed? || outcome.Skipped? ==> after == t
    ensures var (after, outcome) := UpsertEntry(t, r, e);
      !outcome.Failed? ==>
        var uid := if Text.Trim(e.uid) != "" then Text.Trim(e.uid) else r.uidOf(Text.Trim(e.name)).value.0;
        var platform := Blank(e.platform, "bilibili");
        && (outcome.Skipped? <==>
              exists id :: id in t.rows && t.rows[id].uid == uid && t.rows[id].platform == platform
                           && t.rows[id].status == "removed")
        && (outcome.Synced? ==>
              var before := if outcome.id in t.rows then t.rows[outcome.id].name else "";
              && outcome.id in after.rows
              && after.rows[outcome.id] == Creator(platform, uid, if NameOf(r, e) != "" then NameOf(r, e) else before,
                                                   0, Blank(e.status, "active"))
              && forall id :: id != outcome.id ==> Look(after.rows, id) == Look(t.rows, id))
  {
    var prepared := Prepare(r, e);
    if prepared.Some? {
      var c := prepared.value;
      PreparedTells(r, e);
      hide Prepare, NameOf, Known, Blank;
      if id :| id in t.rows && t.rows[id].uid == c.uid && t.rows[id].platform == c.platform {
        OneHolder(t, c, id);
      }
    }
  }

  lemma PreparedTells(r: Resolver, e: Entry)
    ensures Prepare(r, e).None? <==> Text.Trim(e.uid) == "" && !Known(r, e.name)
    ensures Prepare(r, e).Some? ==>
      Prepare(r, e).value == Creator(
        Blank(e.platform, "bilibili"),
        if Text.Trim(e.uid) != "" then Text.Trim(e.uid) else r.uidOf(Text.Trim(e.name)).value.0,
        NameOf(r, e), 0, Blank(e.status, "active"))
  {
    Text.TrimAgain(e.uid);
  }

  /** The rows after the entries, and the ids that were synced. */
  ghost function UpsertAll(t: Table, r: Resolver, entries: seq<Entry>): (result: (Table, set<int>))
    requires Sound(t)
    ensures Sound(result.0)
  {
    if entries == [] then (t, {})
    else
      var (before, ids) := UpsertAll(t, r, entries[..|entries| - 1]);
      UpsertKeepsSound(before, r, entries[|entries| - 1]);
      var (after, outcome) := UpsertEntry(before, r, entries[|entries| - 1]);
      (after, if outcome.Synced? then ids + {outcome.id} else ids)
  }

  function Active(rows: map<int, Creator>): set<int> {
    set id | id in rows && rows[id].status == "active"
  }

  function Paused(rows: map<int, Creator>, ids: seq<int>, keep: set<int>): (paused: map<int, Creator>)
    ensures paused.Keys == rows.Keys
  {
    map id | id in rows :: if id in ids && id !in keep then rows[id].(status := "paused") else rows[id]
  }

  /** The ids that are not to be kept, in order. */
  function Missing(ids: seq<int>, keep: set<int>): seq<int> {
    if ids == [] then []
    else
      var last := ids[|ids| - 1];
      Missing(ids[..|ids| - 1], keep) + (if last in keep then [] else [last])
  }

  // ---- Facts about pages and pausing ---------------------------------------------------------

  lemma StartAtZero(t: Table)
    requires Sound(t)
    ensures Above(Active(t.rows), 0) == Active(t.rows)
  {
  }

  lemma NothingPaused(rows: map<int, Creator>, spared: set<int>)
    ensures Paused(rows, [], spared) == rows && Missing([], spared) == []
  {
  }

  /** Pausing creators at or below the cursor does not change what lies above it. */
  lemma StillActive(rows: map<int, Creator>, visited: seq<int>, spared: set<int>, last: int)
    requires forall id :: id in visited ==> id <= last
    ensures Above(Active(Paused(rows, visited, spared)), last) == Above(Active(rows), last)
  {
  }

  lemma PageStands(rows: map<int, Creator>, visited: seq<int>, spared: set<int>, last: int, limit: nat)
    requires forall id :: id in visited ==> id <= last
    ensures PageAfter(Active(Paused(rows, visited, spared)), last, limit) == PageAfter(Active(rows), last, limit)
  {
    StillActive(rows, visited, spared, last);
  }

  lemma ActiveRow(rows: map<int, Creator>, id: int)
    requires id in Active(rows)
    ensures id in rows
  {
  }

  lemma OneMore(rows: map<int, Creator>, visited: seq<int>, spared: set<int>, id: int)
    requires id in rows
    ensures var p := Paused(rows, visited, spared);
      Paused(rows, visited + [id], spared) == if id in spared then p else p[id := p[id].(status := "paused")]
    ensures Missing(visited + [id], spared) == Missing(visited, spared) + (if id in spared then [] else [id])
  {
    assert (visited + [id])[..|visited|] == visited;
  }

  class Service {
    const resolver: Resolver
    const pageSize: nat
    var rows: map<int, Creator>
    var next: int
    var published: seq<int>   // creator.changed events

    ghost function State(): Table
      reads this
    {
      Table(rows, next)
    }

    constructor (resolver: Resolver, pageSize: nat, rows: map<int, Creator>, next: int)
      ensures this.resolver == resolver && this.pageSize == pageSize
      ensures this.rows == rows && this.next == next && published == []
    {
      this.resolver, this.pageSize := resolver, pageSize;
      this.rows, this.next, published := rows, next, [];
    }

    method FindByPlatformUid(c: Creator) returns (found: Option<int>)
      requires Sound(State())
      ensures found == HolderOf(State(), c)
    {
      var todo := rows.Keys;
      while todo != {}
        invariant todo <= rows.Keys
        invariant forall id :: id in rows && id !in todo ==> !Same(rows[id], c)
        decreases todo
      {
        ghost var some := AnyOf(todo);
        var id :| id in todo;
        if Same(rows[id], c) {
          OneHolder(State(), c, id);
          return Some(id);
        }
        todo := todo - {id};
      }
      return None;
    }

    method UpsertFromFile(e: Entry) returns (outcome: Outcome)
      requires Sound(State())
      modifies this
      ensures (State(), outcome) == UpsertEntry(old(State()), resolver, e) && Sound(State())
      ensures published == old(published) + (if outcome.Synced? then [outcome.id] else [])
    {
      hide Prepare, Merged, Sound;
      UpsertKeepsSound(State(), resolver, e);
      var prepared := Prepare(resolver, e);
      if prepared.None? {
        return Failed;
      }
      var c := prepared.value;
      var found := FindByPlatformUid(c);
      if found.Some? && rows[found.value].status == "removed" {
        return Skipped;
      }
      var id;
      if found.Some? {
        id := found.value;
        rows := rows[id := Merged(rows[id], c)];
      } else {
        id := next;
        rows := rows[id := c];
        next := next + 1;
      }
      published := published + [id];
      return Synced(id);
    }

    /**
     Updates that fail are skipped. The cursor moves over every creator that was active at the
     start exactly once, in order, whatever the page size.
     */
    method PauseMissingActive(keep: set<int>, failing: set<int>) returns (paused: nat, ghost visited: seq<int>)
      requires Sound(State()) && pageSize > 0
      modifies `rows, `published
      ensures rows == Paused(old(rows), visited, keep + failing)
      ensures visited == Ascending(Active(old(rows)))
      ensures published == old(published) + Missing(visited, keep + failing) && paused == |published| - |old(published)|
    {
      hide Paused, Missing, Active, Above, PageAfter, Sound, StrictlyAscending;
      ghost var start, spared := rows, keep + failing;
      ghost var active := Active(start);
      var last := 0;
      paused, visited := 0, [];
      StartAtZero(State());
      NothingPaused(start, spared);
      while true
        invariant visited + Ascending(Above(active, last)) == Ascending(active)
        invariant forall id :: id in visited ==> id <= last
        invariant rows == Paused(start, visited, spared)
        invariant published == old(published) + Missing(visited, spared) && paused == |Missing(visited, spared)|
        decreases |Ascending(Above(active, last))|
      {
        PageStands(start, visited, spared, last, pageSize);
        var page := ListAfter(Active(rows), last, pageSize);
        if page == [] {
          EmptyPage(active, last, pageSize);
          assert visited + [] == visited;
          break;
        }
        ghost var before, from := visited, last;
        for i := 0 to |page|
          invariant visited == before + page[..i] && rows.Keys == start.Keys
          invariant last == if i == 0 then from else page[i - 1]
          invariant rows == Paused(start, visited, spared)
          invariant published == old(published) + Missing(visited, spared) && paused == |Missing(visited, spared)|
        {
          PageClimbs(active, from, pageSize, i);
          ActiveRow(start, page[i]);
          last := page[i];
          assert before + page[..i + 1] == visited + [page[i]];
          OneMore(start, visited, spared, page[i]);
          visited := visited + [page[i]];
          if page[i] in keep || page[i] in failing {
            continue;
          }
          rows := rows[page[i] := rows[page[i]].(status := "paused")];
          published := published + [page[i]];
          paused := paused + 1;
        }
        PageMovesOn(active, before, from, pageSize);
        assert page[..|page|] == page;
        VisitedBelow(active, before, from, pageSize);
      }
    }
  }

  /** The file syncer; the file's time and size and its parsed entries are parameters. */
  class FileSyncer {
    const service: Service
    var lastModTime: int
    var lastSize: int

    constructor (service: Service)
      ensures this.service == service && lastModTime == 0 && lastSize == 0
    {
      this.service := service;
      lastModTime, lastSize := 0, 0;
    }

    /** A file that is missing, unchanged or malformed leaves everything as it is. */
    method SyncOnce(force: bool, stat: Option<(int, int)>, parsed: Option<seq<Entry>>, failing: set<int>)
      requires Sound(service.State()) && service.pageSize > 0
      modifies this, service
      ensures var unread := stat.None? || parsed.None?
          || (!force && stat.value.0 <= old(lastModTime) && stat.value.1 == old(lastSize));
        if unread then unchanged(this) && unchanged(service)
        else
          && Synced(old(service.State()), parsed.value, failing)
          && lastModTime == stat.value.0 && lastSize == stat.value.1
    {
      if stat.None? {
        return;
      }
      var (modTime, size) := stat.value;
      if !force && !(modTime > lastModTime) && size == lastSize {
        return;
      }
      if parsed.None? {
        return;
      }
      var entries := parsed.value;
      var activeIds: set<int> := {};
      ghost var start := service.State();
      for i := 0 to |entries|
        invariant Sound(service.State())
        invariant (service.State(), activeIds) == UpsertAll(start, service.resolver, entries[..i])
      {
        assert entries[..i + 1][..i] == entries[..i];
        var outcome := service.UpsertFromFile(entries[i]);
        if outcome.Synced? {
          activeIds := activeIds + {outcome.id};
        }
      }
      assert entries[..|entries|] == entries;
      lastModTime, lastSize := modTime, size;
      var paused, visited := service.PauseMissingActive(activeIds, failing);
    }

    ghost predicate Synced(start: Table, entries: seq<Entry>, failing: set<int>)
      requires Sound(start)
      reads this, service
    {
      service.State() == AfterSync(start, service.resolver, entries, failing)
    }
  }

  // ---- What a sync achieves ------------------------------------------------------------------

  ghost function AfterSync(t: Table, r: Resolver, entries: seq<Entry>, failing: set<int>): Table
    requires Sound(t)
  {
    var (mid, keep) := UpsertAll(t, r, entries);
    mid.(rows := Paused(mid.rows, Ascending(Active(mid.rows)), keep + failing))
  }

  /** Entry i asked for the row that id holds, and no later entry did unless the row is removed. */
  ghost predicate DecidedBy(row: Creator, r: Resolver, entries: seq<Entry>, i: int) {
    && 0 <= i < |entries|
    && Asks(r, entries[i], row) && Prepare(r, entries[i]).value.status == row.status
    && forall j :: i < j < |entries| && Asks(r, entries[j], row) ==> row.status == "removed"
  }

  predicate Asks(r: Resolver, e: Entry, row: Creator) {
    Prepare(r, e).Some? && Same(Prepare(r, e).value, row)
  }

  lemma EntryReads(t: Table, r: Resolver, e: Entry, id: int)
    requires Sound(t)
    ensures var (after, outcome) := UpsertEntry(t, r, e);
      outcome == Synced(id) ==>
        && id in after.rows && Asks(r, e, after.rows[id])
        && after.rows[id].status == Prepare(r, e).value.status
        && (id in t.rows ==> t.rows[id].status != "removed")
    ensures var (after, outcome) := UpsertEntry(t, r, e);
      outcome != Synced(id) ==> Look(after.rows, id) == Look(t.rows, id)
    ensures var (after, outcome) := UpsertEntry(t, r, e);
      outcome != Synced(id) && id in t.rows && Asks(r, e, t.rows[id]) ==> t.rows[id].status == "removed"
  {
    var prepared := Prepare(r, e);
    hide Prepare;
    if prepared.Some? && id in t.rows && Same(prepared.value, t.rows[id]) {
      OneHolder(t, prepared.value, id);
    }
  }

  /** A synced id has the status of the last entry that asked for it, unless that was "removed". */
  lemma {:induction false} SyncedRows(t: Table, r: Resolver, entries: seq<Entry>, id: int) returns (i: int)
    requires Sound(t)
    ensures var (mid, keep) := UpsertAll(t, r, entries);
      id in keep ==> id in mid.rows && DecidedBy(mid.rows[id], r, entries, i)
    ensures var (mid, keep) := UpsertAll(t, r, entries); id !in keep ==> Look(mid.rows, id) == Look(t.rows, id)
    ensures var (mid, keep) := UpsertAll(t, r, entries); id in t.rows && t.rows[id].status == "removed" ==> id !in keep
  {
    hide Prepare, Same, Sound;
    i := 0;
    if entries != [] {
      var n := |entries| - 1;
      var (before, ids) := UpsertAll(t, r, entries[..n]);
      i := SyncedRows(t, r, entries[..n], id);
      EntryReads(before, r, entries[n], id);
      assert forall j :: 0 <= j < n ==> entries[..n][j] == entries[j];
      if UpsertEntry(before, r, entries[n]).1 == Synced(id) {
        i := n;
      }
    }
  }

  /**
     With no failing update, the active creators are exactly the synced ids whose status after
     the upserts is active; rows that were already removed and rows that were not active are as
     the upserts left them, and the others change only their status.
   */
  lemma SyncIsExact(t: Table, r: Resolver, entries: seq<Entry>, id: int)
    requires Sound(t)
    ensures var (mid, keep) := UpsertAll(t, r, entries);
      id in Active(AfterSync(t, r, entries, {}).rows) <==>
        id in keep && id in mid.rows && mid.rows[id].status == "active"
    ensures id in t.rows && t.rows[id].status == "removed" ==>
      Look(AfterSync(t, r, entries, {}).rows, id) == Look(t.rows, id)
    ensures id in t.rows && id !in UpsertAll(t, r, entries).1 ==>
      Look(AfterSync(t, r, entries, {}).rows, id)
        == Some(if t.rows[id].status == "active" then t.rows[id].(status := "paused") else t.rows[id])
  {
    hide Prepare, Same, Sound;
    var (mid, keep) := UpsertAll(t, r, entries);
    var i := SyncedRows(t, r, entries, id);
    AscendingExact(Active(mid.rows));
    assert id in Active(mid.rows) <==> id in mid.rows && mid.rows[id].status == "active";
  }

  /** A creator is active after a sync only if the entry that decides its row says so. */
  lemma ActiveOnlyIfNamed(t: Table, r: Resolver, entries: seq<Entry>, id: int) returns (i: int)
    requires Sound(t) && id in Active(AfterSync(t, r, entries, {}).rows)
    ensures DecidedBy(UpsertAll(t, r, entries).0.rows[id], r, entries, i)
    ensures Prepare(r, entries[i]).value.status == "active"
  {
    hide Prepare, Same;
    SyncIsExact(t, r, entries, id);
    i := SyncedRows(t, r, entries, id);
  }

  // ---- The exact condition, on the entries ---------------------------------------------------

  /**
     The entry that decides the creator's row: the last one that asks for it, but once an entry
     has asked for "removed" no later one is heard.
   */
  function Decider(r: Resolver, entries: seq<Entry>, c: Creator): (i: Option<nat>)
    ensures i.Some? ==> i.value < |entries| && Asks(r, entries[i.value], c)
  {
    if entries == [] then None
    else
      var n := |entries| - 1;
      var earlier := Decider(r, entries[..n], c);
      if Asks(r, entries[n], c) && (earlier.None? || Prepare(r, entries[earlier.value]).value.status != "removed")
      then Some(n)
      else earlier
  }

  /** The creator was removed before the sync. */
  ghost predicate WasRemoved(t: Table, c: Creator) {
    exists id :: Holds(t, c, id) && t.rows[id].status == "removed"
  }

  ghost predicate IsActive(t: Table, c: Creator) {
    exists id :: Holds(t, c, id) && t.rows[id].status == "active"
  }

  lemma SameHolder(t: Table, c: Creator, d: Creator)
    requires Sound(t) && Same(c, d)
    ensures HolderOf(t, c) == HolderOf(t, d)
  {
    var id := HolderOf(t, c);
    if id.Some? {
      OneHolder(t, d, id.value);
    } else if HolderOf(t, d).Some? {
      OneHolder(t, c, HolderOf(t, d).value);
    }
  }

  /** What the upserts leave of a creator: its row, and whether its id was synced. */
  ghost predicate Settled(t: Table, r: Resolver, entries: seq<Entry>, c: Creator, after: (Table, set<int>))
    requires Sound(t)
  {
    var held, decider := HolderOf(after.0, c), Decider(r, entries, c);
    if WasRemoved(t, c) then
      held.Some? && after.0.rows[held.value].status == "removed" && held.value !in after.1
    else if decider.None? then
      held == HolderOf(t, c)
      && (held.Some? ==> held.value !in after.1 && after.0.rows[held.value] == t.rows[held.value])
    else
      held.Some? && held.value in after.1
      && after.0.rows[held.value].status == Prepare(r, entries[decider.value]).value.status
  }

  /** An entry that asks for another creator, or for none, leaves this one's row alone. */
  lemma OtherEntry(t: Table, r: Resolver, e: Entry, c: Creator)
    requires Sound(t) && !Asks(r, e, c)
    ensures var (after, outcome) := UpsertEntry(t, r, e);
      && Sound(after) && HolderOf(after, c) == HolderOf(t, c)
      && (HolderOf(t, c).Some? ==>
            && after.rows[HolderOf(t, c).value] == t.rows[HolderOf(t, c).value]
            && outcome != Synced(HolderOf(t, c).value))
  {
    UpsertKeepsSound(t, r, e);
    var (after, outcome) := UpsertEntry(t, r, e);
    var id := HolderOf(t, c);
    if id.Some? {
      EntryReads(t, r, e, id.value);
      assert outcome != Synced(id.value);
      OneHolder(after, c, id.value);
    } else if HolderOf(after, c).Some? {
      EntryReads(t, r, e, HolderOf(after, c).value);
    }
  }

  /** An entry that asks for this creator changes its row, unless the creator is removed. */
  lemma AskingEntry(t: Table, r: Resolver, e: Entry, c: Creator)
    requires Sound(t) && Asks(r, e, c)
    ensures var (after, outcome) := UpsertEntry(t, r, e); var held := HolderOf(t, c);
      && Sound(after)
      && if held.Some? && t.rows[held.value].status == "removed" then after == t && outcome.Skipped?
         else
           && outcome.Synced? && HolderOf(after, c) == Some(outcome.id)
           && after.rows[outcome.id].status == Prepare(r, e).value.status
  {
    UpsertKeepsSound(t, r, e);
    var d := Prepare(r, e).value;
    hide Prepare;
    SameHolder(t, d, c);
    var (after, outcome) := UpsertEntry(t, r, e);
    if outcome.Synced? {
      OneHolder(after, d, outcome.id);
      SameHolder(after, d, c);
    }
  }

  lemma {:induction false} UpsertsSettle(t: Table, r: Resolver, entries: seq<Entry>, c: Creator)
    requires Sound(t)
    ensures Settled(t, r, entries, c, UpsertAll(t, r, entries))
  {
    hide Prepare, Same, Sound;
    if entries == [] {
      SettledAtStart(t, r, c);
    } else {
      var n := |entries| - 1;
      var front, e := entries[..n], entries[n];
      var (before, ids) := UpsertAll(t, r, front);
      UpsertsSettle(t, r, front, c);
      var earlier := Decider(r, front, c);
      assert earlier.Some? ==> front[earlier.value] == entries[earlier.value];
      if Asks(r, e, c) {
        AskingEntry(before, r, e, c);
        if WasRemoved(t, c) {
          RemovedHolder(t, c);
        } else if earlier.None? {
          NotRemovedHolder(t, c);
        }
      } else {
        OtherEntry(before, r, e, c);
      }
    }
  }

  lemma SettledAtStart(t: Table, r: Resolver, c: Creator)
    requires Sound(t)
    ensures Settled(t, r, [], c, (t, {}))
  {
    if WasRemoved(t, c) {
      RemovedHolder(t, c);
    }
  }

  lemma RemovedHolder(t: Table, c: Creator)
    requires Sound(t) && WasRemoved(t, c)
    ensures HolderOf(t, c).Some? && t.rows[HolderOf(t, c).value].status == "removed"
  {
    var id :| Holds(t, c, id) && t.rows[id].status == "removed";
    OneHolder(t, c, id);
  }

  lemma NotRemovedHolder(t: Table, c: Creator)
    requires !WasRemoved(t, c)
    ensures HolderOf(t, c).Some? ==> t.rows[HolderOf(t, c).value].status != "removed"
  {
  }

  /**
     A creator is active after a sync without failing updates if and only if it was not removed
     before and the entry that decides it exists and says active. An entry whose uid cannot be
     found out asks for nobody, so it does not keep its creator active.
   */
  lemma ActiveIffDecided(t: Table, r: Resolver, entries: seq<Entry>, c: Creator)
    requires Sound(t)
    ensures IsActive(AfterSync(t, r, entries, {}), c) <==>
      (&& !WasRemoved(t, c)
       && Decider(r, entries, c).Some?
       && Prepare(r, entries[Decider(r, entries, c).value]).value.status == "active")
  {
    hide Prepare, Same, Sound, Paused, Active;
    var (mid, keep) := UpsertAll(t, r, entries);
    var final, held := AfterSync(t, r, entries, {}), HolderOf(mid, c);
    UpsertsSettle(t, r, entries, c);
    if id :| Holds(final, c, id) && final.rows[id].status == "active" {
      PausedRow(mid.rows, keep, c, id);
      OneHolder(mid, c, id);
    }
    if held.Some? {
      PausedRow(mid.rows, keep, c, held.value);
      assert final.rows[held.value].status == "active" ==> Holds(final, c, held.value);
    }
  }

  lemma PausedRow(rows: map<int, Creator>, keep: set<int>, c: Creator, id: int)
    ensures var paused := Paused(rows, Ascending(Active(rows)), keep + {});
      && (id in paused <==> id in rows)
      && (id in rows ==> Same(paused[id], c) == Same(rows[id], c))
      && (id in rows ==> (paused[id].status == "active" <==> rows[id].status == "active" && id in keep))
  {
    AscendingExact(Active(rows));
  }

  /** An active creator whose entries all fail is paused. */
  lemma FailedEntryPauses(t: Table, r: Resolver, entries: seq<Entry>, id: int)
    requires Sound(t) && id in t.rows && t.rows[id].status == "active"
    requires forall i :: 0 <= i < |entries| ==> Prepare(r, entries[i]).None?
    ensures Look(AfterSync(t, r, entries, {}).rows, id) == Some(t.rows[id].(status := "paused"))
  {
    hide Prepare, Same, Sound;
    SyncIsExact(t, r, entries, id);
    var i := SyncedRows(t, r, entries, id);
  }

  /** For example: a file with one entry that has a name but no uid, and a resolver that does not
      know the name. */
  lemma UnknownNamePauses(t: Table, r: Resolver, name: string, id: int)
    requires Sound(t) && id in t.rows && t.rows[id].status == "active"
    requires r.Resolver? && r.uidOf(Text.Trim(name)) == None
    ensures Look(AfterSync(t, r, [Entry("", name, "", "")], {}).rows, id) == Some(t.rows[id].(status := "paused"))
  {
    hide Sound;
    assert Text.Trim("") == "";
    FailedEntryPauses(t, r, [Entry("", name, "", "")], id);
  }
}
