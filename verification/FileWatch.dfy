/** host/internal/server/file_watch_poller.go: file events from comparing two scans. */
module FileWatch {
  import opened Text
  import opened StringOrder

  datatype Entry = Entry(isDir: bool, size: int, modTime: int, symlinkTgt: string)
  type Snapshot = map<string, Entry>

  datatype Change = Deleted | Created | Modified
  datatype Event = Event(path: string, change: Change)

  predicate HasPrefix(s: string, prefix: string) {
    prefix <= s
  }

  /** The path is an errored path, lies below one, or the root itself failed. */
  predicate UnderErr(path: string, errPaths: set<string>) {
    path in errPaths || "." in errPaths || exists ep :: ep in errPaths && HasPrefix(path, ep + "/")
  }

  function DeletedPaths(before: Snapshot, after: Snapshot, errPaths: set<string>): set<string> {
    set p | p in before && p !in after && !UnderErr(p, errPaths)
  }

  function CreatedPaths(before: Snapshot, after: Snapshot): set<string> {
    set p | p in after && p !in before
  }

  predicate Differs(a: Entry, b: Entry) {
    !b.isDir && (a.size != b.size || a.modTime != b.modTime || a.symlinkTgt != b.symlinkTgt)
  }

  function ModifiedPaths(before: Snapshot, after: Snapshot): set<string> {
    set p | p in after && p in before && Differs(before[p], after[p])
  }

  function Tag(paths: seq<string>, change: Change): seq<Event> {
    seq(|paths|, i requires 0 <= i < |paths| => Event(paths[i], change))
  }

  /** Deletions, then creations, then modifications, each strictly ascending. */
  ghost predicate IsDiff(events: seq<Event>, before: Snapshot, after: Snapshot, errPaths: set<string>) {
    exists d, c, m ::
      && Lists(d, DeletedPaths(before, after, errPaths))
      && Lists(c, CreatedPaths(before, after))
      && Lists(m, ModifiedPaths(before, after))
      && events == Tag(d, Deleted) + Tag(c, Created) + Tag(m, Modified)
  }

  /** order is the order in which the loop visits the errored paths. */
  method IsUnderErrPath(path: string, errPaths: set<string>, order: seq<string>) returns (under: bool)
    requires forall ep :: ep in order <==> ep in errPaths
    ensures under == UnderErr(path, errPaths)
  {
    if |errPaths| == 0 {
      return false;
    }
    if path in errPaths {
      return true;
    }
    for i := 0 to |order|
      invariant forall j :: 0 <= j < i ==> order[j] != "." && !HasPrefix(path, order[j] + "/")
    {
      var ep := order[i];
      assert ep in errPaths;
      if ep == "." {
        return true;
      }
      if ep + "/" <= path {
        assert HasPrefix(path, ep + "/");
        return true;
      }
    }
    under := false;
  }

  ghost predicate Visits(order: seq<string>, keys: set<string>) {
    Distinct(order) && forall p :: p in order <==> p in keys
  }

  lemma Snoc(s: seq<string>, i: nat, found: seq<string>)
    requires i < |s| && Distinct(s) && Distinct(found) && forall p :: p in found ==> p in s[..i]
    ensures s[..i + 1] == s[..i] + [s[i]] && Distinct(found + [s[i]])
    ensures s[i] !in s[..i]
  {
    assert forall k :: 0 <= k < |s[..i]| ==> s[..i][k] == s[k];
    assert forall k :: 0 <= k < |found| ==> found[k] in found;
  }

  method FindDeleted(before: Snapshot, after: Snapshot, errPaths: set<string>, order: seq<string>, errOrder: seq<string>)
    returns (deleted: seq<string>)
    requires Visits(order, before.Keys) && forall ep :: ep in errOrder <==> ep in errPaths
    ensures Lists(deleted, DeletedPaths(before, after, errPaths))
  {
    deleted := [];
    for i := 0 to |order|
      invariant Distinct(deleted)
      invariant forall p :: p in deleted <==> p in order[..i] && p !in after && !UnderErr(p, errPaths)
    {
      Snoc(order, i, deleted);
      if order[i] !in after {
        var under := IsUnderErrPath(order[i], errPaths, errOrder);
        if !under {
          deleted := deleted + [order[i]];
        }
      }
    }
    assert order[..|order|] == order;
    SortLists(deleted);
    deleted := Sort(deleted);
  }

  method FindCreated(before: Snapshot, after: Snapshot, order: seq<string>) returns (created: seq<string>)
    requires Visits(order, after.Keys)
    ensures Lists(created, CreatedPaths(before, after))
  {
    created := [];
    for i := 0 to |order|
      invariant Distinct(created)
      invariant forall p :: p in created <==> p in order[..i] && p !in before
    {
      Snoc(order, i, created);
      if order[i] !in before {
        created := created + [order[i]];
      }
    }
    assert order[..|order|] == order;
    SortLists(created);
    created := Sort(created);
  }

  method FindModified(before: Snapshot, after: Snapshot, order: seq<string>) returns (modified: seq<string>)
    requires Visits(order, after.Keys)
    ensures Lists(modified, ModifiedPaths(before, after))
  {
    modified := [];
    for i := 0 to |order|
      invariant Distinct(modified)
      invariant forall p :: p in modified <==> p in order[..i] && p in before && p in after && Differs(before[p], after[p])
    {
      Snoc(order, i, modified);
      var path := order[i];
      assert path in after.Keys;
      if path in before && !after[path].isDir {
        if before[path].size != after[path].size || before[path].modTime != after[path].modTime ||
           before[path].symlinkTgt != after[path].symlinkTgt {
          modified := modified + [path];
        }
      }
    }
    assert order[..|order|] == order;
    SortLists(modified);
    modified := Sort(modified);
  }

  /** diffSnapshots; the orders are those of its loops over the two maps. */
  method DiffSnapshots(before: Snapshot, after: Snapshot, errPaths: set<string>,
                       oldOrder: seq<string>, newOrder: seq<string>, newOrder2: seq<string>, errOrder: seq<string>)
    returns (events: seq<Event>)
    requires Visits(oldOrder, before.Keys) && Visits(newOrder, after.Keys) && Visits(newOrder2, after.Keys)
    requires forall ep :: ep in errOrder <==> ep in errPaths
    ensures IsDiff(events, before, after, errPaths)
  {
    var deleted := FindDeleted(before, after, errPaths, oldOrder, errOrder);
    var created := FindCreated(before, after, newOrder);
    var modified := FindModified(before, after, newOrder2);
    events := Tag(deleted, Deleted) + Tag(created, Created) + Tag(modified, Modified);
  }

  /** The result does not depend on the order in which the maps were visited. */
  lemma DiffIsDeterministic(e1: seq<Event>, e2: seq<Event>, before: Snapshot, after: Snapshot, errPaths: set<string>)
    requires IsDiff(e1, before, after, errPaths) && IsDiff(e2, before, after, errPaths)
    ensures e1 == e2
  {
    var d1, c1, m1 :| Lists(d1, DeletedPaths(before, after, errPaths)) && Lists(c1, CreatedPaths(before, after)) &&
      Lists(m1, ModifiedPaths(before, after)) && e1 == Tag(d1, Deleted) + Tag(c1, Created) + Tag(m1, Modified);
    var d2, c2, m2 :| Lists(d2, DeletedPaths(before, after, errPaths)) && Lists(c2, CreatedPaths(before, after)) &&
      Lists(m2, ModifiedPaths(before, after)) && e2 == Tag(d2, Deleted) + Tag(c2, Created) + Tag(m2, Modified);
    ListsOnce(d1, d2, DeletedPaths(before, after, errPaths));
    ListsOnce(c1, c2, CreatedPaths(before, after));
    ListsOnce(m1, m2, ModifiedPaths(before, after));
  }

  // ---------------------------------------------------------------------------
  // Which events there are
  // ---------------------------------------------------------------------------

  /** A scan error covers the path: at the path, at a directory above it, or at the root. */
  predicate Covered(path: string, errPaths: set<string>) {
    "." in errPaths || path in errPaths || exists n :: 0 <= n < |path| && path[n] == '/' && path[..n] in errPaths
  }

  lemma CoveredExactly(path: string, errPaths: set<string>)
    ensures UnderErr(path, errPaths) <==> Covered(path, errPaths)
  {
    if ep :| ep in errPaths && HasPrefix(path, ep + "/") {
      assert path[|ep|] == (ep + "/")[|ep|] && path[..|ep|] == ep;
    }
    if n :| 0 <= n < |path| && path[n] == '/' && path[..n] in errPaths {
      assert path[..n] + "/" == path[..n + 1];
      assert HasPrefix(path, path[..n] + "/");
    }
  }

  predicate SameFile(a: Entry, b: Entry) {
    a.size == b.size && a.modTime == b.modTime && a.symlinkTgt == b.symlinkTgt
  }

  lemma TaggedEvents(paths: seq<string>, change: Change, path: string, what: Change)
    ensures Event(path, what) in Tag(paths, change) <==> what == change && path in paths
  {
    if path in paths {
      var i :| 0 <= i < |paths| && paths[i] == path;
      assert Tag(paths, change)[i] == Event(path, change);
    }
  }

  /** Main result: exactly when a path is reported, and as what.  Deleted, when it vanished
      and no scan error covers it; created, when it is new; modified, when it is there in both
      scans, is no directory now, and its size, time or link target differ. */
  lemma EventsExactly(events: seq<Event>, before: Snapshot, after: Snapshot, errPaths: set<string>, path: string)
    requires IsDiff(events, before, after, errPaths)
    ensures Event(path, Deleted) in events <==> path in before && path !in after && !Covered(path, errPaths)
    ensures Event(path, Created) in events <==> path in after && path !in before
    ensures Event(path, Modified) in events <==>
            path in before && path in after && !after[path].isDir && !SameFile(before[path], after[path])
  {
    var d, c, m :| Lists(d, DeletedPaths(before, after, errPaths)) && Lists(c, CreatedPaths(before, after)) &&
      Lists(m, ModifiedPaths(before, after)) && events == Tag(d, Deleted) + Tag(c, Created) + Tag(m, Modified);
    CoveredExactly(path, errPaths);
    hide Covered, UnderErr, Tag;
    forall what
      ensures Event(path, what) in events <==>
              (what == Deleted && path in d) || (what == Created && path in c) || (what == Modified && path in m)
    {
      TaggedEvents(d, Deleted, path, what);
      TaggedEvents(c, Created, path, what);
      TaggedEvents(m, Modified, path, what);
      assert Event(path, what) in events <==>
             Event(path, what) in Tag(d, Deleted) || Event(path, what) in Tag(c, Created) || Event(path, what) in Tag(m, Modified);
    }
  }

  function Rank(change: Change): nat {
    match change
    case Deleted => 0
    case Created => 1
    case Modified => 2
  }

  /** Deletions come first, then creations, then modifications; each group ascends by path. */
  lemma EventsOrdered(events: seq<Event>, before: Snapshot, after: Snapshot, errPaths: set<string>, i: nat, j: nat)
    requires IsDiff(events, before, after, errPaths) && i < j < |events|
    ensures Rank(events[i].change) <= Rank(events[j].change)
    ensures events[i].change == events[j].change ==> Less(events[i].path, events[j].path)
  {
    var d, c, m :| Lists(d, DeletedPaths(before, after, errPaths)) && Lists(c, CreatedPaths(before, after)) &&
      Lists(m, ModifiedPaths(before, after)) && events == Tag(d, Deleted) + Tag(c, Created) + Tag(m, Modified);
    hide Less, DeletedPaths, CreatedPaths, ModifiedPaths;
  }

  // ---------------------------------------------------------------------------
  // A client that applies the events
  // ---------------------------------------------------------------------------

  function Apply(events: seq<Event>, paths: set<string>): set<string> {
    if events == [] then paths
    else
      var last := events[|events| - 1];
      var rest := Apply(events[..|events| - 1], paths);
      match last.change
      case Deleted => rest - {last.path}
      case Created => rest + {last.path}
      case Modified => rest
  }

  lemma {:induction false} ApplyTagged(events: seq<Event>, paths: seq<string>, change: Change, mirror: set<string>)
    ensures Apply(events + Tag(paths, change), mirror) ==
            var rest := Apply(events, mirror);
            match change
            case Deleted => rest - (set p | p in paths)
            case Created => rest + (set p | p in paths)
            case Modified => rest
  {
    if paths == [] {
      assert events + Tag(paths, change) == events;
    } else {
      var front, last := paths[..|paths| - 1], paths[|paths| - 1];
      var all := events + Tag(paths, change);
      assert all[..|all| - 1] == events + Tag(front, change);
      ApplyTagged(events, front, change, mirror);
      assert paths == front + [last];
    }
  }

  /** Paths that vanished from the scan but whose deletion was suppressed. */
  function Suppressed(before: Snapshot, after: Snapshot, errPaths: set<string>): set<string> {
    set p | p in before && p !in after && UnderErr(p, errPaths)
  }

  lemma ApplyDiff(events: seq<Event>, before: Snapshot, after: Snapshot, errPaths: set<string>, mirror: set<string>)
    requires IsDiff(events, before, after, errPaths)
    ensures Apply(events, mirror) == mirror - DeletedPaths(before, after, errPaths) + CreatedPaths(before, after)
  {
    var d, c, m :| Lists(d, DeletedPaths(before, after, errPaths)) && Lists(c, CreatedPaths(before, after)) &&
      Lists(m, ModifiedPaths(before, after)) && events == Tag(d, Deleted) + Tag(c, Created) + Tag(m, Modified);
    ApplyTagged(Tag(d, Deleted) + Tag(c, Created), m, Modified, mirror);
    ApplyTagged(Tag(d, Deleted), c, Created, mirror);
    assert [] + Tag(d, Deleted) == Tag(d, Deleted);
    ApplyTagged([], d, Deleted, mirror);
    assert (set p | p in d) == DeletedPaths(before, after, errPaths);
    assert (set p | p in c) == CreatedPaths(before, after);
  }

  /** Main result: applied to the old paths, the events give the new paths plus exactly the
      deletions suppressed under errored paths. */
  lemma EventsLeadToNewPaths(events: seq<Event>, before: Snapshot, after: Snapshot, errPaths: set<string>)
    requires IsDiff(events, before, after, errPaths)
    ensures Apply(events, before.Keys) == after.Keys + Suppressed(before, after, errPaths)
    ensures after.Keys !! Suppressed(before, after, errPaths)
  {
    ApplyDiff(events, before, after, errPaths, before.Keys);
  }

  // ---------------------------------------------------------------------------
  // Runs of ticks
  // ---------------------------------------------------------------------------

  datatype Scan = Scan(snapshot: Snapshot, errPaths: set<string>, events: seq<Event>)

  /** The poller's snapshot and a client's paths; stale are the paths the client has and the
      snapshot has not. */
  datatype World = World(snapshot: Snapshot, mirror: set<string>)

  function Tick(w: World, scan: Scan): World {
    World(scan.snapshot, Apply(scan.events, w.mirror))
  }

  function Run(w: World, scans: seq<Scan>): World {
    if scans == [] then w else Tick(Run(w, scans[..|scans| - 1]), scans[|scans| - 1])
  }

  ghost predicate Reported(w: World, scans: seq<Scan>) {
    forall i :: 0 <= i < |scans| ==>
      IsDiff(scans[i].events, Run(w, scans[..i]).snapshot, scans[i].snapshot, scans[i].errPaths)
  }

  function Stale(w: World): set<string> {
    w.mirror - w.snapshot.Keys
  }

  /** One tick: stale paths stay until they are created again, and the suppressed ones join
      them. */
  lemma TickExact(w: World, scan: Scan)
    requires IsDiff(scan.events, w.snapshot, scan.snapshot, scan.errPaths) && w.snapshot.Keys <= w.mirror
    ensures scan.snapshot.Keys <= Tick(w, scan).mirror
    ensures Stale(Tick(w, scan)) == Stale(w) - scan.snapshot.Keys + Suppressed(w.snapshot, scan.snapshot, scan.errPaths)
  {
    ApplyDiff(scan.events, w.snapshot, scan.snapshot, scan.errPaths, w.mirror);
  }

  /** One more scan is one more tick. */
  lemma ReportedFront(w: World, scans: seq<Scan>)
    requires scans != [] && Reported(w, scans)
    ensures var front, last := scans[..|scans| - 1], scans[|scans| - 1];
            Reported(w, front) && IsDiff(last.events, Run(w, front).snapshot, last.snapshot, last.errPaths)
  {
    var front := scans[..|scans| - 1];
    hide IsDiff, Run;
    forall i | 0 <= i < |front|
      ensures IsDiff(front[i].events, Run(w, front[..i]).snapshot, front[i].snapshot, front[i].errPaths)
    {
      assert front[..i] == scans[..i] && front[i] == scans[i];
    }
  }

  predicate Clean(scans: seq<Scan>) {
    forall i :: 0 <= i < |scans| ==> scans[i].errPaths == {}
  }

  /** Main result: over any run of ticks the client's paths contain the snapshot, and they
      equal it as long as no scan had errors. */
  lemma {:induction false} MirrorContainsSnapshot(baseline: Snapshot, scans: seq<Scan>)
    requires Reported(World(baseline, baseline.Keys), scans)
    ensures var w := Run(World(baseline, baseline.Keys), scans);
            w.snapshot.Keys <= w.mirror && (Clean(scans) ==> w.mirror == w.snapshot.Keys)
  {
    if scans != [] {
      var w0, front, last := World(baseline, baseline.Keys), scans[..|scans| - 1], scans[|scans| - 1];
      hide IsDiff, Apply, Suppressed, Reported;
      ReportedFront(w0, scans);
      MirrorContainsSnapshot(baseline, front);
      var mid := Run(w0, front);
      TickExact(mid, last);
      assert Run(w0, scans) == Tick(mid, last);
      if Clean(scans) {
        assert Clean(front) && last.errPaths == {};
        NoErrors(mid.snapshot, last.snapshot);
        NothingStale(mid);
        NothingStale(Tick(mid, last));
      }
    }
  }

  lemma NothingStale(w: World)
    requires w.snapshot.Keys <= w.mirror
    ensures Stale(w) == {} <==> w.mirror == w.snapshot.Keys
  {
    assert w.mirror == Stale(w) + w.snapshot.Keys;
  }

  lemma NoErrors(before: Snapshot, after: Snapshot)
    ensures Suppressed(before, after, {}) == {}
  {
  }

  /** A stale path never heals: while scans do not see it again, no later scan, however
      clean, takes it away from the client. */
  lemma {:induction false} StaleForever(w: World, scans: seq<Scan>, path: string)
    requires Reported(w, scans) && w.snapshot.Keys <= w.mirror && path in Stale(w)
    requires forall i :: 0 <= i < |scans| ==> path !in scans[i].snapshot
    ensures Run(w, scans).snapshot.Keys <= Run(w, scans).mirror && path in Stale(Run(w, scans))
  {
    if scans != [] {
      var front := scans[..|scans| - 1];
      hide IsDiff, Apply, Suppressed, Reported;
      ReportedFront(w, scans);
      StaleForever(w, front, path);
      TickExact(Run(w, front), scans[|scans| - 1]);
    }
  }

  /** What a client knows of one file, that looks at it again at each event about it. */
  function Known(baseline: Entry, scans: seq<Scan>, path: string): Entry
    requires forall i :: 0 <= i < |scans| ==> path in scans[i].snapshot
  {
    if scans == [] then baseline
    else
      var last := scans[|scans| - 1];
      if Event(path, Created) in last.events || Event(path, Modified) in last.events then last.snapshot[path]
      else Known(baseline, scans[..|scans| - 1], path)
  }

  /** Over any run in which the path stays a file, a client that looks when told knows its
      size, time and link target. */
  lemma {:induction false} KnownIsCurrent(baseline: Snapshot, scans: seq<Scan>, path: string)
    requires Reported(World(baseline, baseline.Keys), scans) && path in baseline
    requires forall i :: 0 <= i < |scans| ==> path in scans[i].snapshot && !scans[i].snapshot[path].isDir
    ensures var now := Run(World(baseline, baseline.Keys), scans).snapshot;
            path in now && SameFile(Known(baseline[path], scans, path), now[path])
  {
    if scans != [] {
      var w0, front, last := World(baseline, baseline.Keys), scans[..|scans| - 1], scans[|scans| - 1];
      hide IsDiff, Apply, Reported;
      ReportedFront(w0, scans);
      assert forall i :: 0 <= i < |front| ==> front[i] == scans[i];
      KnownIsCurrent(baseline, front, path);
      EventsExactly(last.events, Run(w0, front).snapshot, last.snapshot, last.errPaths, path);
    }
  }

  // ---------------------------------------------------------------------------
  // The poller object
  // ---------------------------------------------------------------------------

  class FileWatchPoller {
    var snapshot: Snapshot
    var scanning: bool

    constructor (baseline: Snapshot)
      ensures snapshot == baseline && !scanning
    {
      snapshot := baseline;
      scanning := false;
    }

    /** tick up to the scan; false when another tick is scanning. */
    method TickEnter() returns (go: bool)
      modifies this`scanning
      ensures go == !old(scanning) && scanning
    {
      if scanning {
        return false;
      }
      scanning := true;
      go := true;
    }

    /** tick after the scan: the snapshot is replaced and the difference reported. */
    method TickScanned(newSnap: Snapshot, errPaths: set<string>, oldOrder: seq<string>, newOrder: seq<string>,
                       newOrder2: seq<string>, errOrder: seq<string>)
      returns (events: seq<Event>)
      requires scanning
      requires Visits(oldOrder, snapshot.Keys) && Visits(newOrder, newSnap.Keys) && Visits(newOrder2, newSnap.Keys)
      requires forall ep :: ep in errOrder <==> ep in errPaths
      modifies this
      ensures !scanning && snapshot == newSnap && IsDiff(events, old(snapshot), newSnap, errPaths)
    {
      var oldSnap := snapshot;
      snapshot := newSnap;
      events := DiffSnapshots(oldSnap, newSnap, errPaths, oldOrder, newOrder, newOrder2, errOrder);
      scanning := false;
    }
  }
}
