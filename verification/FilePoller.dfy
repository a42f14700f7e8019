/**
 The polling file watcher: two recordings of a file or directory, compared entry by entry over the larger
 of the two, then exchanged.  The file system's answers are parameters.
 */
module FilePoller {
  import opened Wrappers
  import opened Collections

  datatype FileInfo = FileInfo(isDir: bool, mode: nat, modTime: int, size: int)

  type Entries = map<string, FileInfo>

  datatype Op = NoOp | Create | Remove | Chmod | Write

  /** An event is about the watched item itself or about an entry of the watched directory. */
  datatype Path = Whole | Entry(name: string)
  datatype Event = Event(op: Op, path: Path)

  function CheckChange(fi1: Option<FileInfo>, fi2: Option<FileInfo>): Op {
    if fi1.None? && fi2.Some? then Create
    else if fi1.Some? && fi2.None? then Remove
    else if fi1.None? && fi2.None? then NoOp
    else if fi1.value.isDir || fi2.value.isDir then NoOp
    else if fi1.value.mode != fi2.value.mode then Chmod
    else if fi1.value.modTime != fi2.value.modTime || fi1.value.size != fi2.value.size then Write
    else NoOp
  }

  function Lookup(entries: Entries, name: string): Option<FileInfo> {
    if name in entries then Some(entries[name]) else None
  }

  /** The true operation that leads from one listing to the other at a name. */
  function Change(before: Entries, after: Entries, name: string): Op {
    CheckChange(Lookup(before, name), Lookup(after, name))
  }

  // ---------------------------------------------------------------- recordings

  datatype Stat = StatFails | Missing | Found(fi: FileInfo)
  datatype Listing = ListingFails | Vanished | Listed(fis: seq<(string, FileInfo)>)

  /** What the file system answers during one recording. */
  datatype Disk = Disk(stat: Stat, listing: Listing)

  datatype Snapshot = Snapshot(info: Option<FileInfo>, entries: Entries)

  function Collect(fis: seq<(string, FileInfo)>): Entries {
    if fis == [] then map[] else Collect(fis[..|fis| - 1])[fis[|fis| - 1].0 := fis[|fis| - 1].1]
  }

  /** What a recording holds afterwards, whatever it held before. */
  function Seen(disk: Disk): Snapshot {
    if !disk.stat.Found? then Snapshot(None, map[])
    else Snapshot(Some(disk.stat.fi),
                  if disk.stat.fi.isDir && disk.listing.Listed? then Collect(disk.listing.fis) else map[])
  }

  predicate Fails(disk: Disk) {
    disk.stat.StatFails? || (disk.stat.Found? && disk.stat.fi.isDir && disk.listing.ListingFails?)
  }

  class Recording {
    var info: Option<FileInfo>
    var entries: Entries

    constructor ()
      ensures View() == Snapshot(None, map[])
    {
      info, entries := None, map[];
    }

    ghost function View(): Snapshot
      reads this
    {
      Snapshot(info, entries)
    }

    method Clear()
      modifies this
      ensures View() == Snapshot(None, map[])
    {
      info := None;
      while entries.Keys != {}
        invariant info.None?
        decreases |entries|
      {
        var name :| name in entries.Keys;
        ghost var was := entries;
        entries := entries - {name};
        assert was.Keys == entries.Keys + {name};
        assert |was| == |was.Keys| && |entries| == |entries.Keys|;
      }
    }

    method Record(disk: Disk) returns (failed: bool)
      modifies this
      ensures View() == Seen(disk) && failed == Fails(disk)
    {
      Clear();
      if disk.stat.StatFails? { return true; }
      if disk.stat.Missing? { return false; }
      info := Some(disk.stat.fi);
      if disk.stat.fi.isDir {
        if disk.listing.ListingFails? { return true; }
        if disk.listing.Vanished? { return false; }
        var fis := disk.listing.fis;
        var i := 0;
        while i < |fis|
          invariant 0 <= i <= |fis| && info == Some(disk.stat.fi) && entries == Collect(fis[..i])
        {
          entries := entries[fis[i].0 := fis[i].1];
          i := i + 1;
          assert fis[..i][..i - 1] == fis[..i - 1];
        }
        assert fis[..i] == fis;
      }
      return false;
    }
  }

  // ---------------------------------------------------------------- what a poll reports

  /** The listing that is scanned: the one after only if it is larger. */
  function Scanned(before: Entries, after: Entries): Entries {
    if |after| > |before| then after else before
  }

  /** One event with the true operation for every changed name of the scanned listing, and no other event. */
  ghost predicate Reports(evs: seq<Event>, before: Entries, after: Entries) {
    && Distinct(evs)
    && (forall e | e in evs ::
          e.path.Entry? && e.path.name in Scanned(before, after) && e.op == Change(before, after, e.path.name)
          && e.op != NoOp)
    && (forall name | name in Scanned(before, after) && Change(before, after, name) != NoOp ::
          Event(Change(before, after, name), Entry(name)) in evs)
  }

  ghost predicate PollReports(before: Snapshot, disk: Disk, evs: seq<Event>, failed: bool) {
    var after := Seen(disk);
    var op := CheckChange(before.info, after.info);
    && failed == Fails(disk)
    && if failed then evs == []
       else if op != NoOp then evs == [Event(op, Whole)]
       else if before.info.None? || !before.info.value.isDir then evs == []
       else Reports(evs, before.entries, after.entries)
  }

  class ItemToWatch {
    var left: Recording
    var right: Recording?

    ghost predicate Valid()
      reads this
    {
      left != right
    }

    /** The snapshot the next poll compares with. */
    ghost function Baseline(): Snapshot
      reads this, left
    {
      left.View()
    }

    constructor (r: Recording)
      ensures Valid() && Baseline() == r.View() && left == r && right == null
    {
      left, right := r, null;
    }

    method CheckForChanges(disk: Disk) returns (evs: seq<Event>, failed: bool)
      requires Valid()
      modifies this`right, right
      ensures Valid() && right != null && (old(right) == null ==> fresh(right))
              && (old(right) != null ==> right == old(right))
      ensures Baseline() == old(Baseline()) && right.View() == Seen(disk)
      ensures PollReports(Baseline(), disk, evs, failed)
    {
      if right == null { right := new Recording(); }
      failed := right.Record(disk);
      if failed { return [], true; }
      var dirOp := CheckChange(left.info, right.info);
      if dirOp != NoOp { return [Event(dirOp, Whole)], false; }
      if left.info.None? || !left.info.value.isDir { return [], false; }
      evs := Scan(left.entries, right.entries);
    }

    /** One tick of the watch loop: the new recording becomes the baseline, also when recording failed. */
    method Poll(disk: Disk) returns (evs: seq<Event>, failed: bool)
      requires Valid()
      modifies this, left, right
      ensures Valid() && Baseline() == Seen(disk)
      ensures right == old(left) && (left == old(right) || fresh(left))
      ensures PollReports(old(Baseline()), disk, evs, failed)
    {
      evs, failed := CheckForChanges(disk);
      left, right := right, left;
    }
  }

  /** The scan of the larger listing, in whatever order its map yields. */
  method Scan(before: Entries, after: Entries) returns (evs: seq<Event>)
    ensures Reports(evs, before, after)
  {
    var leftIsIn := false;
    var left, right := before, after;
    if |right| > |left| {
      left, right := right, left;
      leftIsIn := true;
    }
    evs := [];
    var todo := left.Keys;
    while todo != {}
      invariant todo <= left.Keys && Distinct(evs)
      invariant forall e | e in evs ::
                  e.path.Entry? && e.path.name in left.Keys - todo && e.op == Change(before, after, e.path.name)
                  && e.op != NoOp
      invariant forall name | name in left.Keys - todo && Change(before, after, name) != NoOp ::
                  Event(Change(before, after, name), Entry(name)) in evs
      decreases |todo|
    {
      var name :| name in todo;
      var fil, fir := Lookup(left, name), Lookup(right, name);
      if leftIsIn { fil, fir := fir, fil; }
      var op := CheckChange(fil, fir);
      todo := todo - {name};
      if op != NoOp {
        evs := evs + [Event(op, Entry(name))];
      }
    }
  }

  // ---------------------------------------------------------------- what that is worth

  /** The listing that is not scanned. */
  function Skipped(before: Entries, after: Entries): Entries {
    if |after| > |before| then before else after
  }

  /** The changed names for which there is no event. */
  ghost function Omitted(before: Entries, after: Entries): set<string> {
    set name | name in before.Keys + after.Keys && name !in Scanned(before, after)
        && Change(before, after, name) != NoOp
  }

  lemma OmittedAreTheSkippedOnly(before: Entries, after: Entries)
    ensures Omitted(before, after) == Skipped(before, after).Keys - Scanned(before, after).Keys
  {
  }

  /** Of two sets the larger has at least as many elements of its own. */
  lemma LargerHasMoreOfItsOwn(small: set<string>, large: set<string>)
    requires |small| <= |large|
    ensures |small - large| <= |large - small|
  {
    assert small == (small - large) + (small * large);
    assert large == (large - small) + (small * large);
  }

  /** The names of the events, which are as many as the events. */
  lemma {:induction false} EventNames(evs: seq<Event>) returns (names: set<string>)
    requires Distinct(evs) && forall e | e in evs :: e.path.Entry?
    ensures |names| <= |evs| && forall e | e in evs :: e.path.name in names
    ensures forall name | name in names :: exists e :: e in evs && e.path.name == name
  {
    if evs == [] {
      names := {};
    } else {
      var last := evs[|evs| - 1];
      var rest := evs[..|evs| - 1];
      var before := EventNames(rest);
      names := before + {last.path.name};
      assert evs == rest + [last];
      forall name | name in names
        ensures exists e :: e in evs && e.path.name == name
      {
        if name in before {
          var e :| e in rest && e.path.name == name;
          assert e in evs;
        } else {
          assert last in evs && last.path.name == name;
        }
      }
    }
  }

  /** At least as many events as omitted changes: a poll reports at least half of what happened. */
  lemma AtLeastHalfIsReported(evs: seq<Event>, before: Entries, after: Entries)
    requires Reports(evs, before, after)
    ensures |Omitted(before, after)| <= |evs|
  {
    var scanned, skipped := Scanned(before, after).Keys, Skipped(before, after).Keys;
    assert |skipped| <= |scanned| by {
      assert |before| == |before.Keys| && |after| == |after.Keys|;
    }
    OmittedAreTheSkippedOnly(before, after);
    LargerHasMoreOfItsOwn(skipped, scanned);
    var names := EventNames(evs);
    forall name | name in scanned - skipped
      ensures name in names
    {
      assert Event(Change(before, after, name), Entry(name)) in evs;
    }
    SubsetIsSmaller(scanned - skipped, names);
  }

  /** Detection: there is an event exactly when some name, in either listing, has changed. */
  lemma EventExactlyWhenChanged(evs: seq<Event>, before: Entries, after: Entries)
    requires Reports(evs, before, after)
    ensures evs != [] <==> exists name :: Change(before, after, name) != NoOp
  {
    if evs != [] {
      var e := evs[0];
      assert e in evs;
      assert Change(before, after, e.path.name) != NoOp;
    }
    if name :| Change(before, after, name) != NoOp {
      AtLeastHalfIsReported(evs, before, after);
      assert name in Scanned(before, after) || name in Omitted(before, after);
    }
  }

  /** Every change is reported exactly when the smaller listing has no name of its own. */
  lemma EveryChangeReportedExactlyWhen(evs: seq<Event>, before: Entries, after: Entries)
    requires Reports(evs, before, after)
    ensures (forall name | Change(before, after, name) != NoOp ::
               Event(Change(before, after, name), Entry(name)) in evs)
            <==> Skipped(before, after).Keys <= Scanned(before, after).Keys
  {
    OmittedAreTheSkippedOnly(before, after);
    if name :| name in Skipped(before, after).Keys && name !in Scanned(before, after).Keys {
      assert Change(before, after, name) != NoOp;
      assert Event(Change(before, after, name), Entry(name)) !in evs;
    }
  }

  /** A renamed file is reported as removed, and its new name never as created. */
  lemma RenameIsOnlyARemoval(evs: seq<Event>, from: string, to: string, fi: FileInfo)
    requires from != to && Reports(evs, map[from := fi], map[to := fi])
    ensures forall e :: e in evs <==> e == Event(Remove, Entry(from))
    ensures Change(map[from := fi], map[to := fi], to) == Create
  {
    var before, after := map[from := fi], map[to := fi];
    assert |before| == 1 && |after| == 1 by {
      assert before.Keys == {from} && after.Keys == {to};
      assert |before| == |before.Keys| && |after| == |after.Keys|;
    }
    assert Change(before, after, from) == Remove;
  }

  // ---------------------------------------------------------------- whole runs of a watch

  datatype Report = Report(evs: seq<Event>, failed: bool)

  /** What the k-th poll compares with: what the previous one saw. */
  function Base(start: Snapshot, disks: seq<Disk>, k: nat): Snapshot
    requires k <= |disks|
  {
    if k == 0 then start else Seen(disks[k - 1])
  }

  ghost predicate WatchReports(start: Snapshot, disks: seq<Disk>, reports: seq<Report>) {
    && |reports| <= |disks|
    && forall k {:trigger reports[k]} | 0 <= k < |reports| ::
         PollReports(Base(start, disks, k), disks[k], reports[k].evs, reports[k].failed)
  }

  lemma OneMoreReport(start: Snapshot, disks: seq<Disk>, reports: seq<Report>, r: Report)
    requires WatchReports(start, disks, reports) && |reports| < |disks|
    requires PollReports(Base(start, disks, |reports|), disks[|reports|], r.evs, r.failed)
    ensures WatchReports(start, disks, reports + [r])
  {
  }

  /** The watch loop over the ticks until the poller is closed: two recordings serve for all of them. */
  method Watch(item: ItemToWatch, disks: seq<Disk>) returns (reports: seq<Report>)
    requires item.Valid()
    modifies item, item.left, item.right
    ensures item.Valid() && item.Baseline() == Base(old(item.Baseline()), disks, |disks|)
    ensures |reports| == |disks| && WatchReports(old(item.Baseline()), disks, reports)
  {
    reports := [];
    ghost var start := item.Baseline();
    while |reports| < |disks|
      invariant item.Valid() && |reports| <= |disks|
      invariant item.left == old(item.left) || item.left == old(item.right) || fresh(item.left)
      invariant item.right == old(item.left) || item.right == old(item.right) || fresh(item.right)
      invariant item.Baseline() == Base(start, disks, |reports|)
      invariant WatchReports(start, disks, reports)
    {
      var evs, failed := item.Poll(disks[|reports|]);
      OneMoreReport(start, disks, reports, Report(evs, failed));
      reports := reports + [Report(evs, failed)];
    }
  }

  predicate IsDirectory(s: Snapshot) { s.info.Some? && s.info.value.isDir }

  /** Nothing was reported up to the k-th poll, of a directory that stayed one. */
  ghost predicate Silent(start: Snapshot, disks: seq<Disk>, reports: seq<Report>, k: nat) {
    && WatchReports(start, disks, reports) && k <= |reports|
    && (forall j | 0 <= j < k :: reports[j] == Report([], false))
    && (forall j | 0 <= j <= k :: IsDirectory(Base(start, disks, j)))
  }

  predicate FileThroughout(start: Snapshot, disks: seq<Disk>, k: nat, name: string)
    requires k <= |disks|
  {
    forall j | 0 <= j <= k :: var entries := Base(start, disks, j).entries; name in entries ==> !entries[name].isDir
  }

  /**
   A silent watch has seen the same names throughout, and the same mode, time and size for every name that
   was never a directory itself.
   */
  lemma {:induction false} SilenceMeansUnchanged(start: Snapshot, disks: seq<Disk>, reports: seq<Report>, k: nat,
                                                 name: string)
    requires Silent(start, disks, reports, k)
    ensures name in Base(start, disks, k).entries <==> name in start.entries
    ensures FileThroughout(start, disks, k, name) ==>
              Lookup(Base(start, disks, k).entries, name) == Lookup(start.entries, name)
  {
    if k > 0 {
      assert Silent(start, disks, reports, k - 1);
      SilenceMeansUnchanged(start, disks, reports, k - 1, name);
      var before, after := Base(start, disks, k - 1), Base(start, disks, k);
      assert PollReports(before, disks[k - 1], reports[k - 1].evs, reports[k - 1].failed);
      assert reports[k - 1] == Report([], false) && IsDirectory(before) && IsDirectory(after);
      SilentStep(before.entries, after.entries);
    }
  }

  lemma SilentStep(before: Entries, after: Entries)
    requires Reports([], before, after)
    ensures before.Keys == after.Keys
    ensures forall name | name in before && !before[name].isDir && !after[name].isDir :: after[name] == before[name]
  {
    EventExactlyWhenChanged([], before, after);
    forall name
      ensures name in before <==> name in after
      ensures name in before && !before[name].isDir && !after[name].isDir ==> after[name] == before[name]
    {
      assert Change(before, after, name) == NoOp;
    }
  }

  /**
   A poll that cannot even stat the item forgets it: the next one that can reports a creation and nothing
   else, whatever changed.
   */
  lemma FailedStatForgets(start: Snapshot, disks: seq<Disk>, reports: seq<Report>, k: nat)
    requires WatchReports(start, disks, reports) && k + 1 < |reports|
    requires disks[k].stat.StatFails? && disks[k + 1].stat.Found? && !Fails(disks[k + 1])
    ensures reports[k] == Report([], true) && reports[k + 1] == Report([Event(Create, Whole)], false)
  {
    assert PollReports(Base(start, disks, k), disks[k], reports[k].evs, reports[k].failed);
    assert PollReports(Base(start, disks, k + 1), disks[k + 1], reports[k + 1].evs, reports[k + 1].failed);
  }

  /**
   A poll that cannot list the directory forgets its entries: the next one reports every entry as created,
   and no other event.
   */
  lemma FailedListingForgets(start: Snapshot, disks: seq<Disk>, reports: seq<Report>, k: nat)
    requires WatchReports(start, disks, reports) && k + 1 < |reports|
    requires IsDirectory(Seen(disks[k])) && disks[k].listing.ListingFails?
    requires IsDirectory(Seen(disks[k + 1])) && !Fails(disks[k + 1])
    ensures reports[k] == Report([], true)
    ensures forall e :: e in reports[k + 1].evs <==>
            e.op == Create && e.path.Entry? && e.path.name in Seen(disks[k + 1]).entries
  {
    var before, after := Seen(disks[k]), Seen(disks[k + 1]);
    assert PollReports(Base(start, disks, k), disks[k], reports[k].evs, reports[k].failed);
    assert PollReports(before, disks[k + 1], reports[k + 1].evs, reports[k + 1].failed);
    assert before.entries == map[];
    assert Reports(reports[k + 1].evs, map[], after.entries);
    assert after.entries != map[] ==> |after.entries| > 0;
    forall e
      ensures e in reports[k + 1].evs <==> e.op == Create && e.path.Entry? && e.path.name in after.entries
    {
      if e.op == Create && e.path.Entry? && e.path.name in after.entries {
        assert Change(map[], after.entries, e.path.name) == Create;
        assert e == Event(Create, Entry(e.path.name));
      }
    }
  }
}
