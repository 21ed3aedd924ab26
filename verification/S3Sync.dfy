// The one-way mirror of a bucket folder: what one sync does to the local files, and that
// it converges over any history of the bucket.
module S3Sync {
  import opened Listings
  import opened Options

  datatype Key = Key(name: string)
  type Content = string

  /** A path below the destination, as its parts. */
  datatype Path = Path(parts: seq<string>)

  // ----- Where a key lands

  /** The text between slashes. */
  function Split(s: string): (parts: seq<string>)
    ensures parts != []
  {
    if s == "" then [""] else
      var rest := Split(s[1..]);
      if s[0] == '/' then [""] + rest else [[s[0]] + rest[0]] + rest[1..]
  }

  /** The parts of a POSIX path: empty and `.` segments drop out. */
  function Parts(segments: seq<string>): seq<string> {
    if segments == [] then []
    else (if segments[0] == "" || segments[0] == "." then [] else [segments[0]]) + Parts(segments[1..])
  }

  /** Where a key's relative name lands, or None when it would land outside the destination. */
  function Target(relative: string): Option<Path> {
    var parts := Parts(Split(relative));
    if parts == [] || (relative != "" && relative[0] == '/') || ".." in parts then None else Some(Path(parts))
  }

  /** A path that names a file below the destination: walking it never leaves it. */
  predicate Inside(p: Path) {
    && p.parts != []
    && (forall part :: part in p.parts ==> part != "" && part != "." && part != ".." && '/' !in part)
  }

  lemma {:induction false} SegmentsHoldNoSlash(s: string)
    ensures forall part :: part in Split(s) ==> '/' !in part
  {
    if s != "" {
      SegmentsHoldNoSlash(s[1..]);
      var rest := Split(s[1..]);
      assert rest[0] in rest;
      assert forall part :: part in rest[1..] ==> part in rest;
    }
  }

  lemma {:induction false} PartsKept(segments: seq<string>)
    ensures forall part :: part in Parts(segments) <==> part in segments && part != "" && part != "."
  {
    if segments != [] {
      PartsKept(segments[1..]);
      assert segments == [segments[0]] + segments[1..];
    }
  }

  /** A key is refused exactly when it is absolute, names nothing, or climbs; any other lands inside. */
  lemma TargetStaysInside(relative: string)
    ensures Target(relative).Some? ==> Inside(Target(relative).value)
    ensures Target(relative).None? <==>
      (relative != "" && relative[0] == '/') || ".." in Split(relative)
      || forall part :: part in Split(relative) ==> part == "" || part == "."
  {
    var segments := Split(relative);
    SegmentsHoldNoSlash(relative);
    PartsKept(segments);
    if Parts(segments) == [] {
      assert forall part :: part in segments ==> part !in Parts(segments);
    } else {
      assert Parts(segments)[0] in Parts(segments);
    }
  }

  lemma {:induction false} SplitAtSlash(a: string, b: string)
    requires '/' !in a
    ensures Split(a) == [a] && Split(a + "/" + b) == [a] + Split(b)
  {
    var s := a + "/" + b;
    if a == "" {
      assert s[1..] == b;
    } else {
      assert s[0] == a[0] && s[1..] == a[1..] + "/" + b;
      assert [a[0]] + a[1..] == a;
      SplitAtSlash(a[1..], b);
    }
  }

  /** The path's parts with a slash between each two. */
  function Join(parts: seq<string>): string
    requires parts != []
  {
    if |parts| == 1 then parts[0] else parts[0] + "/" + Join(parts[1..])
  }

  lemma {:induction false} SplitUndoesJoin(parts: seq<string>)
    requires parts != [] && forall part :: part in parts ==> '/' !in part
    ensures Split(Join(parts)) == parts
  {
    assert parts[0] in parts;
    if |parts| == 1 {
      SplitAtSlash(parts[0], "");
      assert parts == [parts[0]];
    } else {
      SplitUndoesJoin(parts[1..]);
      SplitAtSlash(parts[0], Join(parts[1..]));
    }
  }

  lemma {:induction false} JoinUndoesSplit(s: string)
    ensures Join(Split(s)) == s
  {
    if s != "" {
      JoinUndoesSplit(s[1..]);
      var rest := Split(s[1..]);
      assert s == [s[0]] + s[1..];
      if s[0] == '/' {
        assert ([""] + rest)[1..] == rest;
        assert s == "" + "/" + s[1..];
      } else {
        var parts := [[s[0]] + rest[0]] + rest[1..];
        assert parts[1..] == rest[1..];
        assert Join(parts) == [s[0]] + Join(rest);
      }
    }
  }

  /** A relative name without an empty or `.` segment. */
  predicate Normal(relative: string) {
    forall part :: part in Split(relative) ==> part != "" && part != "."
  }

  lemma {:induction false} NothingDropsOut(segments: seq<string>)
    ensures (forall part :: part in segments ==> part != "" && part != ".") <==> Parts(segments) == segments
  {
    if segments != [] {
      var first, rest := segments[0], segments[1..];
      assert segments == [first] + rest;
      if first == "" || first == "." {
        PartsAreFewer(rest);
        assert first in segments;
      } else {
        NothingDropsOut(rest);
        assert Parts(segments)[1..] == Parts(rest);
        assert forall part :: part in segments <==> part == first || part in rest;
      }
    }
  }

  lemma {:induction false} PartsAreFewer(segments: seq<string>)
    ensures |Parts(segments)| <= |segments|
  {
    if segments != [] {
      PartsAreFewer(segments[1..]);
    }
  }

  /** The names that land on a path hold exactly one normal name: the path itself. */
  lemma OneNormalNamePerTarget(relative: string, p: Path)
    requires Target(relative) == Some(p)
    ensures Normal(relative) <==> relative == Join(p.parts)
    ensures Target(Join(p.parts)) == Some(p)
  {
    TargetStaysInside(relative);
    assert forall part :: part in p.parts ==> '/' !in part;
    SplitUndoesJoin(p.parts);
    JoinUndoesSplit(relative);
    NothingDropsOut(Split(relative));
    NothingDropsOut(p.parts);
    var name := Join(p.parts);
    assert p.parts[0] in p.parts;
    assert name[0] == p.parts[0][0];
  }

  // ----- One sync

  datatype Obj = Obj(key: Key, relative: string, size: nat, modified: int)

  datatype File = File(content: Content, mtime: int)

  datatype Job = Job(obj: Obj, path: Path)

  predicate UpToDate(files: map<Path, File>, path: Path, obj: Obj) {
    path in files && |files[path].content| == obj.size && files[path].mtime >= obj.modified
  }

  /** The paths the listing wants, refused keys left out. */
  function WantedPaths(objects: seq<Obj>): (wanted: set<Path>)
    ensures forall p :: p in wanted <==> exists o :: o in objects && Target(o.relative) == Some(p)
  {
    if objects == [] then {} else
      var n := |objects| - 1;
      var target := Target(objects[n].relative);
      assert objects == objects[..n] + [objects[n]];
      WantedPaths(objects[..n]) + if target.Some? then {target.value} else {}
  }

  /** The downloads to run, in listing order. */
  function JobsFor(objects: seq<Obj>, files: map<Path, File>): seq<Job> {
    if objects == [] then [] else
      var n := |objects| - 1;
      var o := objects[n];
      var target := Target(o.relative);
      JobsFor(objects[..n], files)
      + if target.Some? && !UpToDate(files, target.value, o) then [Job(o, target.value)] else []
  }

  function RefusedIn(objects: seq<Obj>): nat {
    if objects == [] then 0 else
      var n := |objects| - 1;
      RefusedIn(objects[..n]) + if Target(objects[n].relative).None? then 1 else 0
  }

  /** What downloading a key gives: the content then in the bucket, or None when it fails. */
  type Downloads = Key -> Option<Content>

  function Downloaded(job: Job, downloads: Downloads): Option<File> {
    var content := downloads(job.obj.key);
    if content.Some? then Some(File(content.value, job.obj.modified)) else None
  }

  /** The path holds what one of its successful jobs wrote, or what it held before when none succeeded. */
  ghost predicate WrittenAt(before: map<Path, File>, after: map<Path, File>, jobs: seq<Job>, downloads: Downloads,
                            p: Path) {
    || (p in after && exists job :: job in jobs && job.path == p && Downloaded(job, downloads) == Some(after[p]))
    || ((p in before <==> p in after) && (p in before ==> after[p] == before[p])
        && forall job :: job in jobs && job.path == p ==> Downloaded(job, downloads).None?)
  }

  ghost predicate AllWritten(before: map<Path, File>, after: map<Path, File>, jobs: seq<Job>, downloads: Downloads) {
    forall p :: WrittenAt(before, after, jobs, downloads, p)
  }

  /** What a sync of a listing leaves: `mid` after the downloads, `after` once the unwanted files are removed. */
  ghost predicate Synced(before: map<Path, File>, mid: map<Path, File>, after: map<Path, File>, objects: seq<Obj>,
                         delete: bool, downloads: Downloads, locked: set<Path>, status: nat) {
    var jobs, wanted := JobsFor(objects, before), WantedPaths(objects);
    && AllWritten(before, mid, jobs, downloads)
    && after == (if delete then map p | p in mid && (p in wanted || p in locked) :: mid[p] else mid)
    && status == (if RefusedIn(objects) == 0
                     && (forall job :: job in jobs ==> Downloaded(job, downloads).Some?)
                     && (delete ==> forall p :: p in mid && p !in wanted ==> p !in locked)
                  then 0 else 1)
  }

  /** The files below the destination. */
  class Mirror {
    var files: map<Path, File>

    constructor ()
      ensures files == map[]
    {
      files := map[];
    }

    /** The listing pass: what is wanted, what must be downloaded, and how many keys are refused. */
    method Plan(objects: seq<Obj>) returns (wanted: set<Path>, jobs: seq<Job>, failed: nat)
      ensures wanted == WantedPaths(objects) && jobs == JobsFor(objects, files) && failed == RefusedIn(objects)
    {
      failed, wanted, jobs := 0, {}, [];
      for i := 0 to |objects|
        invariant wanted == WantedPaths(objects[..i])
        invariant jobs == JobsFor(objects[..i], files) && failed == RefusedIn(objects[..i])
      {
        var obj := objects[i];
        assert objects[..i + 1][..i] == objects[..i];
        var path := Target(obj.relative);
        if path.None? {
          failed := failed + 1;
        } else {
          wanted := wanted + {path.value};
          if !UpToDate(files, path.value, obj) {
            jobs := jobs + [Job(obj, path.value)];
          }
        }
      }
      assert objects[..|objects|] == objects;
    }

    /** The downloads, in whatever order the pool runs them. */
    method RunJobs(jobs: seq<Job>, downloads: Downloads) returns (failed: nat)
      modifies this
      ensures AllWritten(old(files), files, jobs, downloads)
      ensures failed == 0 <==> forall job :: job in jobs ==> Downloaded(job, downloads).Some?
    {
      failed := 0;
      var left := Indices(|jobs|);
      ghost var ran: seq<Job> := [];
      while left != {}
        invariant left <= Indices(|jobs|)
        invariant forall i :: 0 <= i < |jobs| && i !in left ==> jobs[i] in ran
        invariant forall job :: job in ran ==> job in jobs
        invariant AllWritten(old(files), files, ran, downloads)
        invariant failed == 0 <==> forall job :: job in ran ==> Downloaded(job, downloads).Some?
      {
        var i :| i in left;
        left := left - {i};
        var job := jobs[i];
        ghost var was := files;
        var file := Downloaded(job, downloads);
        if file.Some? {
          files := files[job.path := file.value];
        } else {
          failed := failed + 1;
        }
        OneMoreJob(old(files), was, files, ran, job, downloads);
        ran := ran + [job];
      }
      SameJobs(old(files), files, ran, jobs, downloads);
    }

    /** The removal pass over the files nothing wants. */
    method RemoveUnwanted(wanted: set<Path>, locked: set<Path>) returns (failed: nat)
      modifies this
      ensures files == map p | p in old(files) && (p in wanted || p in locked) :: old(files)[p]
      ensures failed == 0 <==> forall p :: p in old(files) && p !in wanted ==> p !in locked
    {
      failed := 0;
      var left := files.Keys;
      while left != {}
        invariant left <= old(files).Keys
        invariant files == map p | p in old(files) && (p in left || p in wanted || p in locked) :: old(files)[p]
        invariant failed == 0 <==> forall p :: p in old(files) && p !in left && p !in wanted ==> p !in locked
      {
        var path :| path in left;
        left := left - {path};
        if path !in wanted {
          if path in locked {
            failed := failed + 1;
          } else {
            files := files - {path};
          }
        }
      }
    }

    /** One sync of a listing (None when listing fails); the process exit status. */
    method Sync(listing: Option<seq<Obj>>, delete: bool, downloads: Downloads, locked: set<Path>) returns (status: nat)
      modifies this
      ensures listing.None? ==> status == 2 && files == old(files)
      ensures listing.Some? ==> exists mid :: Synced(old(files), mid, files, listing.value, delete, downloads, locked, status)
    {
      if listing.None? {
        return 2;
      }
      ghost var before := files;
      var wanted, jobs, failed := Plan(listing.value);
      var failedJobs := RunJobs(jobs, downloads);
      failed := failed + failedJobs;
      ghost var mid := files;
      if delete {
        var failedRemovals := RemoveUnwanted(wanted, locked);
        failed := failed + failedRemovals;
      }
      status := if failed > 0 then 1 else 0;
      assert Synced(before, mid, files, listing.value, delete, downloads, locked, status);
    }
  }

  lemma OneMoreJob(before: map<Path, File>, was: map<Path, File>, now: map<Path, File>, ran: seq<Job>, job: Job,
                   downloads: Downloads)
    requires AllWritten(before, was, ran, downloads)
    requires now == if Downloaded(job, downloads).Some? then was[job.path := Downloaded(job, downloads).value] else was
    ensures AllWritten(before, now, ran + [job], downloads)
  {
    forall p
      ensures WrittenAt(before, now, ran + [job], downloads, p)
    {
      assert WrittenAt(before, was, ran, downloads, p);
      assert job in ran + [job];
      if p != job.path || Downloaded(job, downloads).None? {
        assert p in was <==> p in now;
        if p in now && exists j :: j in ran && j.path == p && Downloaded(j, downloads) == Some(now[p]) {
          var j :| j in ran && j.path == p && Downloaded(j, downloads) == Some(now[p]);
          assert j in ran + [job];
        }
      }
    }
  }

  lemma SameJobs(before: map<Path, File>, after: map<Path, File>, ran: seq<Job>, jobs: seq<Job>, downloads: Downloads)
    requires AllWritten(before, after, ran, downloads)
    requires forall job :: job in ran <==> job in jobs
    ensures AllWritten(before, after, jobs, downloads)
  {
    forall p
      ensures WrittenAt(before, after, jobs, downloads, p)
    {
      assert WrittenAt(before, after, ran, downloads, p);
    }
  }

  // ----- One sync's promises

  lemma {:induction false} JobsListed(objects: seq<Obj>, files: map<Path, File>)
    ensures forall job :: job in JobsFor(objects, files) <==>
      job.obj in objects && Target(job.obj.relative) == Some(job.path) && !UpToDate(files, job.path, job.obj)
  {
    if objects != [] {
      var n := |objects| - 1;
      JobsListed(objects[..n], files);
      assert objects == objects[..n] + [objects[n]];
    }
  }

  /** Only wanted paths below the destination are written, and only unwanted ones are removed. */
  lemma SyncStaysInside(before: map<Path, File>, mid: map<Path, File>, after: map<Path, File>, objects: seq<Obj>,
                        delete: bool, downloads: Downloads, locked: set<Path>, status: nat, p: Path)
    requires Synced(before, mid, after, objects, delete, downloads, locked, status)
    ensures p in after && (p in before ==> after[p] != before[p]) ==> p in WantedPaths(objects) && Inside(p)
    ensures p in before && p !in after ==> delete && p !in WantedPaths(objects)
  {
    JobsListed(objects, before);
    assert WrittenAt(before, mid, JobsFor(objects, before), downloads, p);
    forall o | o in objects && Target(o.relative) == Some(p)
      ensures Inside(p)
    {
      TargetStaysInside(o.relative);
    }
  }

  /** A file whose download failed stays as it was, also under --delete. */
  lemma FailedKeyKeepsItsFile(before: map<Path, File>, mid: map<Path, File>, after: map<Path, File>, objects: seq<Obj>,
                              delete: bool, downloads: Downloads, locked: set<Path>, status: nat, o: Obj, p: Path)
    requires Synced(before, mid, after, objects, delete, downloads, locked, status)
    requires o in objects && Target(o.relative) == Some(p) && p in before
    requires forall o' :: o' in objects && Target(o'.relative) == Some(p) ==> downloads(o'.key).None?
    ensures p in after && after[p] == before[p]
  {
    JobsListed(objects, before);
    assert WrittenAt(before, mid, JobsFor(objects, before), downloads, p);
  }

  /** There is no file of the listed size and at least the listed time. */
  ghost predicate Stale(files: map<Path, File>, p: Path, o: Obj) {
    p !in files || |files[p].content| != o.size || files[p].mtime < o.modified
  }

  /** A listed key is downloaded exactly when its file is missing, of another size, or older. */
  lemma StaleIsDownloaded(objects: seq<Obj>, files: map<Path, File>, o: Obj, p: Path)
    ensures Job(o, p) in JobsFor(objects, files)
            <==> o in objects && Target(o.relative) == Some(p) && Stale(files, p, o)
  {
    JobsListed(objects, files);
  }

  /**
   * After a sync whose download of it succeeded, the only key that lands on a stale file, of another
   * size say, whatever its time, has left its content there, stamped with its own time.
   */
  lemma StaleIsReplaced(before: map<Path, File>, mid: map<Path, File>, after: map<Path, File>, objects: seq<Obj>,
                        delete: bool, downloads: Downloads, locked: set<Path>, status: nat, o: Obj, p: Path)
    requires Synced(before, mid, after, objects, delete, downloads, locked, status)
    requires o in objects && Target(o.relative) == Some(p) && Stale(before, p, o) && downloads(o.key).Some?
    requires forall o' :: o' in objects && Target(o'.relative) == Some(p) ==> o' == o
    ensures p in after && after[p] == File(downloads(o.key).value, o.modified)
  {
    StaleIsDownloaded(objects, before, o, p);
    JobsListed(objects, before);
    assert WrittenAt(before, mid, JobsFor(objects, before), downloads, p);
    assert p in WantedPaths(objects);
  }

  // ----- A history of the bucket

  datatype Version = Version(content: Content, modified: int)

  /**
   * What the bucket holds under the prefix, keys that end in a slash left out, every version
   * each key ever had, and the local files.
   */
  datatype World = World(bucket: map<Key, Version>, history: map<Key, seq<Version>>, files: map<Path, File>)

  datatype Event =
    | Put(key: Key, version: Version)
    | Remove(key: Key)
    | Sync(objects: seq<Obj>, delete: bool, downloads: Downloads, locked: set<Path>, status: nat, mid: map<Path, File>)

  function VersionsOf(history: map<Key, seq<Version>>, key: Key): seq<Version> {
    if key in history then history[key] else []
  }

  /** A version listed for a key: one the key has had. */
  ghost predicate Listable(w: World, o: Obj) {
    exists v :: v in VersionsOf(w.history, o.key) && o.size == |v.content| && o.modified == v.modified
  }

  /** A download gives a version at least as new as the one listed: the bucket may have moved on since. */
  ghost predicate Downloadable(w: World, o: Obj, downloads: Downloads) {
    downloads(o.key).Some? ==>
      exists v :: v in VersionsOf(w.history, o.key) && v.modified >= o.modified && v.content == downloads(o.key).value
  }

  /** `rel` gives each key's name below the prefix. */
  ghost predicate Enabled(w: World, e: Event, rel: Key -> string) {
    match e
    case Put(key, version) => forall v :: v in VersionsOf(w.history, key) ==> v.modified < version.modified
    case Remove(key) => true
    case Sync(objects, delete, downloads, locked, status, mid) =>
      forall o :: o in objects ==> o.relative == rel(o.key) && Listable(w, o) && Downloadable(w, o, downloads)
  }

  ghost predicate Step(w: World, e: Event, w': World, rel: Key -> string) {
    Enabled(w, e, rel) &&
    match e
    case Put(key, version) =>
      w' == w.(bucket := w.bucket[key := version], history := w.history[key := VersionsOf(w.history, key) + [version]])
    case Remove(key) => w' == w.(bucket := w.bucket - {key})
    case Sync(objects, delete, downloads, locked, status, mid) =>
      w' == w.(files := w'.files) && Synced(w.files, mid, w'.files, objects, delete, downloads, locked, status)
  }

  /** A run from an empty bucket and an empty destination that only syncs write to. */
  ghost predicate IsRun(worlds: seq<World>, events: seq<Event>, rel: Key -> string) {
    && |worlds| == |events| + 1 && worlds[0] == World(map[], map[], map[])
    && forall i :: 0 <= i < |events| ==> Step(worlds[i], events[i], worlds[i + 1], rel)
  }

  /** No two keys the bucket ever held land on one path. */
  ghost predicate DistinctTargets(w: World, rel: Key -> string) {
    forall k, k' :: k in w.history && k' in w.history && Target(rel(k)).Some? && Target(rel(k)) == Target(rel(k'))
        ==> k == k'
  }

  /** A local file is some version of the key that lands there, stamped no later than that version. */
  ghost predicate Provenance(w: World, rel: Key -> string, p: Path) {
    p in w.files && exists k, v :: StemsFrom(w, rel, p, k, v)
  }

  ghost predicate StemsFrom(w: World, rel: Key -> string, p: Path, k: Key, v: Version)
    requires p in w.files
  {
    && Target(rel(k)) == Some(p) && v in VersionsOf(w.history, k)
    && v.content == w.files[p].content && w.files[p].mtime <= v.modified
  }

  ghost predicate Inv(w: World, rel: Key -> string) {
    && (forall p :: p in w.files ==> Provenance(w, rel, p))
    && (forall k :: k in w.bucket ==> w.bucket[k] in VersionsOf(w.history, k))
    && (forall k, v :: k in w.bucket && v in VersionsOf(w.history, k) ==>
          v == w.bucket[k] || v.modified < w.bucket[k].modified)
  }

  lemma SyncKeepsProvenance(w: World, e: Event, w': World, rel: Key -> string)
    requires Inv(w, rel) && e.Sync? && Step(w, e, w', rel)
    ensures Inv(w', rel)
  {
    JobsListed(e.objects, w.files);
    forall p | p in w'.files
      ensures Provenance(w', rel, p)
    {
      assert WrittenAt(w.files, e.mid, JobsFor(e.objects, w.files), e.downloads, p);
      if p in w.files && w'.files[p] == w.files[p] {
        assert Provenance(w, rel, p);
        var k, v :| StemsFrom(w, rel, p, k, v);
        assert StemsFrom(w', rel, p, k, v);
      } else {
        var job :| job in JobsFor(e.objects, w.files) && job.path == p
            && Downloaded(job, e.downloads) == Some(w'.files[p]);
        var o := job.obj;
        assert Downloadable(w, o, e.downloads);
        var v :| v in VersionsOf(w.history, o.key) && v.modified >= o.modified && v.content == e.downloads(o.key).value;
        assert StemsFrom(w', rel, p, o.key, v);
      }
    }
  }

  /** A file keeps its provenance while its key only gains versions. */
  lemma ProvenanceKept(w: World, w': World, rel: Key -> string, p: Path)
    requires Provenance(w, rel, p) && p in w'.files && w'.files[p] == w.files[p]
    requires forall k, v :: v in VersionsOf(w.history, k) ==> v in VersionsOf(w'.history, k)
    ensures Provenance(w', rel, p)
  {
    var k, v :| StemsFrom(w, rel, p, k, v);
    assert StemsFrom(w', rel, p, k, v);
  }

  lemma BucketChangeKeepsInv(w: World, e: Event, w': World, rel: Key -> string)
    requires Inv(w, rel) && !e.Sync? && Step(w, e, w', rel)
    ensures Inv(w', rel)
  {
    HistoryGrows(w, e, w', rel);
    forall p | p in w'.files
      ensures Provenance(w', rel, p)
    {
      ProvenanceKept(w, w', rel, p);
    }
  }

  /** A change of the bucket keeps every version, and what the bucket holds is each key's newest. */
  lemma HistoryGrows(w: World, e: Event, w': World, rel: Key -> string)
    requires Inv(w, rel) && !e.Sync? && Step(w, e, w', rel)
    ensures forall k, v :: v in VersionsOf(w.history, k) ==> v in VersionsOf(w'.history, k)
    ensures forall k :: k in w'.bucket ==> w'.bucket[k] in VersionsOf(w'.history, k)
    ensures forall k, v :: k in w'.bucket && v in VersionsOf(w'.history, k) ==>
      v == w'.bucket[k] || v.modified < w'.bucket[k].modified
  {
  }

  lemma StepKeepsInv(w: World, e: Event, w': World, rel: Key -> string)
    requires Inv(w, rel) && Step(w, e, w', rel)
    ensures Inv(w', rel)
  {
    if e.Sync? {
      SyncKeepsProvenance(w, e, w', rel);
    } else {
      BucketChangeKeepsInv(w, e, w', rel);
    }
  }

  lemma RunSteps(worlds: seq<World>, events: seq<Event>, rel: Key -> string, i: nat)
    requires IsRun(worlds, events, rel) && i < |events|
    ensures Step(worlds[i], events[i], worlds[i + 1], rel)
  {
  }

  lemma {:induction false} RunKeepsInv(worlds: seq<World>, events: seq<Event>, rel: Key -> string, i: nat)
    requires IsRun(worlds, events, rel) && i < |worlds|
    ensures Inv(worlds[i], rel)
  {
    if i > 0 {
      RunKeepsInv(worlds, events, rel, i - 1);
      RunSteps(worlds, events, rel, i - 1);
      StepKeepsInv(worlds[i - 1], events[i - 1], worlds[i], rel);
    }
  }

  // ----- Convergence

  /** The sync listed the whole bucket as it is, and downloaded what is in it. */
  ghost predicate SawTheBucket(w: World, e: Event, rel: Key -> string)
    requires e.Sync?
  {
    && (forall o :: o in e.objects ==> o.key in w.bucket && o == ListedAs(w, rel, o.key))
    && (forall o :: o in e.objects && e.downloads(o.key).Some? ==>
          o.key in w.bucket && e.downloads(o.key).value == w.bucket[o.key].content)
    && (forall k :: k in w.bucket ==> ListedAs(w, rel, k) in e.objects)
  }

  /** How the bucket lists a key it holds. */
  ghost function ListedAs(w: World, rel: Key -> string, k: Key): Obj
    requires k in w.bucket
  {
    Obj(k, rel(k), |w.bucket[k].content|, w.bucket[k].modified)
  }

  /** The local files are the bucket's keys, each with its content. */
  ghost predicate IsMirror(w: World, rel: Key -> string) {
    && (forall p :: p in w.files ==> exists k :: k in w.bucket && Target(rel(k)) == Some(p))
    && (forall k :: k in w.bucket ==> Target(rel(k)).Some? && Target(rel(k)).value in w.files)
    && (forall k :: k in w.bucket ==> w.files[Target(rel(k)).value].content == w.bucket[k].content)
  }

  lemma {:induction false} NoneRefused(objects: seq<Obj>)
    requires RefusedIn(objects) == 0
    ensures forall o :: o in objects ==> Target(o.relative).Some?
  {
    if objects != [] {
      NoneRefused(objects[..|objects| - 1]);
    }
  }

  /** An up-to-date file holds the newest version: an older one cannot carry its time stamp. */
  lemma UpToDateIsNewest(w: World, rel: Key -> string, k: Key, p: Path, o: Obj)
    requires Inv(w, rel) && DistinctTargets(w, rel) && k in w.bucket && Target(rel(k)) == Some(p)
    requires o == ListedAs(w, rel, k) && UpToDate(w.files, p, o)
    ensures w.files[p].content == w.bucket[k].content
  {
    assert Provenance(w, rel, p);
    var k', v :| StemsFrom(w, rel, p, k', v);
    assert k' == k;
  }

  /** The one job for a key's path, if any, is the key's own. */
  lemma JobOfKey(w: World, e: Event, rel: Key -> string, k: Key, job: Job)
    requires Inv(w, rel) && DistinctTargets(w, rel) && e.Sync? && SawTheBucket(w, e, rel)
    requires k in w.bucket && job in JobsFor(e.objects, w.files) && Target(rel(k)) == Some(job.path)
    ensures job.obj == ListedAs(w, rel, k)
  {
    JobsListed(e.objects, w.files);
  }

  /** In a successful sync that saw the bucket, a key is wanted and has no job but its own. */
  lemma KeyIsPlanned(w: World, e: Event, w': World, rel: Key -> string, k: Key) returns (p: Path)
    requires Inv(w, rel) && DistinctTargets(w, rel) && e.Sync? && Step(w, e, w', rel) && SawTheBucket(w, e, rel)
    requires e.status == 0 && k in w.bucket
    ensures Target(rel(k)) == Some(p) && p in WantedPaths(e.objects)
    ensures forall job :: job in JobsFor(e.objects, w.files) && job.path == p ==> job.obj == ListedAs(w, rel, k)
    ensures !UpToDate(w.files, p, ListedAs(w, rel, k)) ==> Job(ListedAs(w, rel, k), p) in JobsFor(e.objects, w.files)
  {
    NoneRefused(e.objects);
    assert ListedAs(w, rel, k) in e.objects;
    p := Target(rel(k)).value;
    forall job | job in JobsFor(e.objects, w.files) && job.path == p
      ensures job.obj == ListedAs(w, rel, k)
    {
      JobOfKey(w, e, rel, k, job);
    }
    JobsListed(e.objects, w.files);
  }

  /** What one key's path holds after a successful sync that saw the bucket. */
  lemma SyncedKey(w: World, e: Event, w': World, rel: Key -> string, k: Key)
    requires Inv(w, rel) && DistinctTargets(w, rel) && e.Sync? && Step(w, e, w', rel) && SawTheBucket(w, e, rel)
    requires e.status == 0 && k in w.bucket
    ensures Target(rel(k)).Some? && Target(rel(k)).value in w'.files
    ensures UpToDate(w'.files, Target(rel(k)).value, ListedAs(w, rel, k))
    ensures w'.files[Target(rel(k)).value].content == w.bucket[k].content
  {
    var p := KeyIsPlanned(w, e, w', rel, k);
    var o := ListedAs(w, rel, k);
    assert o in e.objects;
    assert WrittenAt(w.files, e.mid, JobsFor(e.objects, w.files), e.downloads, p);
    KeyIsWritten(w, e, w', rel, k, p);
    if UpToDate(w.files, p, o) {
      UpToDateIsNewest(w, rel, k, p, o);
    }
  }

  /** A wanted path keeps its up-to-date file, or gets its job's download. */
  lemma KeyIsWritten(w: World, e: Event, w': World, rel: Key -> string, k: Key, p: Path)
    requires e.Sync? && Step(w, e, w', rel) && SawTheBucket(w, e, rel) && e.status == 0 && k in w.bucket
    requires p in WantedPaths(e.objects) && Target(rel(k)) == Some(p)
    requires forall job :: job in JobsFor(e.objects, w.files) && job.path == p ==> job.obj == ListedAs(w, rel, k)
    requires !UpToDate(w.files, p, ListedAs(w, rel, k)) ==> Job(ListedAs(w, rel, k), p) in JobsFor(e.objects, w.files)
    ensures UpToDate(w.files, p, ListedAs(w, rel, k)) ==>
              p in w'.files && (w'.files[p] == w.files[p] || w'.files[p] == File(w.bucket[k].content, w.bucket[k].modified))
    ensures !UpToDate(w.files, p, ListedAs(w, rel, k)) ==>
              p in w'.files && w'.files[p] == File(w.bucket[k].content, w.bucket[k].modified)
  {
    var o := ListedAs(w, rel, k);
    assert WrittenAt(w.files, e.mid, JobsFor(e.objects, w.files), e.downloads, p);
    if !UpToDate(w.files, p, o) {
      assert Downloaded(Job(o, p), e.downloads).Some?;
    }
  }

  lemma SyncMirrors(w: World, e: Event, w': World, rel: Key -> string)
    requires Inv(w, rel) && DistinctTargets(w, rel) && e.Sync? && Step(w, e, w', rel) && SawTheBucket(w, e, rel)
    requires e.status == 0 && e.delete
    ensures IsMirror(w', rel)
  {
    forall k | k in w'.bucket
      ensures Target(rel(k)).Some? && Target(rel(k)).value in w'.files
        && w'.files[Target(rel(k)).value].content == w'.bucket[k].content
    {
      SyncedKey(w, e, w', rel, k);
    }
    forall p | p in w'.files
      ensures exists k :: k in w'.bucket && Target(rel(k)) == Some(p)
    {
      assert p in WantedPaths(e.objects);
      var o :| o in e.objects && Target(o.relative) == Some(p);
      assert o.key in w'.bucket && Target(rel(o.key)) == Some(p);
    }
  }

  /**
   * The mirror converges: after any history of puts, removals and syncs, a sync with
   * --delete that saw the whole bucket and returned 0 leaves exactly the bucket's keys,
   * each with its current content, whatever order its downloads ran in.
   */
  lemma MirrorConverges(worlds: seq<World>, events: seq<Event>, rel: Key -> string, i: nat)
    requires IsRun(worlds, events, rel) && i < |events| && DistinctTargets(worlds[i], rel)
    requires events[i].Sync? && events[i].delete && events[i].status == 0 && SawTheBucket(worlds[i], events[i], rel)
    ensures IsMirror(worlds[i + 1], rel)
  {
    RunKeepsInv(worlds, events, rel, i);
    RunSteps(worlds, events, rel, i);
    SyncMirrors(worlds[i], events[i], worlds[i + 1], rel);
  }

  lemma SyncedIsUpToDate(w: World, e: Event, w': World, rel: Key -> string)
    requires Inv(w, rel) && DistinctTargets(w, rel) && e.Sync? && Step(w, e, w', rel) && SawTheBucket(w, e, rel)
    requires e.status == 0
    ensures JobsFor(e.objects, w'.files) == []
  {
    forall o | o in e.objects
      ensures Target(o.relative).Some? && UpToDate(w'.files, Target(o.relative).value, o)
    {
      SyncedKey(w, e, w', rel, o.key);
    }
    NoJobs(e.objects, w'.files);
  }

  /** Then a second sync of the same listing has nothing to download. */
  lemma SecondSyncIsIdle(worlds: seq<World>, events: seq<Event>, rel: Key -> string, i: nat)
    requires IsRun(worlds, events, rel) && i < |events| && DistinctTargets(worlds[i], rel)
    requires events[i].Sync? && events[i].status == 0 && SawTheBucket(worlds[i], events[i], rel)
    ensures JobsFor(events[i].objects, worlds[i + 1].files) == []
  {
    RunKeepsInv(worlds, events, rel, i);
    RunSteps(worlds, events, rel, i);
    SyncedIsUpToDate(worlds[i], events[i], worlds[i + 1], rel);
  }

  lemma {:induction false} NoJobs(objects: seq<Obj>, files: map<Path, File>)
    requires forall o :: o in objects ==> Target(o.relative).Some? && UpToDate(files, Target(o.relative).value, o)
    ensures JobsFor(objects, files) == []
  {
    if objects != [] {
      NoJobs(objects[..|objects| - 1], files);
    }
  }

  /** In a sync that lists a key once, the key's path has no job but the key's own. */
  lemma OnlyItsOwnJob(w: World, e: Event, rel: Key -> string, o: Obj, p: Path)
    requires Inv(w, rel) && DistinctTargets(w, rel) && e.Sync? && Enabled(w, e, rel)
    requires o in e.objects && Target(o.relative) == Some(p)
    requires forall o' :: o' in e.objects && o'.key == o.key ==> o' == o
    ensures forall job :: job in JobsFor(e.objects, w.files) && job.path == p ==> job.obj == o
    ensures Job(o, p) in JobsFor(e.objects, w.files) <==> !UpToDate(w.files, p, o)
  {
    JobsListed(e.objects, w.files);
  }

  /** The file a listed key is left with: the one it had, if that was up to date, or its own download. */
  lemma LeftWith(w: World, e: Event, w': World, rel: Key -> string, o: Obj, p: Path)
    requires Inv(w, rel) && DistinctTargets(w, rel) && e.Sync? && Step(w, e, w', rel)
    requires e.status == 0 && o in e.objects && Target(o.relative) == Some(p)
    requires forall o' :: o' in e.objects && o'.key == o.key ==> o' == o
    ensures p in w'.files
    ensures UpToDate(w.files, p, o) ==> w'.files[p] == w.files[p]
    ensures !UpToDate(w.files, p, o) ==> Downloaded(Job(o, p), e.downloads) == Some(w'.files[p])
  {
    assert p in WantedPaths(e.objects);
    assert WrittenAt(w.files, e.mid, JobsFor(e.objects, w.files), e.downloads, p);
    OnlyItsOwnJob(w, e, rel, o, p);
    if !UpToDate(w.files, p, o) {
      assert Downloaded(Job(o, p), e.downloads).Some?;
    }
  }

  /** An up-to-date file holds a version of the key no older than the one listed. */
  lemma KeptIsNotOlder(w: World, rel: Key -> string, o: Obj, p: Path) returns (v: Version)
    requires Inv(w, rel) && DistinctTargets(w, rel) && o.key in w.history
    requires Target(rel(o.key)) == Some(p) && UpToDate(w.files, p, o)
    ensures v in VersionsOf(w.history, o.key) && v.content == w.files[p].content && v.modified >= o.modified
  {
    assert Provenance(w, rel, p);
    var k, u :| StemsFrom(w, rel, p, k, u);
    v := u;
  }

  /**
   * While the bucket changes under a sync that returned 0, every listed key is still left
   * with one of its versions, at least as new as the one listed.
   */
  lemma NeverOlderThanListed(worlds: seq<World>, events: seq<Event>, rel: Key -> string, i: nat, o: Obj)
    returns (p: Path, v: Version)
    requires IsRun(worlds, events, rel) && i < |events| && DistinctTargets(worlds[i], rel)
    requires events[i].Sync? && events[i].status == 0 && o in events[i].objects
    requires forall o' :: o' in events[i].objects && o'.key == o.key ==> o' == o
    ensures Target(o.relative) == Some(p) && p in worlds[i + 1].files
    ensures v in VersionsOf(worlds[i + 1].history, o.key)
    ensures v.content == worlds[i + 1].files[p].content && v.modified >= o.modified
  {
    RunKeepsInv(worlds, events, rel, i);
    RunSteps(worlds, events, rel, i);
    var w, e := worlds[i], events[i];
    NoneRefused(e.objects);
    p := Target(o.relative).value;
    LeftWith(w, e, worlds[i + 1], rel, o, p);
    assert Listable(w, o) && Downloadable(w, o, e.downloads);
    if UpToDate(w.files, p, o) {
      v := KeptIsNotOlder(w, rel, o, p);
    } else {
      v :| v in VersionsOf(w.history, o.key) && v.modified >= o.modified && v.content == e.downloads(o.key).value;
    }
  }

  // ----- The keys of a folder

  /** `rel` cuts the prefix off every key the bucket ever held, and leaves a normal name. */
  ghost predicate NormalBelow(w: World, rel: Key -> string, prefix: string) {
    forall k :: k in w.history ==> prefix <= k.name && rel(k) == k.name[|prefix|..] && Normal(rel(k))
  }

  /** Keys with normal names below the prefix never share a target. */
  lemma NormalKeysAreDistinct(w: World, rel: Key -> string, prefix: string)
    requires NormalBelow(w, rel, prefix)
    ensures DistinctTargets(w, rel)
  {
    forall k, k' | k in w.history && k' in w.history && Target(rel(k)).Some? && Target(rel(k)) == Target(rel(k'))
      ensures k == k'
    {
      OneNormalNamePerTarget(rel(k), Target(rel(k)).value);
      OneNormalNamePerTarget(rel(k'), Target(rel(k)).value);
      assert k.name == prefix + rel(k) && k'.name == prefix + rel(k');
    }
  }

  /** So a folder whose keys always had normal names converges. */
  lemma NormalKeysConverge(worlds: seq<World>, events: seq<Event>, rel: Key -> string, prefix: string, i: nat)
    requires IsRun(worlds, events, rel) && i < |events| && NormalBelow(worlds[i], rel, prefix)
    requires events[i].Sync? && events[i].delete && events[i].status == 0 && SawTheBucket(worlds[i], events[i], rel)
    ensures IsMirror(worlds[i + 1], rel) && JobsFor(events[i].objects, worlds[i + 1].files) == []
  {
    NormalKeysAreDistinct(worlds[i], rel, prefix);
    MirrorConverges(worlds, events, rel, i);
    SecondSyncIsIdle(worlds, events, rel, i);
  }

  // ----- When a mirror is impossible

  /** Two keys that land on one path with different contents leave no mirror to converge to. */
  lemma CollidingKeysHaveNoMirror(w: World, rel: Key -> string, k: Key, k': Key)
    requires k in w.bucket && k' in w.bucket && Target(rel(k)) == Target(rel(k'))
    requires w.bucket[k].content != w.bucket[k'].content
    ensures !IsMirror(w, rel)
  {
  }

  predicate PlainName(a: string) {
    a != "" && a != "." && a != ".." && '/' !in a
  }

  lemma SplitAround(a: string, b: string)
    requires PlainName(a) && PlainName(b)
    ensures Split(a + "/" + b) == [a, b] && Split(a + "/" + ("/" + b)) == [a, "", b]
  {
    SplitAtSlash(b, "");
    SplitAtSlash("", b);
    SplitAtSlash(a, b);
    SplitAtSlash(a, "/" + b);
    assert "" + "/" + b == "/" + b;
    assert [a] + [b] == [a, b] && [""] + [b] == ["", b] && [a] + ["", b] == [a, "", b];
  }

  lemma PartsAround(a: string, b: string)
    requires PlainName(a) && PlainName(b)
    ensures Parts([a, b]) == [a, b] && Parts([a, "", b]) == [a, b]
  {
    PartsPrepend(b, []);
    PartsPrepend(a, [b]);
    PartsPrepend(a, ["", b]);
    assert [b] + [] == [b] && [a] + [b] == [a, b] && [a] + ["", b] == [a, "", b];
    assert ["", b][1..] == [b];
  }

  /** Such keys exist: an empty segment between two names lands on the same path. */
  lemma SlashesCollide(a: string, b: string)
    requires PlainName(a) && PlainName(b)
    ensures Target(a + "/" + b) == Some(Path([a, b])) == Target(a + "/" + ("/" + b))
  {
    SplitAround(a, b);
    PartsAround(a, b);
    var x, y := a + "/" + b, a + "/" + ("/" + b);
    assert x[0] == a[0] && y[0] == a[0];
  }

  lemma PartsPrepend(a: string, rest: seq<string>)
    requires PlainName(a)
    ensures Parts([a] + rest) == [a] + Parts(rest)
  {
    assert ([a] + rest)[1..] == rest;
  }

  /**
   * Equal time stamps break convergence: a file downloaded from one version is taken as
   * up to date with another of the same size and time, and no sync replaces it.
   */
  lemma EqualTimesGoUnnoticed(older: Content, newer: Content, t: int, p: Path, o: Obj)
    requires |older| == |newer| && o.size == |newer| && o.modified == t && Target(o.relative) == Some(p)
    ensures JobsFor([o], map[p := File(older, t)]) == []
  {
    assert [o][..0] == [];
  }
}
