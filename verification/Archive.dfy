/**
  The archiver: it turns the closed days of the spool directories into gzip files and deletes the
  archives that have expired. Every file operation may fail, and the machine may stop between any
  two of them. Sources have their own spool directories and may share an archive directory.
 */
module Archive {
  import opened Wrappers

  /**
    The paths the archiver uses: a spool file, an archive in directory `dir` that was made on day
    `on`, and a temporary file.
   */
  datatype Path = Active(owner: string, date: int) | Archived(dir: string, owner: string, date: int, on: int) | Temp(n: nat)

  /** A gzip file is complete once its writer was closed; only when synced does that survive a crash. */
  datatype File = Plain(text: string) | Gzip(text: string, complete: bool, synced: bool)

  datatype Day = Day(owner: string, date: int)

  /** The files, the content of every closed day, and the archives that held a day when retention deleted them. */
  datatype World = World(files: map<Path, File>, days: map<Day, string>, retired: set<Path>)

  predicate IsWhole(file: File) {
    file.Gzip? && file.complete && file.synced
  }

  ghost predicate IsHeld(files: map<Path, File>, day: Day) {
    || Active(day.owner, day.date) in files
    || exists dir, on :: Archived(dir, day.owner, day.date, on) in files && IsWhole(files[Archived(dir, day.owner, day.date, on)])
  }

  ghost predicate IsRetired(retired: set<Path>, day: Day) {
    exists dir, on :: Archived(dir, day.owner, day.date, on) in retired
  }

  /**
    Every complete archive is safe on disk and has its day's content, every spool file of a closed day
    has that content, and every closed day that has not expired is in one or the other. Archives that
    are not complete may be there as well; they hold nothing.
   */
  ghost predicate IsSafe(w: World) {
    && (forall dir, o, d, on :: Archived(dir, o, d, on) in w.files ==> IsSoundArchive(w, Day(o, d), w.files[Archived(dir, o, d, on)]))
    && (forall o, d :: Active(o, d) in w.files && Day(o, d) in w.days ==> w.files[Active(o, d)] == Plain(w.days[Day(o, d)]))
    && (forall day <- w.days :: IsRetired(w.retired, day) || IsHeld(w.files, day))
  }

  ghost predicate IsSoundArchive(w: World, day: Day, file: File) {
    && (file.Gzip? ==> file.synced)
    && (file.Gzip? && file.complete ==> day in w.days && file.text == w.days[day])
  }

  /** What a crash may leave: anything written to a gzip file and not synced may be lost. */
  ghost predicate MayCrashTo(before: World, after: World) {
    && after.days == before.days && after.retired == before.retired && after.files.Keys == before.files.Keys
    && forall p <- before.files ::
         after.files[p] == before.files[p]
         || (before.files[p].Gzip? && !before.files[p].synced && after.files[p].Gzip? && !after.files[p].synced)
  }

  lemma CrashKeepsSafe(before: World, after: World)
    requires IsSafe(before) && MayCrashTo(before, after)
    ensures IsSafe(after)
  {
    forall day | day in after.days && !IsRetired(after.retired, day)
      ensures IsHeld(after.files, day)
    {
      assert IsHeld(before.files, day);
    }
  }

  ghost predicate AgreeOutsideTemps(a: map<Path, File>, b: map<Path, File>) {
    forall p: Path :: !p.Temp? ==> (p in a <==> p in b) && (p in a ==> a[p] == b[p])
  }

  lemma TempKeepsSafe(w: World, files: map<Path, File>)
    requires IsSafe(w) && AgreeOutsideTemps(w.files, files)
    ensures IsSafe(w.(files := files))
  {
    forall day | day in w.days && !IsRetired(w.retired, day)
      ensures IsHeld(files, day)
    {
      assert IsHeld(w.files, day);
    }
  }

  /** Renaming a complete and synced copy of a closed day publishes it. */
  lemma PublishKeepsSafe(w: World, n: nat, target: Path)
    requires IsSafe(w) && target.Archived? && Day(target.owner, target.date) in w.days
    requires Temp(n) in w.files && w.files[Temp(n)] == Gzip(w.days[Day(target.owner, target.date)], true, true)
    ensures IsSafe(w.(files := (w.files - {Temp(n)})[target := w.files[Temp(n)]]))
  {
    var after := w.(files := (w.files - {Temp(n)})[target := w.files[Temp(n)]]);
    forall day | day in w.days && !IsRetired(w.retired, day)
      ensures IsHeld(after.files, day)
    {
      assert IsHeld(w.files, day);
      if day == Day(target.owner, target.date) {
        assert Archived(target.dir, day.owner, day.date, target.on) == target && IsWhole(after.files[target]);
      }
    }
  }

  /** A spool file may go once a complete archive of its day is there. */
  lemma RemoveActiveKeepsSafe(w: World, archive: Path)
    requires IsSafe(w) && archive.Archived? && archive in w.files && IsWhole(w.files[archive])
    ensures IsSafe(w.(files := w.files - {Active(archive.owner, archive.date)}))
  {
    var after := w.(files := w.files - {Active(archive.owner, archive.date)});
    assert archive == Archived(archive.dir, archive.owner, archive.date, archive.on);
    forall day | day in w.days && !IsRetired(w.retired, day)
      ensures IsHeld(after.files, day)
    {
      assert IsHeld(w.files, day);
    }
  }

  /** What retention has deleted excuses a day only if it held that day. */
  function Retired(w: World, archive: Path): set<Path>
    requires archive in w.files
  {
    if IsWhole(w.files[archive]) then w.retired + {archive} else w.retired
  }

  function Expired(w: World, archive: Path): World
    requires archive in w.files
  {
    World(w.files - {archive}, w.days, Retired(w, archive))
  }

  lemma ExpireKeepsSafe(w: World, archive: Path)
    requires IsSafe(w) && archive.Archived? && archive in w.files
    ensures IsSafe(Expired(w, archive))
  {
    var after := Expired(w, archive);
    forall day | day in w.days && !IsRetired(after.retired, day)
      ensures IsHeld(after.files, day)
    {
      assert forall p <- w.retired :: p in after.retired;
      assert IsHeld(w.files, day);
    }
  }

  /** A day closes: from then on its spool file is not written to any more. */
  lemma CloseDayKeepsSafe(w: World, day: Day, text: string)
    requires IsSafe(w) && day !in w.days
    requires Active(day.owner, day.date) in w.files && w.files[Active(day.owner, day.date)] == Plain(text)
    ensures IsSafe(w.(days := w.days[day := text]))
  {
  }

  /** The name of an archive; `rest` stands for the two dates and the suffixes, which have no underscore. */
  function ArchiveName(owner: string, rest: string): string {
    owner + "_" + rest
  }

  /** Archives of different sources, days or runs have different names. */
  lemma NamesAreDistinct(owner1: string, rest1: string, owner2: string, rest2: string)
    requires '_' !in rest1 && '_' !in rest2
    requires ArchiveName(owner1, rest1) == ArchiveName(owner2, rest2)
    ensures owner1 == owner2 && rest1 == rest2
  {
    var name1, name2 := ArchiveName(owner1, rest1), ArchiveName(owner2, rest2);
    assert forall k :: |owner1| < k < |name1| ==> name1[k] == rest1[k - |owner1| - 1] && rest1[k - |owner1| - 1] in rest1;
    assert forall k :: |owner2| < k < |name2| ==> name2[k] == rest2[k - |owner2| - 1] && rest2[k - |owner2| - 1] in rest2;
    assert name1[|owner1|] == '_' && name2[|owner2|] == '_';
    assert name1[..|owner1|] == owner1 && name2[..|owner2|] == owner2;
    assert name1[|owner1| + 1..] == rest1 && name2[|owner2| + 1..] == rest2;
  }

  /** Retention of source `id` recognises an archive by the start of its name; this is what that comes to. */
  predicate TakesFor(id: string, owner: string) {
    owner == id || id + "_" <= owner
  }

  lemma NamesTaken(id: string, owner: string, rest: string)
    requires '_' !in rest
    ensures id + "_" <= ArchiveName(owner, rest) <==> TakesFor(id, owner)
  {
    var name := ArchiveName(owner, rest);
    assert forall k :: |owner| < k < |name| ==> name[k] == rest[k - |owner| - 1] && rest[k - |owner| - 1] in rest;
    if id + "_" <= name {
      assert (id + "_")[|id|] == name[|id|];
      assert |id| <= |owner|;
      if |id| == |owner| {
        assert name[..|id|] == owner && (id + "_")[..|id|] == id;
      } else {
        assert name[..|id| + 1] == owner[..|id| + 1];
      }
    }
    if owner == id {
      assert name[..|id| + 1] == id + "_";
    }
  }

  /** A source as retention sees it: its ID, its archive directory, how many days it keeps, and the day that makes the cutoff. */
  datatype Retention = Retention(id: string, dir: string, keepsDays: int, cutoff: int)

  /** What a source may lose to retention: archives in its directory of days before its cutoff that are ready to go. */
  predicate MayTake(r: Retention, ready: set<Day>, p: Path) {
    && r.keepsDays > 0 && p.Archived? && p.dir == r.dir && TakesFor(r.id, p.owner)
    && p.date < r.cutoff && Day(r.id, p.date) in ready
  }

  /** Of the archives of `owner` in directory `dir`, retention takes only those of days that are ready. */
  ghost predicate TakesOnlyReady(r: Retention, dir: string, owner: string) {
    forall ready, d, on :: MayTake(r, ready, Archived(dir, owner, d, on)) ==> Day(owner, d) in ready
  }

  /**
    Retention looks up its own source in the list of days that are ready. It spares the days of other
    sources that are not ready exactly if none of them keeps its archives in the same directory under
    an ID that continues its own with an underscore.
   */
  lemma WhenRetentionIsSafe(r: Retention, dir: string, owner: string)
    requires r.keepsDays > 0
    ensures TakesOnlyReady(r, dir, owner) <==> !(r.dir == dir && r.id != owner && r.id + "_" <= owner)
  {
    var d := r.cutoff - 1;
    if r.dir == dir && r.id != owner && r.id + "_" <= owner {
      assert MayTake(r, {Day(r.id, d)}, Archived(dir, owner, d, 0));
    }
  }

  /** For example, `fw` may take an archive of `fw_a` of a day that is not ready. */
  lemma RetentionReachesOtherSources(dir: string, date: int, on: int)
    ensures var r, ready, archive := Retention("fw", dir, 30, date + 1), {Day("fw", date)}, Archived(dir, "fw_a", date, on);
            MayTake(r, ready, archive) && Day("fw_a", date) !in ready
  {
  }

  ghost predicate SomeMayTake(sources: seq<Retention>, ready: set<Day>, p: Path) {
    exists r :: r in sources && MayTake(r, ready, p)
  }

  /** An archive that appears or changes is complete. */
  ghost predicate PublishesOnlyWhole(before: map<Path, File>, after: map<Path, File>) {
    forall p <- after :: p.Archived? ==> (p in before && after[p] == before[p]) || IsWhole(after[p])
  }

  /** A step of archiving: no day is given up, and every archive that appears is complete. */
  ghost predicate IsArchiving(before: World, w: World) {
    w.days == before.days && w.retired == before.retired && PublishesOnlyWhole(before.files, w.files)
  }

  ghost predicate ArchivesSince(before: seq<World>, after: seq<World>) {
    && before != [] && before <= after
    && forall i :: |before| <= i < |after| ==> IsArchiving(before[|before| - 1], after[i])
  }

  lemma ThenArchives(a: seq<World>, b: seq<World>, c: seq<World>)
    requires ArchivesSince(a, b) && ArchivesSince(b, c)
    ensures ArchivesSince(a, c)
  {
    forall i | |a| <= i < |c|
      ensures IsArchiving(a[|a| - 1], c[i])
    {
      if i < |b| {
        assert c[i] == b[i];
      } else if |a| < |b| {
        assert IsArchiving(a[|a| - 1], b[|b| - 1]) && IsArchiving(b[|b| - 1], c[i]);
      } else {
        assert a == b;
      }
    }
  }

  lemma ArchivingKeepsDays(a: seq<World>, b: seq<World>)
    requires ArchivesSince(a, b)
    ensures b[|b| - 1].days == a[|a| - 1].days && b[|b| - 1].retired == a[|a| - 1].retired
  {
    assert |a| == |b| ==> a == b;
  }

  /** The archive was complete and on disk, so that its day counts as expired with it. */
  ghost predicate HeldItsDay(w: World, p: Path) {
    p in w.files && w.files[p].Gzip? && w.files[p].complete && w.files[p].synced
  }

  /** A step of retention: files only go, and all that go are archives it may take. */
  ghost predicate IsExpiring(before: World, w: World, r: Retention, ready: set<Day>) {
    && w.days == before.days
    && before.retired <= w.retired
    && (forall p <- w.retired :: p in before.retired || (MayTake(r, ready, p) && HeldItsDay(before, p)))
    && (forall p <- w.files :: p in before.files && w.files[p] == before.files[p])
    && (forall p <- before.files :: p in w.files || MayTake(r, ready, p))
  }

  ghost predicate ExpiresSince(before: seq<World>, after: seq<World>, r: Retention, ready: set<Day>) {
    && before != [] && before <= after
    && forall i :: |before| <= i < |after| ==> IsExpiring(before[|before| - 1], after[i], r, ready)
  }

  /** One more deletion, if it succeeds. */
  lemma ExpiresMore(a: seq<World>, b: seq<World>, c: seq<World>, r: Retention, ready: set<Day>, p: Path)
    requires ExpiresSince(a, b, r, ready) && p in b[|b| - 1].files && MayTake(r, ready, p)
    requires c == b || c == b + [Expired(b[|b| - 1], p)]
    ensures ExpiresSince(a, c, r, ready)
  {
    ExpiringAtEnd(a, b, r, ready);
  }

  lemma ExpiringAtEnd(a: seq<World>, b: seq<World>, r: Retention, ready: set<Day>)
    requires ExpiresSince(a, b, r, ready)
    ensures IsExpiring(a[|a| - 1], b[|b| - 1], r, ready)
  {
    assert |a| == |b| ==> a == b;
  }

  /** A step of a run over all sources: no day is given up but by retention of one of them. */
  ghost predicate IsRunning(before: World, w: World, sources: seq<Retention>, ready: set<Day>) {
    && w.days == before.days && before.retired <= w.retired
    && forall p <- w.retired :: p in before.retired || SomeMayTake(sources, ready, p)
  }

  ghost predicate RunsSince(before: seq<World>, after: seq<World>, sources: seq<Retention>, ready: set<Day>) {
    && before != [] && before <= after
    && forall i :: |before| <= i < |after| ==> IsRunning(before[|before| - 1], after[i], sources, ready)
  }

  lemma SourceRuns(
    a: seq<World>, b: seq<World>, c: seq<World>, d: seq<World>, sources: seq<Retention>, r: Retention, ready: set<Day>)
    requires RunsSince(a, b, sources, ready) && ArchivesSince(b, c) && ExpiresSince(c, d, r, ready) && r in sources
    ensures RunsSince(a, d, sources, ready)
  {
    forall i | |a| <= i < |d|
      ensures IsRunning(a[|a| - 1], d[i], sources, ready)
    {
      var first := a[|a| - 1];
      assert IsRunning(first, b[|b| - 1], sources, ready) by {
        assert |a| == |b| ==> a == b;
      }
      assert IsRunning(first, c[|c| - 1], sources, ready) by {
        assert |b| == |c| ==> b == c;
      }
      if i < |b| {
        assert d[i] == b[i];
      } else if i < |c| {
        assert d[i] == c[i] && IsArchiving(b[|b| - 1], c[i]);
      } else {
        assert IsExpiring(c[|c| - 1], d[i], r, ready);
      }
    }
  }

  datatype ArchiveResult = ArchiveResult(date: Option<int>, ok: bool)

  ghost predicate AllOk(results: seq<ArchiveResult>) {
    forall r <- results :: r.ok
  }

  /** The results name as archived only days that are. */
  ghost predicate Reports(results: seq<ArchiveResult>, o: string, done: set<Path>) {
    forall r <- results :: r.ok ==> r.date.Some? && Active(o, r.date.value) in done
  }

  lemma ReportsSnoc(results: seq<ArchiveResult>, o: string, d: int, ok: bool, done: set<Path>)
    requires Reports(results, o, done)
    ensures Reports(results + [ArchiveResult(Some(d), ok)], o, if ok then done + {Active(o, d)} else done)
    ensures AllOk(results + [ArchiveResult(Some(d), ok)]) <==> AllOk(results) && ok
  {
  }

  datatype Presence = Missing | Present | Unknown

  /** The disk under the archiver. `trace` records the world after every operation: a crash may come after any of them. */
  class Disk {
    /** The part of an archive's name after the source's ID and an underscore. */
    const rest: (int, int) -> string
    var files: map<Path, File>
    var nextTemp: nat
    ghost var days: map<Day, string>
    ghost var retired: set<Path>
    ghost var trace: seq<World>
    ghost var faults: nat  // how many file operations have failed

    ghost function Now(): World
      reads this
    {
      World(files, days, retired)
    }

    ghost predicate Valid()
      reads this
    {
      && trace != [] && trace[|trace| - 1] == Now()
      && (forall i :: 0 <= i < |trace| ==> IsSafe(trace[i]))
      && (forall n: nat :: Temp(n) in files ==> n < nextTemp)
    }

    constructor (rest: (int, int) -> string)
      ensures Valid() && fresh(this) && this.rest == rest && files == map[] && days == map[] && retired == {}
    {
      this.rest := rest;
      files, nextTemp := map[], 0;
      days, retired, trace, faults := map[], {}, [World(map[], map[], {})], 0;
    }

    ghost method Record()
      requires IsSafe(Now()) && (forall i :: 0 <= i < |trace| ==> IsSafe(trace[i]))
      requires forall n: nat :: Temp(n) in files ==> n < nextTemp
      modifies `trace
      ensures Valid() && trace == old(trace) + [Now()]
    {
      trace := trace + [Now()];
    }

    /** Whether a file operation succeeds; it counts if not. */
    method Attempt() returns (ok: bool)
      requires Valid()
      modifies `faults
      ensures Valid() && faults == old(faults) + if ok then 0 else 1
    {
      ok := *;
      faults := faults + if ok then 0 else 1;
    }

    method Stat(p: Path) returns (r: Presence)
      requires Valid()
      modifies `faults
      ensures Valid() && faults == old(faults) + if r == Unknown then 1 else 0
      ensures r == Present ==> p in files
      ensures r == Missing ==> p !in files
    {
      var ok := Attempt();
      return if !ok then Unknown else if p in files then Present else Missing;
    }

    /** Removes the spool file of a day with a complete archive; a crash may find it missing already. */
    method RemoveActive(archive: Path) returns (ok: bool)
      requires Valid() && archive.Archived? && archive in files && IsWhole(files[archive])
      modifies this
      ensures Valid() && ArchivesSince(old(trace), trace)
      ensures files == if ok then old(files) - {Active(archive.owner, archive.date)} else old(files)
      ensures faults == old(faults) + if ok then 0 else 1
    {
      ok := Attempt();
      if ok {
        RemoveActiveKeepsSafe(Now(), archive);
        files := files - {Active(archive.owner, archive.date)};
        Record();
      }
    }

    method WriteTemp(n: nat, file: File) returns (ok: bool)
      requires Valid() && n < nextTemp
      modifies this
      ensures Valid() && ArchivesSince(old(trace), trace) && nextTemp == old(nextTemp)
      ensures AgreeOutsideTemps(old(files), files) && days == old(days)
      ensures ok ==> Temp(n) in files && files[Temp(n)] == file
      ensures faults == old(faults) + if ok then 0 else 1
    {
      ok := Attempt();
      // A write that fails may have left any part of the data.
      var left: string := *;
      var next := files[Temp(n) := if ok then file else Gzip(left, false, false)];
      TempKeepsSafe(Now(), next);
      files := next;
      Record();
    }

    method CreateTemp() returns (t: Option<nat>)
      requires Valid()
      modifies this
      ensures Valid() && ArchivesSince(old(trace), trace) && AgreeOutsideTemps(old(files), files) && days == old(days)
      ensures t.Some? ==> t.value < nextTemp && Temp(t.value) !in old(files)
      ensures faults == old(faults) + if t.Some? then 0 else 1
    {
      var n := nextTemp;
      nextTemp := nextTemp + 1;
      var made := WriteTemp(n, Gzip("", false, false));
      return if made then Some(n) else None;
    }

    method RemoveTemp(n: nat)
      requires Valid()
      modifies this
      ensures Valid() && ArchivesSince(old(trace), trace) && AgreeOutsideTemps(old(files), files) && days == old(days)
      ensures old(faults) <= faults
    {
      var ok := Attempt();
      if ok {
        TempKeepsSafe(Now(), files - {Temp(n)});
        files := files - {Temp(n)};
        Record();
      }
    }

    method Rename(n: nat, target: Path) returns (ok: bool)
      requires Valid() && target.Archived? && Day(target.owner, target.date) in days
      requires Temp(n) in files && files[Temp(n)] == Gzip(days[Day(target.owner, target.date)], true, true)
      modifies this
      ensures Valid() && ArchivesSince(old(trace), trace)
      ensures files == if ok then (old(files) - {Temp(n)})[target := old(files)[Temp(n)]] else old(files)
      ensures faults == old(faults) + if ok then 0 else 1
    {
      ok := Attempt();
      if ok {
        PublishKeepsSafe(Now(), n, target);
        files := (files - {Temp(n)})[target := files[Temp(n)]];
        Record();
      }
    }

    /** Writes, completes and syncs a copy of a closed day. */
    method WriteCopy(n: nat, text: string) returns (ok: bool)
      requires Valid() && n < nextTemp
      modifies this
      ensures Valid() && ArchivesSince(old(trace), trace) && AgreeOutsideTemps(old(files), files) && days == old(days)
      ensures ok ==> Temp(n) in files && files[Temp(n)] == Gzip(text, true, true)
      ensures faults == old(faults) + if ok then 0 else 1
    {
      ok := WriteTemp(n, Gzip(text, false, false));
      if !ok { return; }
      ghost var copied := trace;
      ok := WriteTemp(n, Gzip(text, true, false));
      ThenArchives(old(trace), copied, trace);
      if !ok { return; }
      ok := Attempt();
      if !ok { return; }
      ghost var closed := trace;
      ok := WriteTemp(n, Gzip(text, true, true));
      ThenArchives(old(trace), closed, trace);
      if !ok { return; }
      ok := Attempt();
    }

    /** The spool file and the archive of one day may have changed, and no other path. */
    ghost predicate OthersKept(before: map<Path, File>, archive: Path)
      requires archive.Archived?
      reads this
    {
      && (forall p: Path :: !p.Temp? && p != Active(archive.owner, archive.date) && p != archive ==>
            (p in files <==> p in before) && (p in files ==> files[p] == before[p]))
      && (Active(archive.owner, archive.date) in files ==> Active(archive.owner, archive.date) in before)
    }

    /** The spool file of a day is there no more, and its archive is complete. */
    ghost predicate IsArchived(archive: Path)
      requires archive.Archived?
      reads this
    {
      Active(archive.owner, archive.date) !in files && archive in files && IsWhole(files[archive])
    }

    /** A gzip file is accepted only if it can be read to its end. */
    method ValidateGzip(p: Path) returns (ok: bool)
      requires Valid() && p in files
      modifies `faults
      ensures Valid() && old(faults) <= faults
      ensures ok ==> files[p].Gzip? && files[p].complete
      ensures !ok ==> old(faults) < faults || !(files[p].Gzip? && files[p].complete)
    {
      ok := Attempt();
      ok := ok && files[p].Gzip? && files[p].complete;
    }

    /** The case in which an archive with that name is there already: the spool file goes only if it can be read. */
    method AcceptExisting(archive: Path) returns (valid: bool, ok: bool)
      requires Valid() && archive.Archived? && archive in files
      modifies this
      ensures Valid() && ArchivesSince(old(trace), trace) && OthersKept(old(files), archive)
      ensures archive in files && files[archive] == old(files)[archive]
      ensures valid ==> IsWhole(files[archive])
      ensures !valid ==> !ok && files == old(files) && trace == old(trace)
      ensures ok ==> IsArchived(archive)
      ensures old(faults) <= faults && (!ok ==> old(faults) < faults || !IsWhole(old(files)[archive]))
    {
      assert IsSoundArchive(Now(), Day(archive.owner, archive.date), files[archive]) by {
        assert archive == Archived(archive.dir, archive.owner, archive.date, archive.on);
      }
      valid := ValidateGzip(archive);
      ok := valid;
      if valid && Active(archive.owner, archive.date) in files {
        ok := RemoveActive(archive);
      }
    }

    /** Publishes a finished copy and then removes the spool file. */
    method Publish(n: nat, target: Path) returns (published: bool, ok: bool)
      requires Valid() && target.Archived? && Day(target.owner, target.date) in days
      requires Temp(n) in files && files[Temp(n)] == Gzip(days[Day(target.owner, target.date)], true, true)
      modifies this
      ensures Valid() && ArchivesSince(old(trace), trace) && OthersKept(old(files), target)
      ensures ok ==> published && IsArchived(target)
      ensures !published ==> files == old(files)
      ensures old(faults) <= faults && (!ok ==> old(faults) < faults)
    {
      published := Rename(n, target);
      ghost var renamed := trace;
      ok := false;
      if published {
        ok := RemoveActive(target);
        ThenArchives(old(trace), renamed, trace);
      }
    }

    /** What archiving cannot get past although no file operation fails: an incomplete archive, or no spool file. */
    static predicate IsStuck(files: map<Path, File>, archive: Path)
      requires archive.Archived?
    {
      if archive in files then !IsWhole(files[archive]) else Active(archive.owner, archive.date) !in files
    }

    /**
      Archives one closed day. Whatever fails, and wherever a crash comes, the day's content stays in
      the spool file or in a complete archive, and no incomplete archive is ever published.
     */
    method ArchiveFile(archive: Path) returns (ok: bool)
      requires Valid() && archive.Archived? && Day(archive.owner, archive.date) in days
      modifies this
      ensures Valid() && ArchivesSince(old(trace), trace) && OthersKept(old(files), archive)
      ensures ok ==> IsArchived(archive)
      ensures old(faults) <= faults && (!ok ==> old(faults) < faults || IsStuck(old(files), archive))
    {
      var presence := Stat(archive);
      if presence == Present {
        var valid;
        valid, ok := AcceptExisting(archive);
        return;
      }
      var made := Attempt();  // the directory of the archives is made
      var spool := Stat(Active(archive.owner, archive.date));
      if presence == Unknown || !made || spool != Present {
        return false;
      }
      ok := CopyAndPublish(files[Active(archive.owner, archive.date)].text, archive);
    }

    /** The case in which there is no archive yet: a copy is made under a temporary name. */
    method CopyAndPublish(text: string, archive: Path) returns (ok: bool)
      requires Valid() && archive.Archived? && Day(archive.owner, archive.date) in days
      requires text == days[Day(archive.owner, archive.date)]
      modifies this
      ensures Valid() && ArchivesSince(old(trace), trace) && OthersKept(old(files), archive)
      ensures ok ==> IsArchived(archive)
      ensures old(faults) <= faults && (!ok ==> old(faults) < faults)
    {
      var temp := CreateTemp();
      if temp == None {
        return false;
      }
      ghost var created := trace;
      var copied := WriteCopy(temp.value, text);
      ghost var written := trace;
      ThenArchives(old(trace), created, written);
      var published := false;
      ok := false;
      if copied {
        published, ok := Publish(temp.value, archive);
      }
      ghost var tried := trace;
      ThenArchives(old(trace), written, tried);
      if !published {
        RemoveTemp(temp.value);
        ThenArchives(old(trace), tried, trace);
      }
    }

    /** The files that have nothing to do with the closed days of one source. */
    static ghost function Outside(files: map<Path, File>, o: string, today: int): map<Path, File> {
      map p | p in files && !p.Temp? && !(p.owner == o && p.date < today) :: files[p]
    }

    /** Only the closed days of one source were touched, and no spool file was added. */
    ghost predicate OnlyClosedOf(before: map<Path, File>, o: string, today: int)
      reads this
    {
      Outside(files, o, today) == Outside(before, o, today) && forall p <- files :: p.Active? ==> p in before
    }

    /** `ArchiveFile` for one more day: the days that are archived stay so. */
    method ArchiveNext(o: string, dir: string, d: int, today: int, on: int, ghost done: set<Path>) returns (ok: bool)
      requires Valid() && d < today && Day(o, d) in days && Active(o, d) !in done
      requires forall p <- done :: p.Active? && p.owner == o && IsArchived(Archived(dir, o, p.date, on))
      modifies this
      ensures Valid() && ArchivesSince(old(trace), trace) && OnlyClosedOf(old(files), o, today)
      ensures (forall p <- done :: IsArchived(Archived(dir, o, p.date, on))) && (ok ==> IsArchived(Archived(dir, o, d, on)))
      ensures OthersKept(old(files), Archived(dir, o, d, on)) && old(faults) <= faults
      ensures !ok ==> old(faults) < faults || IsStuck(old(files), Archived(dir, o, d, on))
    {
      ok := ArchiveFile(Archived(dir, o, d, on));
    }

    method ListClosedDays(o: string, today: int) returns (paths: set<Path>)
      ensures forall p :: p in paths <==> p in files && p.Active? && p.owner == o && p.date < today
    {
      paths := set p <- files | p.Active? && p.owner == o && p.date < today;
    }

    /** Archives every closed day of a source, in any order; `on` names the day of the run. */
    method ArchiveClosedDays(o: string, dir: string, today: int, on: int) returns (results: seq<ArchiveResult>)
      requires Valid() && ClosedDaysKnown(today)
      modifies this
      ensures Valid() && ArchivesSince(old(trace), trace) && OnlyClosedOf(old(files), o, today)
      ensures forall r <- results :: r.ok ==> r.date.Some? && r.date.value < today && IsArchived(Archived(dir, o, r.date.value, on))
      ensures AllOk(results) ==> forall d :: d < today && Active(o, d) in old(files) ==> IsArchived(Archived(dir, o, d, on))
      ensures old(faults) <= faults
      ensures AllOk(results) || old(faults) < faults
              || exists d :: d < today && Active(o, d) in old(files) && IsStuck(old(files), Archived(dir, o, d, on))
    {
      var listed := Attempt();
      if !listed {
        return [ArchiveResult(None, false)];
      }
      var all := ListClosedDays(o, today);
      ghost var done;
      results, done := ArchiveDays(o, dir, today, on, all);
    }

    /** The loop over the spool files of closed days. */
    method ArchiveDays(o: string, dir: string, today: int, on: int, all: set<Path>)
      returns (results: seq<ArchiveResult>, ghost done: set<Path>)
      requires Valid() && forall p <- all :: p.Active? && p.owner == o && p.date < today && Day(o, p.date) in days
      modifies this
      ensures Valid() && ArchivesSince(old(trace), trace) && OnlyClosedOf(old(files), o, today)
      ensures HasArchived(o, dir, on, all, {}, done, results)
      ensures old(faults) <= faults && IsExcused(results, old(faults), old(files), o, dir, on, all)
    {
      results, done := [], {};
      var todo := all;
      while todo != {}
        invariant Valid() && ArchivesSince(old(trace), trace) && OnlyClosedOf(old(files), o, today)
        invariant HasArchived(o, dir, on, all, todo, done, results)
        invariant old(faults) <= faults && Await(old(files), o, dir, on, todo)
        invariant IsExcused(results, old(faults), old(files), o, dir, on, all)
        decreases |todo|
      {
        var p :| p in todo;
        ArchivingKeepsDays(old(trace), trace);
        var ok := ArchiveOne(o, dir, p, today, on, all, todo, done, results, old(trace), old(files), old(faults));
        todo := todo - {p};
        done := if ok then done + {p} else done;
        results := results + [ArchiveResult(Some(p.date), ok)];
      }
    }

    /** One round of it; `trace0` and `files0` are those at the start. */
    method ArchiveOne(
      o: string, dir: string, p: Path, today: int, on: int, ghost all: set<Path>, ghost todo: set<Path>,
      ghost done: set<Path>, ghost results: seq<ArchiveResult>, ghost trace0: seq<World>, ghost files0: map<Path, File>, ghost faults0: nat)
      returns (ok: bool)
      requires Valid() && ArchivesSince(trace0, trace) && OnlyClosedOf(files0, o, today)
      requires HasArchived(o, dir, on, all, todo, done, results) && p in todo
      requires p.Active? && p.date < today && Day(o, p.date) in days
      requires Await(files0, o, dir, on, todo) && faults0 <= faults && IsExcused(results, faults0, files0, o, dir, on, all)
      modifies this
      ensures Valid() && ArchivesSince(trace0, trace) && OnlyClosedOf(files0, o, today)
      ensures HasArchived(o, dir, on, all, todo - {p}, if ok then done + {p} else done,
                          results + [ArchiveResult(Some(p.date), ok)])
      ensures Await(files0, o, dir, on, todo - {p}) && faults0 <= faults
      ensures IsExcused(results + [ArchiveResult(Some(p.date), ok)], faults0, files0, o, dir, on, all)
    {
      assert p in all && p !in done;
      ok := ArchiveNext(o, dir, p.date, today, on, done);
      ReportsSnoc(results, o, p.date, ok, done);
      ThenArchives(trace0, old(trace), trace);
      HasArchivedNext(o, dir, on, all, todo, done, results, p, ok);
    }

    /** Nothing has happened yet to the spool files in `todo` and their archives. */
    ghost predicate Await(before: map<Path, File>, o: string, dir: string, on: int, todo: set<Path>)
      reads this
    {
      forall p <- todo :: p.Active? && SameAt(before, files, Active(o, p.date)) && SameAt(before, files, Archived(dir, o, p.date, on))
    }

    static ghost predicate SameAt(before: map<Path, File>, after: map<Path, File>, p: Path) {
      (p in after <==> p in before) && (p in after ==> after[p] == before[p])
    }

    /** A failure among the results has a failed file operation or something in the way behind it. */
    ghost predicate IsExcused(
      results: seq<ArchiveResult>, faults0: nat, files0: map<Path, File>, o: string, dir: string, on: int, all: set<Path>)
      reads this
    {
      AllOk(results) || faults0 < faults || SomeStuck(files0, o, dir, on, all)
    }

    static ghost predicate SomeStuck(files: map<Path, File>, o: string, dir: string, on: int, all: set<Path>) {
      exists p <- all :: p.Active? && IsStuck(files, Archived(dir, o, p.date, on))
    }

    /** Of the spool files `all`, those in `done` are archived and those in `todo` are still to come. */
    ghost predicate HasArchived(
      o: string, dir: string, on: int, all: set<Path>, todo: set<Path>, done: set<Path>, results: seq<ArchiveResult>)
      reads this
    {
      && todo <= all && done <= all - todo && (forall p <- all :: p.Active? && p.owner == o)
      && (forall p <- done :: IsArchived(Archived(dir, o, p.date, on)))
      && Reports(results, o, done) && (AllOk(results) ==> done == all - todo)
    }

    lemma HasArchivedNext(
      o: string, dir: string, on: int, all: set<Path>, todo: set<Path>, done: set<Path>, results: seq<ArchiveResult>,
      p: Path, ok: bool)
      requires HasArchived(o, dir, on, all, todo, done, results)
      requires p in todo && p.Active? && (ok ==> IsArchived(Archived(dir, o, p.date, on)))
      ensures HasArchived(o, dir, on, all, todo - {p}, if ok then done + {p} else done,
                          results + [ArchiveResult(Some(p.date), ok)])
    {
      ReportsSnoc(results, o, p.date, ok, done);
    }

    /** The archives in the directory of a source whose names begin with its ID and that may go. */
    method ListExpired(r: Retention, ready: set<Day>) returns (paths: set<Path>)
      requires HasPlainNames() && r.keepsDays > 0
      ensures forall p :: p in paths <==> p in files && MayTake(r, ready, p)
    {
      forall p | p in files && p.Archived?
        ensures r.id + "_" <= ArchiveName(p.owner, rest(p.date, p.on)) <==> TakesFor(r.id, p.owner)
      {
        NamesTaken(r.id, p.owner, rest(p.date, p.on));
      }
      paths := set p <- files |
        && p.Archived? && p.dir == r.dir && r.id + "_" <= ArchiveName(p.owner, rest(p.date, p.on))
        && p.date < r.cutoff && Day(r.id, p.date) in ready;
    }

    ghost predicate HasPlainNames() {
      forall date, on :: '_' !in rest(date, on)
    }

    /** Deletes the expired archives of a source; a deletion may fail. */
    method RemoveExpiredArchives(r: Retention, ready: set<Day>) returns (results: seq<ArchiveResult>)
      requires Valid() && HasPlainNames()
      modifies this
      ensures Valid() && ExpiresSince(old(trace), trace, r, ready)
      ensures r.keepsDays > 0 && AllOk(results) ==> forall p <- files :: !MayTake(r, ready, p)
      ensures old(faults) <= faults && (AllOk(results) || old(faults) < faults)
    {
      results := [];
      if r.keepsDays <= 0 {
        return;
      }
      var listed := Attempt();
      if !listed {
        return [ArchiveResult(None, false)];
      }
      var todo := ListExpired(r, ready);
      while todo != {}
        invariant Valid() && ExpiresSince(old(trace), trace, r, ready)
        invariant old(faults) <= faults && (AllOk(results) || old(faults) < faults)
        invariant forall p <- todo :: p in files && MayTake(r, ready, p)
        invariant AllOk(results) ==> forall p <- files :: p in todo || !MayTake(r, ready, p)
        decreases |todo|
      {
        var p :| p in todo;
        todo := todo - {p};
        var ok := ExpireNext(p, r, ready, old(trace));
        results := results + [ArchiveResult(Some(p.date), ok)];
      }
    }

    /** One more deletion of those since `trace0`. */
    method ExpireNext(p: Path, r: Retention, ready: set<Day>, ghost trace0: seq<World>) returns (ok: bool)
      requires Valid() && ExpiresSince(trace0, trace, r, ready) && p in files && MayTake(r, ready, p)
      modifies this
      ensures Valid() && ExpiresSince(trace0, trace, r, ready)
      ensures files == if ok then old(files) - {p} else old(files)
      ensures faults == old(faults) + if ok then 0 else 1
    {
      ok := Expire(p);
      assert if ok then trace == old(trace) + [Expired(old(trace)[|old(trace)| - 1], p)] else trace == old(trace);
      ExpiresMore(trace0, old(trace), trace, r, ready, p);
    }

    method Expire(p: Path) returns (ok: bool)
      requires Valid() && p.Archived? && p in files
      modifies this
      ensures Valid() && trace == if ok then old(trace) + [Expired(old(Now()), p)] else old(trace)
      ensures files == if ok then old(files) - {p} else old(files)
      ensures faults == old(faults) + if ok then 0 else 1
    {
      ok := Attempt();
      if ok {
        ExpireKeepsSafe(Now(), p);
        files, retired := files - {p}, Retired(Now(), p);
        Record();
      }
    }

    /** The receiver closes a day: nothing is appended to its spool file after that. */
    method CloseDay(day: Day)
      requires Valid() && day !in days
      requires Active(day.owner, day.date) in files && files[Active(day.owner, day.date)].Plain?
      modifies this
      ensures Valid() && files == old(files) && retired == old(retired) && trace == old(trace) + [Now()]
      ensures days == old(days)[day := files[Active(day.owner, day.date)].text]
    {
      CloseDayKeepsSafe(Now(), day, files[Active(day.owner, day.date)].text);
      days := days[day := files[Active(day.owner, day.date)].text];
      Record();
    }

    /** The machine stops after any operation so far, that is, in any recorded world, and starts again. */
    method Restart(ghost crashed: World, after: map<Path, File>)
      requires Valid() && crashed in trace && MayCrashTo(crashed, World(after, crashed.days, crashed.retired))
      requires forall n: nat :: Temp(n) in after ==> n < nextTemp
      modifies this
      ensures Valid() && files == after && days == crashed.days && retired == crashed.retired
      ensures trace == old(trace) + [Now()]
    {
      CrashKeepsSafe(crashed, World(after, crashed.days, crashed.retired));
      files, days, retired := after, crashed.days, crashed.retired;
      Record();
    }

    /** Every spool file of a day that is over belongs to a closed day. */
    ghost predicate ClosedDaysKnown(today: int)
      reads this
    {
      forall p <- files :: p.Active? && p.date < today ==> Day(p.owner, p.date) in days
    }

    /** One run over all sources, each with its archive directory and its retention. */
    method Run(sources: seq<Retention>, ready: set<Day>, today: int, on: int)
      requires Valid() && ClosedDaysKnown(today) && HasPlainNames()
      modifies this
      ensures Valid() && RunsSince(old(trace), trace, sources, ready)
    {
      for i := 0 to |sources|
        invariant Valid() && ClosedDaysKnown(today) && RunsSince(old(trace), trace, sources, ready)
      {
        RunSource(sources[i], ready, today, on, sources, old(trace));
      }
    }

    method RunSource(
      r: Retention, ready: set<Day>, today: int, on: int, ghost sources: seq<Retention>, ghost trace0: seq<World>)
      requires Valid() && ClosedDaysKnown(today) && HasPlainNames()
      requires r in sources && RunsSince(trace0, trace, sources, ready)
      modifies this
      ensures Valid() && ClosedDaysKnown(today) && RunsSince(trace0, trace, sources, ready)
    {
      var archived := ArchiveClosedDays(r.id, r.dir, today, on);
      ghost var between := trace;
      ArchivingKeepsDays(old(trace), between);
      var removed := RemoveExpiredArchives(r, ready);
      ExpiringAtEnd(between, trace, r, ready);
      SourceRuns(trace0, old(trace), between, trace, sources, r, ready);
    }
  }

  /** After any number of operations and crashes: a closed day is held unless retention deleted a complete archive of it. */
  lemma ClosedDaysAreHeld(w: World, day: Day)
    requires IsSafe(w) && day in w.days
    ensures
      || IsRetired(w.retired, day)
      || (Active(day.owner, day.date) in w.files && w.files[Active(day.owner, day.date)] == Plain(w.days[day]))
      || exists dir, on ::
           && Archived(dir, day.owner, day.date, on) in w.files
           && w.files[Archived(dir, day.owner, day.date, on)] == Gzip(w.days[day], true, true)
  {
    if !IsRetired(w.retired, day) && Active(day.owner, day.date) !in w.files {
      assert IsHeld(w.files, day);
      var dir, on :| Archived(dir, day.owner, day.date, on) in w.files && IsWhole(w.files[Archived(dir, day.owner, day.date, on)]);
      assert IsSoundArchive(w, Day(day.owner, day.date), w.files[Archived(dir, day.owner, day.date, on)]);
    }
  }
}
