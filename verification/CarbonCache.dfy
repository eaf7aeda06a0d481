/** The live-snapshot cache: immutable snapshot files, a mutable latest pointer,
    atomic renames, any number of concurrent writers, and crashes anywhere. */
module CarbonCache {
  import opened Wrappers
  import opened Schemas

  // ---- files

  datatype Path = Path(directory: string, name: string)

  /** A file's content. Torn stands for bytes that are no readable record. */
  datatype Content =
    | Pointer(snapshotFile: string, pointerHash: Option<string>)
    | Record(data: CarbonRegionData, apiRecords: string, contentHash: string)
    | Torn

  type Files = map<Path, Content>

  const LATEST := "latest.json"

  /** A bare file name: one path component. */
  predicate PlainName(name: string) {
    name != "" && name != "." && name != ".." && '/' !in name
  }

  /** What one save writes and where: the snapshot file, the two temporary
      files, and the record. */
  datatype Save = Save(directory: string, file: string, snapshotTmp: string, pointerTmp: string,
                       data: CarbonRegionData, apiRecords: string)

  /** The content hash of a record, and the directory of a provider region (the
      code refuses regions without a usable one). Both are arbitrary functions:
      directories of different regions may collide. */
  datatype Scheme = Scheme(hash: (CarbonRegionData, string) -> string, directoryOf: string -> Option<string>,
                           maxAge: int)

  function RecordOf(scheme: Scheme, save: Save): Content {
    Record(save.data, save.apiRecords, scheme.hash(save.data, save.apiRecords))
  }

  function PointerOf(scheme: Scheme, save: Save): Content {
    Pointer(save.file, Some(scheme.hash(save.data, save.apiRecords)))
  }

  // ---- the steps of one save

  datatype Phase = Ready | SnapshotTorn | SnapshotWritten | SnapshotPlaced | PointerTorn | PointerWritten | Finished

  function Next(phase: Phase): Phase {
    match phase
    case Ready => SnapshotTorn
    case SnapshotTorn => SnapshotWritten
    case SnapshotWritten => SnapshotPlaced
    case SnapshotPlaced => PointerTorn
    case PointerTorn => PointerWritten
    case PointerWritten => Finished
    case Finished => Finished
  }

  /** A write is not atomic: the temporary file is torn before it is complete.
      A rename is: the temporary disappears and the target appears in one step. */
  function Effect(scheme: Scheme, files: Files, save: Save, phase: Phase): Files {
    var d := save.directory;
    match phase
    case Ready => files[Path(d, save.snapshotTmp) := Torn]
    case SnapshotTorn => files[Path(d, save.snapshotTmp) := RecordOf(scheme, save)]
    case SnapshotWritten => (files - {Path(d, save.snapshotTmp)})[Path(d, save.file) := RecordOf(scheme, save)]
    case SnapshotPlaced => files[Path(d, save.pointerTmp) := Torn]
    case PointerTorn => files[Path(d, save.pointerTmp) := PointerOf(scheme, save)]
    case PointerWritten => (files - {Path(d, save.pointerTmp)})[Path(d, LATEST) := PointerOf(scheme, save)]
    case Finished => files
  }

  // ---- loading

  datatype LoadError =
    | UnusableRegion | Unreadable | IntegrityFailed | PointerMismatch | RegionMismatch | FromTheFuture | TooOld

  /** The guard chain on a pointer and the snapshot it names. */
  function Judge(scheme: Scheme, region: string, now: int, reason: string, path: Path, pointerHash: Option<string>,
                 record: Content)
    : Result<CarbonRegionData, LoadError>
    requires record.Record?
  {
    if scheme.hash(record.data, record.apiRecords) != record.contentHash then Result.Failure(IntegrityFailed)
    else if pointerHash.Some? && pointerHash.value != record.contentHash then Result.Failure(PointerMismatch)
    else if record.data.providerRegion != region then Result.Failure(RegionMismatch)
    else if now - record.data.capturedAt < 0 then Result.Failure(FromTheFuture)
    else if now - record.data.capturedAt > scheme.maxAge then Result.Failure(TooOld)
    else Success(record.data.(source := Cache, rawSourcePath := Some(path.directory + "/" + path.name),
                              rawSourceHash := Some(record.contentHash), fallbackReason := Some(reason)))
  }

  function Load(scheme: Scheme, files: Files, region: string, now: int,
                reason: string): Result<CarbonRegionData, LoadError> {
    match scheme.directoryOf(region)
    case None => Result.Failure(UnusableRegion)
    case Some(directory) =>
      var pointer := Lookup(files, Path(directory, LATEST), Torn);
      if !pointer.Pointer? || !PlainName(pointer.snapshotFile) then Result.Failure(Unreadable)
      else
        var path := Path(directory, pointer.snapshotFile);
        var record := Lookup(files, path, Torn);
        if !record.Record? then Result.Failure(Unreadable)
        else Judge(scheme, region, now, reason, path, pointer.pointerHash, record)
  }

  /** Whatever the files hold: a load succeeds exactly when the region's `latest.json` leads to
      a plain file that is a record with its own content hash, the pointer's hash is
      absent or the same, and the record is of this region and between zero and the
      maximum age old. A record altered after it was written, or a pointer that names
      another one's hash, never loads. */
  lemma LoadSucceedsIff(scheme: Scheme, files: Files, region: string, now: int, reason: string)
    ensures Load(scheme, files, region, now, reason).Success?
            <==> && scheme.directoryOf(region).Some?
                 && var directory := scheme.directoryOf(region).value;
                 && Path(directory, "latest.json") in files && files[Path(directory, "latest.json")].Pointer?
                 && var pointer := files[Path(directory, "latest.json")];
                 && pointer.snapshotFile != "" && pointer.snapshotFile != "." && pointer.snapshotFile != ".."
                 && (forall i :: 0 <= i < |pointer.snapshotFile| ==> pointer.snapshotFile[i] != '/')
                 && Path(directory, pointer.snapshotFile) in files
                 && var record := files[Path(directory, pointer.snapshotFile)];
                 && record.Record?
                 && record.contentHash == scheme.hash(record.data, record.apiRecords)
                 && (pointer.pointerHash == None || pointer.pointerHash == Some(record.contentHash))
                 && record.data.providerRegion == region
                 && 0 <= now - record.data.capturedAt <= scheme.maxAge
  {
  }

  /** Which guard refuses a readable record: its hash, the pointer's, its region, an
      instant in the future, its age, in this order. */
  lemma LoadErrorIs(scheme: Scheme, files: Files, region: string, now: int, reason: string, directory: string,
                    pointer: Content, record: Content)
    requires scheme.directoryOf(region) == Some(directory)
    requires Path(directory, "latest.json") in files && files[Path(directory, "latest.json")] == pointer
    requires pointer.Pointer? && PlainName(pointer.snapshotFile)
    requires Path(directory, pointer.snapshotFile) in files && record == files[Path(directory, pointer.snapshotFile)]
    requires record.Record?
    ensures var r := Load(scheme, files, region, now, reason);
            var whole := record.contentHash == scheme.hash(record.data, record.apiRecords);
            var named := pointer.pointerHash.None? || pointer.pointerHash.value == record.contentHash;
            var its := record.data.providerRegion == region;
            && (r == Result.Failure(IntegrityFailed) <==> !whole)
            && (r == Result.Failure(PointerMismatch) <==> whole && !named)
            && (r == Result.Failure(RegionMismatch) <==> whole && named && !its)
            && (r == Result.Failure(FromTheFuture) <==> whole && named && its && now < record.data.capturedAt)
            && (r == Result.Failure(TooOld)
                <==> whole && named && its && now >= record.data.capturedAt
                     && now - record.data.capturedAt > scheme.maxAge)
  {
  }

  // ---- the cache object

  class CarbonCache {
    const scheme: Scheme
    var files: Files

    constructor (scheme: Scheme, files: Files)
      ensures this.scheme == scheme && this.files == files
    {
      this.scheme, this.files := scheme, files;
    }

    /** The files after the first `steps` steps of a save. */
    static ghost function After(scheme: Scheme, files: Files, save: Save, steps: nat): (Files, Phase) {
      if steps == 0 then (files, Ready)
      else
        var (before, phase) := After(scheme, files, save, steps - 1);
        (Effect(scheme, before, save, phase), Next(phase))
    }

    /** One step of the save in progress. */
    method Step(save: Save, phase: Phase) returns (next: Phase)
      modifies this`files
      ensures files == Effect(scheme, old(files), save, phase)
      ensures next == Next(phase)
    {
      files := Effect(scheme, files, save, phase);
      next := Next(phase);
    }

    /** Write a file through its temporary: torn, complete, renamed. Returns
        early when the crash budget runs out. */
    method AtomicWrite(save: Save, phase: Phase, ghost base: Files, ghost done: nat,
                       budget: nat) returns (reached: Phase, left: nat, ghost total: nat)
      requires phase == Ready || phase == SnapshotPlaced
      requires After(scheme, base, save, done) == (files, phase)
      modifies this`files
      ensures After(scheme, base, save, total) == (files, reached)
      ensures total == done + (if budget < 3 then budget else 3) && left == (if budget < 3 then 0 else budget - 3)
    {
      reached, left, total := phase, budget, done;
      for i := 0 to 3
        invariant total == done + (if budget < i then budget else i)
        invariant left == if budget < i then 0 else budget - i
        invariant After(scheme, base, save, total) == (files, reached)
      {
        if left > 0 {
          reached := Step(save, reached);
          left, total := left - 1, total + 1;
        }
      }
    }

    /** Only live data of a region with a usable directory is saved. */
    predicate Savable(save: Save) {
      save.data.source.Live? && scheme.directoryOf(save.data.providerRegion).Some?
    }

    /** Save a live snapshot: the snapshot file first, then the pointer. A crash
        after any number of steps leaves the files those steps made. */
    method SaveLive(save: Save, crashAfter: Option<nat>) returns (stored: Option<CarbonRegionData>)
      requires var directory := scheme.directoryOf(save.data.providerRegion);
               directory.Some? ==> directory.value == save.directory
      modifies this`files
      ensures !Savable(save) ==> stored == None && files == old(files)
      ensures Savable(save) ==>
                files == After(scheme, old(files), save,
                               if crashAfter.Some? && crashAfter.value < 6 then crashAfter.value else 6).0
      ensures stored.Some? <==> Savable(save) && (crashAfter.Some? ==> crashAfter.value >= 6)
      ensures stored.Some? ==>
                stored.value == save.data.(rawSourcePath := Some(save.directory + "/" + save.file),
                                           rawSourceHash := Some(scheme.hash(save.data, save.apiRecords)))
    {
      if !save.data.source.Live? || scheme.directoryOf(save.data.providerRegion).None? {
        return None;
      }
      var budget := if crashAfter.Some? && crashAfter.value < 6 then crashAfter.value else 6;
      ghost var base := files;
      ghost var done;
      var phase, left;
      phase, left, done := AtomicWrite(save, Ready, base, 0, budget);
      if budget < 3 {
        return None;
      }
      PhaseAfterThree(scheme, base, save);
      phase, left, done := AtomicWrite(save, phase, base, done, left);
      if budget < 6 {
        return None;
      }
      return Some(save.data.(rawSourcePath := Some(save.directory + "/" + save.file),
                             rawSourceHash := Some(scheme.hash(save.data, save.apiRecords))));
    }

    method LoadLatest(region: string, now: int, reason: string) returns (r: Result<CarbonRegionData, LoadError>)
      ensures r == Load(scheme, files, region, now, reason)
    {
      var directory := scheme.directoryOf(region);
      if directory.None? {
        return Result.Failure(UnusableRegion);
      }
      var pointerPath := Path(directory.value, LATEST);
      if pointerPath !in files || !files[pointerPath].Pointer? {
        return Result.Failure(Unreadable);
      }
      var pointer := files[pointerPath];
      if !PlainName(pointer.snapshotFile) {
        return Result.Failure(Unreadable);
      }
      var path := Path(directory.value, pointer.snapshotFile);
      if path !in files || !files[path].Record? {
        return Result.Failure(Unreadable);
      }
      r := Judge(scheme, region, now, reason, path, pointer.pointerHash, files[path]);
    }
  }

  lemma PhaseAfterThree(scheme: Scheme, base: Files, save: Save)
    ensures CarbonCache.After(scheme, base, save, 3).1 == SnapshotPlaced
  {
    assert CarbonCache.After(scheme, base, save, 1).1 == SnapshotTorn;
    assert CarbonCache.After(scheme, base, save, 2).1 == SnapshotWritten;
  }

  // ---- concurrent writers and crashes

  /** The files, the saves in progress with their phases, and the history: every
      save ever begun, and which save last completed its pointer per directory. */
  datatype CacheState = CacheState(files: Files, active: map<nat, (Save, Phase)>, begun: set<Save>,
                                   published: map<string, Save>)

  predicate Names(save: Save, name: string) {
    name == save.file || name == save.snapshotTmp || name == save.pointerTmp
  }

  /** Three distinct names, none of them the pointer's. */
  predicate UsableNames(save: Save) {
    && PlainName(save.file)
    && save.file != save.snapshotTmp && save.file != save.pointerTmp && save.snapshotTmp != save.pointerTmp
    && !Names(save, LATEST)
  }

  ghost predicate NamesApart(a: Save, b: Save) {
    a.directory == b.directory ==> forall name :: Names(a, name) ==> !Names(b, name)
  }

  /** Begin a save, take its next step, lose it to a crash, or abandon it on an
      exception, which removes the temporary file it left. */
  datatype Move = Begin(id: nat, save: Save) | Advance(id: nat) | Crash(id: nat) | Abort(id: nat)

  /** A save begins with names unused by any file or save in progress of its
      directory (the code takes them from fresh UUIDs) and only for live data. */
  ghost predicate Enabled(st: CacheState, move: Move) {
    match move
    case Begin(id, save) =>
      && id !in st.active
      && save.data.source.Live?
      && UsableNames(save)
      && (forall name :: Names(save, name) ==> Path(save.directory, name) !in st.files)
      && (forall other :: other in st.active ==> NamesApart(save, st.active[other].0))
    case Advance(id) => id in st.active
    case Crash(id) => id in st.active
    case Abort(id) => id in st.active
  }

  /** The cleanup of an abandoned save. */
  function Cleaned(files: Files, save: Save): Files {
    files - {Path(save.directory, save.snapshotTmp), Path(save.directory, save.pointerTmp)}
  }

  ghost function Apply(scheme: Scheme, st: CacheState, move: Move): CacheState
    requires Enabled(st, move)
  {
    match move
    case Begin(id, save) => st.(active := st.active[id := (save, Ready)], begun := st.begun + {save})
    case Advance(id) =>
      var (save, phase) := st.active[id];
      CacheState(Effect(scheme, st.files, save, phase), st.active[id := (save, Next(phase))], st.begun,
                 if phase == PointerWritten then st.published[save.directory := save] else st.published)
    case Crash(id) => st.(active := st.active - {id})
    case Abort(id) => st.(files := Cleaned(st.files, st.active[id].0), active := st.active - {id})
  }

  function At(files: Files, directory: string, name: string): Content {
    Lookup(files, Path(directory, name), Torn)
  }

  /** The snapshot has been renamed into place. */
  predicate Placed(phase: Phase) {
    phase == SnapshotPlaced || phase == PointerTorn || phase == PointerWritten || phase == Finished
  }

  /** The files agree with the phase of a save in progress. */
  predicate PhaseHolds(scheme: Scheme, files: Files, save: Save, phase: Phase) {
    && (phase == SnapshotWritten ==> At(files, save.directory, save.snapshotTmp) == RecordOf(scheme, save))
    && (Placed(phase) ==> At(files, save.directory, save.file) == RecordOf(scheme, save))
    && (phase == PointerWritten ==> At(files, save.directory, save.pointerTmp) == PointerOf(scheme, save))
  }

  /** A published save's pointer and snapshot are in place. */
  predicate Stands(scheme: Scheme, files: Files, save: Save, directory: string) {
    && save.directory == directory && PlainName(save.file) && save.file != LATEST
    && At(files, directory, LATEST) == PointerOf(scheme, save)
    && At(files, directory, save.file) == RecordOf(scheme, save)
  }

  /** No save in progress will touch the snapshot of a published one. */
  predicate LeavesAlone(inProgress: Save, phase: Phase, published: Save) {
    inProgress.directory == published.directory ==>
      if inProgress == published then Placed(phase) else !Names(inProgress, published.file)
  }

  ghost predicate ActiveOk(scheme: Scheme, st: CacheState, id: nat)
    requires id in st.active
  {
    var (save, phase) := st.active[id];
    && save in st.begun
    && UsableNames(save)
    && PhaseHolds(scheme, st.files, save, phase)
    && (forall d :: d in st.published ==> LeavesAlone(save, phase, st.published[d]))
  }

  /** The invariant of every reachable state. */
  ghost predicate Inv(scheme: Scheme, st: CacheState) {
    && (forall d :: At(st.files, d, LATEST).Pointer? ==> d in st.published)
    && (forall d :: d in st.published ==> st.published[d] in st.begun && Stands(scheme, st.files, st.published[d], d))
    && (forall id :: id in st.active ==> ActiveOk(scheme, st, id))
    && (forall id, other :: id in st.active && other in st.active && id != other
          ==> NamesApart(st.active[id].0, st.active[other].0))
    && (forall save :: save in st.begun ==> save.data.source.Live?)
  }

  const EMPTY := CacheState(map[], map[], {}, map[])

  /** A step of a save changes nothing but its own files and, last, the pointer. */
  lemma EffectElsewhere(scheme: Scheme, files: Files, save: Save, phase: Phase, directory: string, name: string)
    requires directory != save.directory || !(Names(save, name) || (phase == PointerWritten && name == LATEST))
    ensures At(Effect(scheme, files, save, phase), directory, name) == At(files, directory, name)
  {
    var p := Path(directory, name);
    assert p != Path(save.directory, save.file);
    assert p != Path(save.directory, save.snapshotTmp) && p != Path(save.directory, save.pointerTmp);
  }

  /** A save's own next phase holds after its step. */
  lemma EffectAdvances(scheme: Scheme, files: Files, save: Save, phase: Phase)
    requires UsableNames(save) && PhaseHolds(scheme, files, save, phase)
    ensures PhaseHolds(scheme, Effect(scheme, files, save, phase), save, Next(phase))
    ensures phase == PointerWritten ==> Stands(scheme, Effect(scheme, files, save, phase), save, save.directory)
  {
  }

  lemma OthersUndisturbed(scheme: Scheme, files: Files, save: Save, phase: Phase, other: Save, itsPhase: Phase)
    requires UsableNames(other) && NamesApart(save, other)
    requires PhaseHolds(scheme, files, other, itsPhase)
    ensures PhaseHolds(scheme, Effect(scheme, files, save, phase), other, itsPhase)
  {
    assert Names(other, other.file) && Names(other, other.snapshotTmp) && Names(other, other.pointerTmp);
    assert !Names(other, LATEST);
    EffectElsewhere(scheme, files, save, phase, other.directory, other.file);
    EffectElsewhere(scheme, files, save, phase, other.directory, other.snapshotTmp);
    EffectElsewhere(scheme, files, save, phase, other.directory, other.pointerTmp);
  }

  /** A published save still stands after another step, unless that step
      publishes in the same directory. */
  lemma PublishedUndisturbed(scheme: Scheme, files: Files, save: Save, phase: Phase, published: Save, directory: string)
    requires UsableNames(save) && PhaseHolds(scheme, files, save, phase)
    requires Stands(scheme, files, published, directory) && LeavesAlone(save, phase, published)
    requires !(phase == PointerWritten && save.directory == directory)
    ensures Stands(scheme, Effect(scheme, files, save, phase), published, directory)
  {
    EffectElsewhere(scheme, files, save, phase, directory, LATEST);
    if save == published {
      EffectAdvances(scheme, files, save, phase);
    } else {
      EffectElsewhere(scheme, files, save, phase, directory, published.file);
    }
  }

  lemma AdvanceKeepsInv(scheme: Scheme, st: CacheState, id: nat)
    requires Inv(scheme, st) && Enabled(st, Advance(id))
    ensures Inv(scheme, Apply(scheme, st, Advance(id)))
  {
    var (save, phase) := st.active[id];
    var st' := Apply(scheme, st, Advance(id));
    assert ActiveOk(scheme, st, id);
    EffectAdvances(scheme, st.files, save, phase);
    forall d | At(st'.files, d, LATEST).Pointer? ensures d in st'.published {
      if !(phase == PointerWritten && d == save.directory) {
        EffectElsewhere(scheme, st.files, save, phase, d, LATEST);
      }
    }
    forall d | d in st'.published
      ensures st'.published[d] in st'.begun && Stands(scheme, st'.files, st'.published[d], d)
    {
      if !(phase == PointerWritten && d == save.directory) {
        PublishedUndisturbed(scheme, st.files, save, phase, st.published[d], d);
      }
    }
    forall other | other in st'.active ensures ActiveOk(scheme, st', other) {
      AdvanceKeepsActive(scheme, st, id, other);
    }
    forall a, b | a in st'.active && b in st'.active && a != b ensures NamesApart(st'.active[a].0, st'.active[b].0) {
      assert NamesApart(st.active[a].0, st.active[b].0);
    }
  }

  lemma AdvanceKeepsActive(scheme: Scheme, st: CacheState, id: nat, other: nat)
    requires Inv(scheme, st) && id in st.active && other in st.active
    ensures ActiveOk(scheme, Apply(scheme, st, Advance(id)), other)
  {
    var (save, phase) := st.active[id];
    var (its, itsPhase) := st.active[other];
    assert ActiveOk(scheme, st, id) && ActiveOk(scheme, st, other);
    if id == other {
      EffectAdvances(scheme, st.files, save, phase);
    } else {
      assert NamesApart(save, its);
      OthersUndisturbed(scheme, st.files, save, phase, its, itsPhase);
      assert Names(save, save.file);
    }
  }

  lemma BeginKeepsInv(scheme: Scheme, st: CacheState, id: nat, save: Save)
    requires Inv(scheme, st) && Enabled(st, Begin(id, save))
    ensures Inv(scheme, Apply(scheme, st, Begin(id, save)))
  {
    var st' := Apply(scheme, st, Begin(id, save));
    forall d | d in st.published ensures LeavesAlone(save, Ready, st.published[d]) {
      assert Stands(scheme, st.files, st.published[d], d);
      assert Path(d, st.published[d].file) in st.files;
      assert Names(save, save.file);
    }
    forall other | other in st'.active ensures ActiveOk(scheme, st', other) {
      if other != id {
        assert ActiveOk(scheme, st, other);
      }
    }
    forall a, b | a in st'.active && b in st'.active && a != b ensures NamesApart(st'.active[a].0, st'.active[b].0) {
      if a == id {
        assert NamesApart(save, st.active[b].0);
      } else if b == id {
        assert NamesApart(save, st.active[a].0);
      } else {
        assert NamesApart(st.active[a].0, st.active[b].0);
      }
    }
  }

  lemma CrashKeepsInv(scheme: Scheme, st: CacheState, id: nat)
    requires Inv(scheme, st) && Enabled(st, Crash(id))
    ensures Inv(scheme, Apply(scheme, st, Crash(id)))
  {
    var st' := Apply(scheme, st, Crash(id));
    forall other | other in st'.active ensures ActiveOk(scheme, st', other) {
      assert ActiveOk(scheme, st, other);
    }
  }

  lemma CleanedElsewhere(files: Files, save: Save, directory: string, name: string)
    requires directory == save.directory ==> name != save.snapshotTmp && name != save.pointerTmp
    ensures At(Cleaned(files, save), directory, name) == At(files, directory, name)
  {
  }

  lemma AbortKeepsPublished(scheme: Scheme, st: CacheState, id: nat, directory: string)
    requires Inv(scheme, st) && Enabled(st, Abort(id)) && directory in st.published
    ensures Stands(scheme, Cleaned(st.files, st.active[id].0), st.published[directory], directory)
  {
    var (save, phase) := st.active[id];
    assert ActiveOk(scheme, st, id) && LeavesAlone(save, phase, st.published[directory]);
    assert Stands(scheme, st.files, st.published[directory], directory);
    assert !Names(save, LATEST);
    CleanedElsewhere(st.files, save, directory, LATEST);
    CleanedElsewhere(st.files, save, directory, st.published[directory].file);
  }

  lemma AbortKeepsActive(scheme: Scheme, st: CacheState, id: nat, other: nat)
    requires Inv(scheme, st) && Enabled(st, Abort(id)) && other in st.active && other != id
    ensures ActiveOk(scheme, Apply(scheme, st, Abort(id)), other)
  {
    var save, its := st.active[id].0, st.active[other].0;
    assert ActiveOk(scheme, st, other) && NamesApart(save, its);
    assert Names(save, save.snapshotTmp) && Names(save, save.pointerTmp);
    CleanedElsewhere(st.files, save, its.directory, its.file);
    CleanedElsewhere(st.files, save, its.directory, its.snapshotTmp);
    CleanedElsewhere(st.files, save, its.directory, its.pointerTmp);
  }

  lemma AbortKeepsInv(scheme: Scheme, st: CacheState, id: nat)
    requires Inv(scheme, st) && Enabled(st, Abort(id))
    ensures Inv(scheme, Apply(scheme, st, Abort(id)))
  {
    var st' := Apply(scheme, st, Abort(id));
    forall d | d in st'.published ensures Stands(scheme, st'.files, st'.published[d], d) {
      AbortKeepsPublished(scheme, st, id, d);
    }
    forall other | other in st'.active ensures ActiveOk(scheme, st', other) {
      AbortKeepsActive(scheme, st, id, other);
    }
  }

  lemma MoveKeepsInv(scheme: Scheme, st: CacheState, move: Move)
    requires Inv(scheme, st) && Enabled(st, move)
    ensures Inv(scheme, Apply(scheme, st, move))
  {
    match move
    case Begin(id, save) => BeginKeepsInv(scheme, st, id, save);
    case Advance(id) => AdvanceKeepsInv(scheme, st, id);
    case Crash(id) => CrashKeepsInv(scheme, st, id);
    case Abort(id) => AbortKeepsInv(scheme, st, id);
  }

  // ---- what loading returns

  /** A trace of moves from the empty cache, each enabled where it happens. */
  ghost predicate Reaches(scheme: Scheme, moves: seq<Move>, st: CacheState)
    decreases |moves|
  {
    if moves == [] then st == EMPTY
    else
      exists before :: ReachesThen(scheme, moves, before, st)
  }

  ghost predicate ReachesThen(scheme: Scheme, moves: seq<Move>, before: CacheState, st: CacheState)
    requires moves != []
    decreases |moves|, 0
  {
    && Reaches(scheme, moves[..|moves| - 1], before)
    && Enabled(before, moves[|moves| - 1])
    && st == Apply(scheme, before, moves[|moves| - 1])
  }

  lemma {:induction false} ReachableInv(scheme: Scheme, moves: seq<Move>, st: CacheState)
    requires Reaches(scheme, moves, st)
    ensures Inv(scheme, st)
  {
    if moves != [] {
      var before :| ReachesThen(scheme, moves, before, st);
      ReachableInv(scheme, moves[..|moves| - 1], before);
      MoveKeepsInv(scheme, before, moves[|moves| - 1]);
    }
  }

  /** What a load of the last published save of a directory gives. */
  function LoadPublished(scheme: Scheme, published: map<string, Save>, region: string, now: int, reason: string)
    : Result<CarbonRegionData, LoadError>
  {
    match scheme.directoryOf(region)
    case None => Result.Failure(UnusableRegion)
    case Some(directory) =>
      if directory !in published then Result.Failure(Unreadable)
      else
        var save := published[directory];
        Judge(scheme, region, now, reason, Path(directory, save.file), Some(scheme.hash(save.data, save.apiRecords)),
              RecordOf(scheme, save))
  }

  /** What a published save leaves in its directory, in every reachable state: a pointer
      to its file with its hash, and there its data with the same hash. */
  lemma PublishedIsInPlace(scheme: Scheme, moves: seq<Move>, st: CacheState, directory: string)
    requires Reaches(scheme, moves, st) && directory in st.published
    ensures var save := st.published[directory];
            var hash := scheme.hash(save.data, save.apiRecords);
            && Path(directory, "latest.json") in st.files
            && st.files[Path(directory, "latest.json")] == Pointer(save.file, Some(hash))
            && Path(directory, save.file) in st.files
            && st.files[Path(directory, save.file)] == Record(save.data, save.apiRecords, hash)
  {
    ReachableInv(scheme, moves, st);
    assert Stands(scheme, st.files, st.published[directory], directory);
  }

  /** An abandoned save leaves neither of its temporary files, and every other file. */
  lemma AbortCleansUp(scheme: Scheme, st: CacheState, id: nat, path: Path)
    requires Enabled(st, Abort(id))
    ensures var save := st.active[id].0;
            var files := Apply(scheme, st, Abort(id)).files;
            && (path in files
                <==> path in st.files && path != Path(save.directory, save.snapshotTmp)
                     && path != Path(save.directory, save.pointerTmp))
            && (path in files ==> files[path] == st.files[path])
  {
  }

  /** Crash consistency. In every reachable state, with any number of saves in
      progress or crashed at any step, loading gives the verdict on the last
      completed save of the region's directory and nothing else: never a torn
      record, never a pointer without its snapshot, never a mix of two saves. */
  lemma LoadIsLastPublished(scheme: Scheme, moves: seq<Move>, st: CacheState, region: string, now: int, reason: string)
    requires Reaches(scheme, moves, st)
    ensures Load(scheme, st.files, region, now, reason) == LoadPublished(scheme, st.published, region, now, reason)
  {
    ReachableInv(scheme, moves, st);
    var directory := scheme.directoryOf(region);
    if directory.Some? && directory.value in st.published {
      assert Stands(scheme, st.files, st.published[directory.value], directory.value);
    }
  }

  /** One move changes what a region loads only if it is the final rename of a
      save in that region's directory, and then to exactly that save's data. */
  lemma OnlyPublishingChangesLoads(scheme: Scheme, moves: seq<Move>, st: CacheState, move: Move, region: string,
                                   now: int, reason: string)
    requires Reaches(scheme, moves, st) && Enabled(st, move)
    ensures var st' := Apply(scheme, st, move);
            var publishes := move.Advance? && st.active[move.id].1 == PointerWritten
                             && scheme.directoryOf(region) == Some(st.active[move.id].0.directory);
            && (!publishes ==>
                  Load(scheme, st'.files, region, now, reason) == Load(scheme, st.files, region, now, reason))
            && (publishes ==>
                  var save := st.active[move.id].0;
                  Load(scheme, st'.files, region, now, reason)
                  == LoadPublished(scheme, map[save.directory := save], region, now, reason))
  {
    var st' := Apply(scheme, st, move);
    assert (moves + [move])[..|moves|] == moves;
    assert ReachesThen(scheme, moves + [move], st, st');
    LoadIsLastPublished(scheme, moves, st, region, now, reason);
    LoadIsLastPublished(scheme, moves + [move], st', region, now, reason);
  }

  /** Whatever a load returns was saved live, belongs to the requested region
      even when directories collide, is between zero and the maximum age old,
      and is relabelled as cached with its path, hash and reason. */
  lemma LoadedIsSavedAndFresh(scheme: Scheme, moves: seq<Move>, st: CacheState, region: string, now: int,
                              reason: string)
    requires Reaches(scheme, moves, st)
    requires Load(scheme, st.files, region, now, reason).Success?
    ensures var loaded := Load(scheme, st.files, region, now, reason).value;
            && loaded.source == Cache
            && loaded.providerRegion == region
            && 0 <= now - loaded.capturedAt <= scheme.maxAge
            && exists save ::
                 && save in st.begun
                 && save.data.source.Live?
                 && scheme.directoryOf(region) == Some(save.directory)
                 && loaded == save.data.(source := Cache, rawSourcePath := Some(save.directory + "/" + save.file),
                                         rawSourceHash := Some(scheme.hash(save.data, save.apiRecords)),
                                         fallbackReason := Some(reason))
  {
    ReachableInv(scheme, moves, st);
    LoadIsLastPublished(scheme, moves, st, region, now, reason);
    var save := st.published[scheme.directoryOf(region).value];
    assert save in st.begun && Stands(scheme, st.files, save, scheme.directoryOf(region).value);
  }

  /** Round trip: after a save completes, as long as no other save completes in
      the same directory, loading its region within the age limit gives back the
      saved data, whatever else is begun, advanced or crashed meanwhile. */
  lemma {:induction false} SaveThenLoad(scheme: Scheme, moves: seq<Move>, later: seq<Move>, st: CacheState,
                                        end: CacheState,
                                        save: Save, now: int, reason: string)
    requires Reaches(scheme, moves, st) && Reaches(scheme, moves + later, end)
    requires Continues(scheme, st, later, end, save.directory)
    requires scheme.directoryOf(save.data.providerRegion) == Some(save.directory)
    requires save.directory in st.published && st.published[save.directory] == save
    requires 0 <= now - save.data.capturedAt <= scheme.maxAge
    ensures Load(scheme, end.files, save.data.providerRegion, now, reason)
            == Success(save.data.(source := Cache, rawSourcePath := Some(save.directory + "/" + save.file),
                                  rawSourceHash := Some(scheme.hash(save.data, save.apiRecords)),
                                  fallbackReason := Some(reason)))
  {
    PublishedKept(scheme, st, later, end, save.directory);
    LoadIsLastPublished(scheme, moves + later, end, save.data.providerRegion, now, reason);
  }

  /** `later` leads from `st` to `end` without completing a save in `directory`. */
  ghost predicate Continues(scheme: Scheme, st: CacheState, later: seq<Move>, end: CacheState, directory: string)
    decreases |later|
  {
    if later == [] then st == end
    else
      && Enabled(st, later[0])
      && !(&& later[0].Advance?
           && st.active[later[0].id].1 == PointerWritten
           && st.active[later[0].id].0.directory == directory)
      && Continues(scheme, Apply(scheme, st, later[0]), later[1..], end, directory)
  }

  lemma {:induction false} PublishedKept(scheme: Scheme, st: CacheState, later: seq<Move>, end: CacheState,
                                         directory: string)
    requires Continues(scheme, st, later, end, directory)
    requires directory in st.published
    ensures directory in end.published && end.published[directory] == st.published[directory]
    decreases |later|
  {
    if later != [] {
      PublishedKept(scheme, Apply(scheme, st, later[0]), later[1..], end, directory);
    }
  }

  // ---- a load that is not atomic

  /** Load with the pointer read from one state of the files and the snapshot
      it names from a later one. */
  function LoadAcross(scheme: Scheme, pointers: Files, snapshots: Files, region: string, now: int,
                      reason: string): Result<CarbonRegionData, LoadError> {
    match scheme.directoryOf(region)
    case None => Result.Failure(UnusableRegion)
    case Some(directory) =>
      var pointer := At(pointers, directory, LATEST);
      if !pointer.Pointer? || !PlainName(pointer.snapshotFile) then Result.Failure(Unreadable)
      else
        var path := Path(directory, pointer.snapshotFile);
        var record := Lookup(snapshots, path, Torn);
        if !record.Record? then Result.Failure(Unreadable)
        else Judge(scheme, region, now, reason, path, pointer.pointerHash, record)
  }

  /** A placed snapshot no save in progress can touch. */
  ghost predicate Immutable(scheme: Scheme, st: CacheState, save: Save) {
    && save.file != LATEST
    && At(st.files, save.directory, save.file) == RecordOf(scheme, save)
    && (forall id :: id in st.active ==> LeavesAlone(st.active[id].0, st.active[id].1, save))
  }

  lemma ImmutableStays(scheme: Scheme, st: CacheState, move: Move, save: Save)
    requires Inv(scheme, st) && Enabled(st, move)
    requires Immutable(scheme, st, save)
    ensures Immutable(scheme, Apply(scheme, st, move), save)
  {
    if move.Begin? {
      assert Path(save.directory, save.file) in st.files;
      assert Names(move.save, move.save.file);
    } else if move.Advance? {
      var (its, phase) := st.active[move.id];
      assert ActiveOk(scheme, st, move.id) && LeavesAlone(its, phase, save);
      if its == save {
        EffectAdvances(scheme, st.files, its, phase);
      } else {
        EffectElsewhere(scheme, st.files, its, phase, save.directory, save.file);
      }
    } else if move.Abort? {
      var (its, phase) := st.active[move.id];
      assert ActiveOk(scheme, st, move.id) && LeavesAlone(its, phase, save);
      CleanedElsewhere(st.files, its, save.directory, save.file);
    }
  }

  /** `later` leads from `st` to `end`. */
  ghost predicate Leads(scheme: Scheme, st: CacheState, later: seq<Move>, end: CacheState)
    decreases |later|
  {
    if later == [] then st == end
    else Enabled(st, later[0]) && Leads(scheme, Apply(scheme, st, later[0]), later[1..], end)
  }

  lemma {:induction false} ImmutableForever(scheme: Scheme, st: CacheState, later: seq<Move>, end: CacheState,
                                            save: Save)
    requires Inv(scheme, st) && Leads(scheme, st, later, end)
    requires Immutable(scheme, st, save)
    ensures Immutable(scheme, end, save)
    decreases |later|
  {
    if later != [] {
      ImmutableStays(scheme, st, later[0], save);
      MoveKeepsInv(scheme, st, later[0]);
      ImmutableForever(scheme, Apply(scheme, st, later[0]), later[1..], end, save);
    }
  }

  /** Snapshots are immutable, so a load whose two reads are separated by any
      moves of any savers still gives the verdict of its first read. */
  lemma LoadNeedNotBeAtomic(scheme: Scheme, moves: seq<Move>, st: CacheState, later: seq<Move>, end: CacheState,
                            region: string, now: int, reason: string)
    requires Reaches(scheme, moves, st) && Leads(scheme, st, later, end)
    ensures LoadAcross(scheme, st.files, end.files, region, now, reason) == Load(scheme, st.files, region, now, reason)
  {
    ReachableInv(scheme, moves, st);
    var directory := scheme.directoryOf(region);
    if directory.Some? && directory.value in st.published {
      var save := st.published[directory.value];
      assert Stands(scheme, st.files, save, directory.value);
      forall id | id in st.active ensures LeavesAlone(st.active[id].0, st.active[id].1, save) {
        assert ActiveOk(scheme, st, id);
      }
      ImmutableForever(scheme, st, later, end, save);
    }
  }

  // ---- the object's save is a run of moves

  ghost function AdvanceTimes(scheme: Scheme, st: CacheState, id: nat, steps: nat): (after: CacheState)
    requires id in st.active
    ensures id in after.active
  {
    if steps == 0 then st else Apply(scheme, AdvanceTimes(scheme, st, id, steps - 1), Advance(id))
  }

  /** `SaveLive` stopped after any number of steps leaves the files of beginning
      the save and advancing it that many times. */
  lemma {:induction false} SaveLiveIsAdvancing(scheme: Scheme, st: CacheState, id: nat, save: Save, steps: nat)
    requires Enabled(st, Begin(id, save))
    ensures var after := AdvanceTimes(scheme, Apply(scheme, st, Begin(id, save)), id, steps);
            && after.files == CarbonCache.After(scheme, st.files, save, steps).0
            && after.active[id] == (save, CarbonCache.After(scheme, st.files, save, steps).1)
  {
    if steps > 0 {
      SaveLiveIsAdvancing(scheme, st, id, save, steps - 1);
    }
  }
}
