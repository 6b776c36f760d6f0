/** Uploaded jars: the rows that record them and the store that holds them, and each handler run without interruption.
    `ArtifactRuns` lets the statements of several handlers interleave. */
module Artifacts {
  import opened Common

  type Id = nat

  /** A digest of a jar's bytes; only equality is ever used. */
  datatype Digest = Digest(of: string)

  datatype Artifact = Artifact(app: string, version: string, file: string, digest: Digest)

  datatype Instance = Instance(artifact: Option<Id>, running: bool)

  datatype AppRow = AppRow(active: Option<Id>, instance: Option<Instance>)

  /** A file of the store, by the names the file system goes by. */
  datatype Path = Path(app: string, version: string, file: string)

  type Disk = map<Path, Digest>

  datatype State = State(apps: map<string, AppRow>, artifacts: map<Id, Artifact>, nextId: Id, disk: Disk)

  datatype Error = NotFound | Invalid | AlreadyExists | Active | InUse | StoreFailed

  datatype Reply = Ok | Refused(error: Error)

  // ----- names and paths -----

  /** File names are the same on Windows if they differ only by case or by dots at the end. */
  function Folded(name: string): string {
    if name != "" && name[|name| - 1] == '.' then Folded(name[..|name| - 1]) else Lower(name)
  }

  predicate IsAlnum(c: char) {
    'A' <= c <= 'Z' || 'a' <= c <= 'z' || '0' <= c <= '9'
  }

  /** safeName */
  predicate ValidName(s: string) {
    && 1 <= |s| <= 64 && IsAlnum(s[0])
    && forall i :: 0 <= i < |s| ==> IsAlnum(s[i]) || s[i] in {'.', '_', '-'}
  }

  predicate IsJarName(file: string) {
    |file| >= 4 && Lower(file[|file| - 4..]) == ".jar"
  }

  function PathFor(app: string, version: string, file: string): Path {
    Path(Folded(app), Folded(version), Folded(file))
  }

  function PathOf(a: Artifact): Path {
    PathFor(a.app, a.version, a.file)
  }

  predicate InDir(p: Path, app: string, version: string) {
    p.app == Folded(app) && p.version == Folded(version)
  }

  // ----- the store -----

  /** RemoveAll of one version's directory; `kept` are files it fails to delete. */
  function Removed(disk: Disk, app: string, version: string, kept: set<Path>): Disk {
    map p | p in disk && (!InDir(p, app, version) || p in kept) :: disk[p]
  }

  class Repository {
    var disk: Disk

    constructor (disk: Disk)
      ensures this.disk == disk
    {
      this.disk := disk;
    }

    /** The bytes are staged first, so until the rename nothing is visible; `fails` is any error of staging, creating
        the directory or renaming. */
    method Save(app: string, version: string, file: string, bytes: string, fails: bool) returns (r: Reply)
      modifies this
      ensures r == SaveReply(old(disk), app, version, file, fails)
      ensures disk == if r.Ok? then old(disk)[PathFor(app, version, file) := Digest(bytes)] else old(disk)
    {
      if !ValidName(app) || !ValidName(version) || !IsJarName(file) {
        return Refused(Invalid);
      }
      if PathFor(app, version, file) in disk {
        return Refused(AlreadyExists);
      }
      if fails {
        return Refused(Invalid);
      }
      disk := disk[PathFor(app, version, file) := Digest(bytes)];
      return Ok;
    }

    method Remove(app: string, version: string, kept: set<Path>)
      modifies this
      ensures disk == if ValidName(app) && ValidName(version) then Removed(old(disk), app, version, kept) else old(disk)
    {
      if !ValidName(app) || !ValidName(version) {
        return;
      }
      disk := map p | p in disk && (p.app != Folded(app) || p.version != Folded(version) || p in kept) :: disk[p];
    }

    /** Re-hashes a stored jar, before every launch. */
    method Verify(a: Artifact) returns (ok: bool)
      ensures ok <==> OnDisk(disk, a)
    {
      if PathOf(a) !in disk {
        return false;
      }
      return disk[PathOf(a)] == a.digest;
    }
  }

  predicate OnDisk(disk: Disk, a: Artifact) {
    PathOf(a) in disk && disk[PathOf(a)] == a.digest
  }

  function SaveReply(disk: Disk, app: string, version: string, file: string, fails: bool): Reply {
    if !ValidName(app) || !ValidName(version) || !IsJarName(file) then Refused(Invalid)
    else if PathFor(app, version, file) in disk then Refused(AlreadyExists)
    else if fails then Refused(Invalid)
    else Ok
  }

  // ----- the operations -----

  datatype Op =
    | CreateApp(app: string)
    | Upload(app: string, version: string, file: string, bytes: string, activate: bool,
             saveFails: bool, insertFails: bool, activateFails: bool, kept: set<Path>)
    | Activate(app: string, version: string, dbFails: bool)
    | DeleteArtifact(app: string, version: string, dbFails: bool, kept: set<Path>)
    | DeleteApp(app: string, dbFails: bool)
    | StartApp(app: string, newest: Option<Id>)  // the supervisor's part: Verify, and the row that records the launch
    | StopApp(app: string)

  ghost predicate HasVersion(artifacts: map<Id, Artifact>, app: string, version: string) {
    exists id :: id in artifacts && artifacts[id].app == app && artifacts[id].version == version
  }

  ghost function VersionId(artifacts: map<Id, Artifact>, app: string, version: string): (id: Id)
    requires HasVersion(artifacts, app, version)
    ensures id in artifacts && artifacts[id].app == app && artifacts[id].version == version
  {
    var id :| id in artifacts && artifacts[id].app == app && artifacts[id].version == version;
    id
  }

  /** The foreign keys that stop an artifact's row from being deleted. */
  predicate Referenced(apps: map<string, AppRow>, id: Id) {
    exists a :: a in apps && RefersTo(apps[a], id)
  }

  predicate RefersTo(row: AppRow, id: Id) {
    row.active == Some(id) || (row.instance.Some? && row.instance.value.artifact == Some(id))
  }

  function WithActive(s: State, app: string, id: Id): State
    requires app in s.apps
  {
    s.(apps := s.apps[app := s.apps[app].(active := Some(id))])
  }

  ghost function UploadStep(s: State, op: Op): (State, Reply)
    requires op.Upload?
  {
    var saved := SaveReply(s.disk, op.app, op.version, op.file, op.saveFails);
    if op.app !in s.apps then (s, Refused(NotFound))
    else if saved != Ok then (s, saved)
    else
      var disk := s.disk[PathFor(op.app, op.version, op.file) := Digest(op.bytes)];
      if InsertFails(s, op) then
        (s.(disk := Removed(disk, op.app, op.version, op.kept)), Refused(StoreFailed))
      else
        var s' := s.(disk := disk, nextId := s.nextId + 1,
                     artifacts := s.artifacts[s.nextId := Artifact(op.app, op.version, op.file, Digest(op.bytes))]);
        if !op.activate then (s', Ok)
        else if op.activateFails then (s', Refused(StoreFailed))
        else (WithActive(s', op.app, s.nextId), Ok)
  }

  /** UNIQUE (app_id, version), or the database is unavailable. */
  ghost predicate InsertFails(s: State, op: Op)
    requires op.Upload?
  {
    op.insertFails || HasVersion(s.artifacts, op.app, op.version)
  }

  ghost function ActivateStep(s: State, op: Op): (State, Reply)
    requires op.Activate?
  {
    if op.app !in s.apps || !HasVersion(s.artifacts, op.app, op.version) then (s, Refused(NotFound))
    else if op.dbFails then (s, Refused(StoreFailed))
    else (WithActive(s, op.app, VersionId(s.artifacts, op.app, op.version)), Ok)
  }

  ghost function DeleteArtifactStep(s: State, op: Op): (State, Reply)
    requires op.DeleteArtifact?
  {
    if op.app !in s.apps || !HasVersion(s.artifacts, op.app, op.version) then (s, Refused(NotFound))
    else
      var id := VersionId(s.artifacts, op.app, op.version);
      var row := s.apps[op.app];
      if row.active == Some(id) then (s, Refused(Active))
      else if row.instance.Some? && row.instance.value.running && row.instance.value.artifact == Some(id) then
        (s, Refused(InUse))
      else if op.dbFails || Referenced(s.apps, id) then (s, Refused(StoreFailed))
      else
        (s.(artifacts := s.artifacts - {id},
            disk := if ValidName(op.app) && ValidName(op.version) then Removed(s.disk, op.app, op.version, op.kept)
                    else s.disk), Ok)
  }

  /** The rows of its artifacts and its instance go with the app; the jars are left on disk on purpose. */
  function DeleteAppStep(s: State, op: Op): (State, Reply)
    requires op.DeleteApp?
  {
    if op.app !in s.apps then (s, Refused(NotFound))
    else if s.apps[op.app].instance.Some? && s.apps[op.app].instance.value.running then (s, Refused(InUse))
    else if op.dbFails then (s, Refused(StoreFailed))
    else
      (s.(apps := s.apps - {op.app},
          artifacts := map id | id in s.artifacts && s.artifacts[id].app != op.app :: s.artifacts[id]), Ok)
  }

  function WithInstance(s: State, app: string, instance: Instance): State
    requires app in s.apps
  {
    s.(apps := s.apps[app := s.apps[app].(instance := Some(instance))])
  }

  /** promotedArtifact: the promoted jar, or the newest upload where none is promoted. */
  function Launchable(s: State, op: Op): Option<Id>
    requires op.StartApp? && op.app in s.apps
  {
    var active := s.apps[op.app].active;
    if active.Some? && active.value in s.artifacts then active else op.newest
  }

  /** The jar is verified before it is launched. What is promoted, if anything, is recorded. */
  function StartAppStep(s: State, op: Op): (State, Reply)
    requires op.StartApp?
  {
    if op.app !in s.apps then (s, Refused(NotFound))
    else
      var jar := Launchable(s, op);
      if jar.None? || jar.value !in s.artifacts then (s, Refused(NotFound))
      else if !OnDisk(s.disk, s.artifacts[jar.value]) then (s, Refused(Invalid))
      else (WithInstance(s, op.app, Instance(s.apps[op.app].active, true)), Ok)
  }

  ghost function Step(s: State, op: Op): (State, Reply) {
    match op
    case CreateApp(app) =>
      if !ValidName(app) then (s, Refused(Invalid))
      else if app in s.apps then (s, Refused(AlreadyExists))
      else (s.(apps := s.apps[app := AppRow(None, None)]), Ok)
    case Upload(_, _, _, _, _, _, _, _, _) => UploadStep(s, op)
    case Activate(_, _, _) => ActivateStep(s, op)
    case DeleteArtifact(_, _, _, _) => DeleteArtifactStep(s, op)
    case DeleteApp(_, _) => DeleteAppStep(s, op)
    case StartApp(_, _) => StartAppStep(s, op)
    case StopApp(app) =>
      if app !in s.apps || s.apps[app].instance.None? then (s, Refused(NotFound))
      else (WithInstance(s, app, s.apps[app].instance.value.(running := false)), Ok)
  }

  // ----- the handlers -----

  class Server {
    var apps: map<string, AppRow>
    var artifacts: map<Id, Artifact>
    var nextId: Id
    const repo: Repository

    constructor (repo: Repository)
      ensures View() == State(map[], map[], 0, repo.disk) && this.repo == repo
    {
      apps, artifacts, nextId, this.repo := map[], map[], 0, repo;
    }

    ghost function View(): State
      reads this, repo
    {
      State(apps, artifacts, nextId, repo.disk)
    }

    /** SELECT id FROM artifacts WHERE app_id = ? AND version = ? */
    method FindVersion(app: string, version: string) returns (found: bool, id: Id)
      requires UniqueVersions(artifacts)
      ensures found == HasVersion(artifacts, app, version)
      ensures found ==> id == VersionId(artifacts, app, version)
    {
      if i :| i in artifacts && artifacts[i].app == app && artifacts[i].version == version {
        return true, i;
      }
      return false, 0;
    }

    method Upload(op: Op) returns (r: Reply)
      requires op.Upload? && UniqueVersions(artifacts)
      modifies this, repo
      ensures (View(), r) == UploadStep(old(View()), op)
    {
      if op.app !in apps {
        return Refused(NotFound);
      }
      r := repo.Save(op.app, op.version, op.file, op.bytes, op.saveFails);
      if r != Ok {
        return;
      }
      var taken, _ := FindVersion(op.app, op.version);
      if op.insertFails || taken {
        repo.Remove(op.app, op.version, op.kept);
        return Refused(StoreFailed);
      }
      var id := nextId;
      artifacts := artifacts[id := Artifact(op.app, op.version, op.file, Digest(op.bytes))];
      nextId := nextId + 1;
      if op.activate {
        if op.activateFails {
          return Refused(StoreFailed);
        }
        apps := apps[op.app := apps[op.app].(active := Some(id))];
      }
      return Ok;
    }

    method Activate(op: Op) returns (r: Reply)
      requires op.Activate? && UniqueVersions(artifacts)
      modifies this`apps
      ensures (View(), r) == ActivateStep(old(View()), op)
    {
      if op.app !in apps {
        return Refused(NotFound);
      }
      var found, id := FindVersion(op.app, op.version);
      if !found {
        return Refused(NotFound);
      }
      if op.dbFails {
        return Refused(StoreFailed);
      }
      apps := apps[op.app := apps[op.app].(active := Some(id))];
      return Ok;
    }

    method DeleteArtifact(op: Op) returns (r: Reply)
      requires op.DeleteArtifact? && UniqueVersions(artifacts)
      modifies this, repo
      ensures (View(), r) == DeleteArtifactStep(old(View()), op)
    {
      if op.app !in apps {
        return Refused(NotFound);
      }
      var found, id := FindVersion(op.app, op.version);
      if !found {
        return Refused(NotFound);
      }
      if apps[op.app].active == Some(id) {
        return Refused(Active);
      }
      var instance := apps[op.app].instance;
      if instance.Some? && instance.value.running && instance.value.artifact == Some(id) {
        return Refused(InUse);
      }
      if op.dbFails || Referenced(apps, id) {
        return Refused(StoreFailed);
      }
      artifacts := artifacts - {id};
      repo.Remove(op.app, op.version, op.kept);
      return Ok;
    }

    method DeleteApp(op: Op) returns (r: Reply)
      requires op.DeleteApp?
      modifies this
      ensures (View(), r) == DeleteAppStep(old(View()), op)
    {
      if op.app !in apps {
        return Refused(NotFound);
      }
      var instance := apps[op.app].instance;
      if instance.Some? && instance.value.running {
        return Refused(InUse);
      }
      if op.dbFails {
        return Refused(StoreFailed);
      }
      apps := apps - {op.app};
      artifacts := map id | id in artifacts && artifacts[id].app != op.app :: artifacts[id];
      return Ok;
    }
  }

  // ----- what must hold -----

  predicate UniqueVersions(artifacts: map<Id, Artifact>) {
    forall i, j ::
      (i in artifacts && j in artifacts
       && artifacts[i].app == artifacts[j].app && artifacts[i].version == artifacts[j].version) ==> i == j
  }

  ghost predicate RowsOk(artifacts: map<Id, Artifact>, nextId: Id, apps: map<string, AppRow>) {
    && UniqueVersions(artifacts)
    && forall id :: id in artifacts ==>
         && id < nextId && artifacts[id].app in apps
         && ValidName(artifacts[id].app) && ValidName(artifacts[id].version)
  }

  /** Every active id, and every id an instance was started from, names a row of the same app. */
  ghost predicate RefsOk(apps: map<string, AppRow>, artifacts: map<Id, Artifact>) {
    forall a, id :: a in apps && RefersTo(apps[a], id) ==> id in artifacts && artifacts[id].app == a
  }

  ghost predicate Consistent(s: State) {
    RowsOk(s.artifacts, s.nextId, s.apps) && RefsOk(s.apps, s.artifacts)
  }

  /** Every row's jar is on disk with its recorded digest. */
  ghost predicate Intact(s: State) {
    forall id :: id in s.artifacts ==> OnDisk(s.disk, s.artifacts[id])
  }

  // ----- the rows -----

  lemma ReferenceUpdate(apps: map<string, AppRow>, artifacts: map<Id, Artifact>, app: string, row: AppRow)
    requires RefsOk(apps, artifacts)
    requires forall id :: RefersTo(row, id) ==> id in artifacts && artifacts[id].app == app
    ensures RefsOk(apps[app := row], artifacts)
  {
  }

  lemma NewRowKeepsReferences(s: State, a: Artifact)
    requires Consistent(s)
    ensures RefsOk(s.apps, s.artifacts[s.nextId := a])
  {
    forall n, id | n in s.apps && RefersTo(s.apps[n], id)
      ensures id in s.artifacts && id != s.nextId && s.artifacts[id].app == n
    {
    }
  }

  lemma NewRowKeepsRows(s: State, a: Artifact)
    requires Consistent(s) && a.app in s.apps && ValidName(a.app) && ValidName(a.version)
    requires !HasVersion(s.artifacts, a.app, a.version)
    ensures RowsOk(s.artifacts[s.nextId := a], s.nextId + 1, s.apps)
  {
    forall id | id in s.artifacts
      ensures !(s.artifacts[id].app == a.app && s.artifacts[id].version == a.version)
    {
    }
  }

  lemma UploadKeepsConsistent(s: State, op: Op)
    requires Consistent(s) && op.Upload?
    ensures Consistent(UploadStep(s, op).0)
  {
    if op.app in s.apps && SaveReply(s.disk, op.app, op.version, op.file, op.saveFails) == Ok && !InsertFails(s, op) {
      var row := Artifact(op.app, op.version, op.file, Digest(op.bytes));
      NewRowKeepsReferences(s, row);
      NewRowKeepsRows(s, row);
      ReferenceUpdate(s.apps, s.artifacts[s.nextId := row], op.app, s.apps[op.app].(active := Some(s.nextId)));
    }
  }

  lemma DeletesKeepConsistent(s: State, op: Op)
    requires Consistent(s) && (op.DeleteArtifact? || op.DeleteApp?)
    ensures Consistent(Step(s, op).0)
  {
    if op.DeleteArtifact? && DeleteArtifactStep(s, op).1 == Ok {
      var id := VersionId(s.artifacts, op.app, op.version);
      assert !Referenced(s.apps, id);
    }
  }

  /** An operation that nothing interrupts, whichever of its statements fail: an active id names a row of the same app,
      and the rows stay unique per app and version. */
  lemma ConsistentStep(s: State, op: Op)
    requires Consistent(s)
    ensures Consistent(Step(s, op).0)
  {
    match op
    case CreateApp(app) =>
    case Upload(_, _, _, _, _, _, _, _, _) => UploadKeepsConsistent(s, op);
    case Activate(app, version, _) =>
      if ActivateStep(s, op).1 == Ok {
        var id := VersionId(s.artifacts, app, version);
        ReferenceUpdate(s.apps, s.artifacts, app, s.apps[app].(active := Some(id)));
      }
    case DeleteArtifact(_, _, _, _) => DeletesKeepConsistent(s, op);
    case DeleteApp(_, _) => DeletesKeepConsistent(s, op);
    case StartApp(app, _) =>
      if StartAppStep(s, op).1 == Ok {
        ReferenceUpdate(s.apps, s.artifacts, app, s.apps[app].(instance := Some(Instance(s.apps[app].active, true))));
      }
    case StopApp(app) =>
      if app in s.apps && s.apps[app].instance.Some? {
        var stopped := s.apps[app].instance.value.(running := false);
        ReferenceUpdate(s.apps, s.artifacts, app, s.apps[app].(instance := Some(stopped)));
      }
  }

  // ----- the jars -----

  /** Removing this version's directory takes the jar of row `id` along. */
  predicate TakesAlong(s: State, id: Id, app: string, version: string, kept: set<Path>) {
    id in s.artifacts && InDir(PathOf(s.artifacts[id]), app, version) && PathOf(s.artifacts[id]) !in kept
  }

  /** The operation removes a directory that holds the jar of a row it does not delete: an upload whose row is not
      accepted, or a delete, while another row's jar has the same directory. */
  ghost predicate Endangers(s: State, op: Op) {
    match op
    case Upload(app, version, file, _, _, saveFails, _, _, kept) =>
      && app in s.apps && SaveReply(s.disk, app, version, file, saveFails) == Ok && InsertFails(s, op)
      && exists id :: TakesAlong(s, id, app, version, kept)
    case DeleteArtifact(app, version, _, kept) =>
      && DeleteArtifactStep(s, op).1 == Ok
      && exists id :: id != VersionId(s.artifacts, app, version) && TakesAlong(s, id, app, version, kept)
    case _ => false
  }

  lemma RemovedJars(disk: Disk, a: Artifact, app: string, version: string, kept: set<Path>)
    requires OnDisk(disk, a)
    ensures OnDisk(Removed(disk, app, version, kept), a) <==> !InDir(PathOf(a), app, version) || PathOf(a) in kept
  {
  }

  lemma UploadKeepsExactly(s: State, op: Op)
    requires Consistent(s) && Intact(s) && op.Upload?
    ensures Intact(UploadStep(s, op).0) <==> !Endangers(s, op)
  {
    if op.app in s.apps && SaveReply(s.disk, op.app, op.version, op.file, op.saveFails) == Ok {
      var disk := s.disk[PathFor(op.app, op.version, op.file) := Digest(op.bytes)];
      forall id | id in s.artifacts
        ensures OnDisk(disk, s.artifacts[id])
        ensures OnDisk(Removed(disk, op.app, op.version, op.kept), s.artifacts[id])
            <==> !TakesAlong(s, id, op.app, op.version, op.kept)
      {
        assert OnDisk(s.disk, s.artifacts[id]);
        RemovedJars(disk, s.artifacts[id], op.app, op.version, op.kept);
      }
    }
  }

  lemma DeleteKeepsExactly(s: State, op: Op)
    requires Consistent(s) && Intact(s) && op.DeleteArtifact?
    ensures Intact(DeleteArtifactStep(s, op).0) <==> !Endangers(s, op)
  {
    var (s', r) := DeleteArtifactStep(s, op);
    if r == Ok {
      var deleted := VersionId(s.artifacts, op.app, op.version);
      assert ValidName(op.app) && ValidName(op.version);
      forall id | id in s.artifacts && id != deleted
        ensures id in s'.artifacts
        ensures OnDisk(s'.disk, s.artifacts[id]) <==> !TakesAlong(s, id, op.app, op.version, op.kept)
      {
        RemovedJars(s.disk, s.artifacts[id], op.app, op.version, op.kept);
      }
    }
  }

  /** Exactly when an operation that nothing interrupts leaves every row with its jar. */
  lemma KeepsJarsExactly(s: State, op: Op)
    requires Consistent(s) && Intact(s)
    ensures Intact(Step(s, op).0) <==> !Endangers(s, op)
  {
    match op
    case Upload(_, _, _, _, _, _, _, _, _) => UploadKeepsExactly(s, op);
    case DeleteArtifact(_, _, _, _) => DeleteKeepsExactly(s, op);
    case _ =>
  }

  // ----- two guards -----

  /** No row has a name or version that the file system takes for this one but that is spelled otherwise. */
  ghost predicate SameSpelling(s: State, app: string, version: string) {
    forall id :: id in s.artifacts && InDir(PathOf(s.artifacts[id]), app, version) ==>
      s.artifacts[id].app == app && s.artifacts[id].version == version
  }

  /** A repeated upload of a version uses the file name of the stored one. */
  ghost predicate SameFile(s: State, app: string, version: string, file: string) {
    HasVersion(s.artifacts, app, version) ==>
        Folded(s.artifacts[VersionId(s.artifacts, app, version)].file) == Folded(file)
  }

  ghost predicate Guarded(s: State, op: Op) {
    match op
    case Upload(app, version, file, _, _, _, _, _, _) =>
      SameSpelling(s, app, version) && SameFile(s, app, version, file)
    case DeleteArtifact(app, version, _, _) => SameSpelling(s, app, version)
    case _ => true
  }

  lemma GuardedIsSafe(s: State, op: Op)
    requires Consistent(s) && Intact(s) && Guarded(s, op)
    ensures !Endangers(s, op)
  {
    if op.Upload? && HasVersion(s.artifacts, op.app, op.version) {
      var id := VersionId(s.artifacts, op.app, op.version);
      assert OnDisk(s.disk, s.artifacts[id]);
      assert PathOf(s.artifacts[id]) == PathFor(op.app, op.version, op.file);
    }
  }

  // ----- without the guards -----

  /** An app with one version, stored as `file`. */
  function OneVersion(app: string, version: string, file: string, digest: Digest): State {
    var row := Artifact(app, version, file, digest);
    State(map[app := AppRow(None, None)], map[0 := row], 1, map[PathOf(row) := digest])
  }

  /** Uploading a version again under another file name is refused by the database, and the rollback then removes the
      jar that was stored first. */
  lemma RepeatedUploadLosesJar(app: string, version: string, first: string, second: string, digest: Digest,
                               bytes: string)
    requires ValidName(app) && ValidName(version) && IsJarName(second) && Folded(first) != Folded(second)
    ensures var s := OneVersion(app, version, first, digest);
            var (s', r) := Step(s, Upload(app, version, second, bytes, false, false, false, false, {}));
            Consistent(s) && Intact(s) && r == Refused(StoreFailed) && s'.artifacts == s.artifacts && !Intact(s')
  {
    var s := OneVersion(app, version, first, digest);
    assert 0 in s.artifacts && HasVersion(s.artifacts, app, version);
    assert TakesAlong(s, 0, app, version, {});
    KeepsJarsExactly(s, Upload(app, version, second, bytes, false, false, false, false, {}));
  }

  /** An app with two versions, none active. */
  function TwoVersions(one: Artifact, two: Artifact): State {
    State(map[one.app := AppRow(None, None)], map[0 := one, 1 := two], 2,
          map[PathOf(one) := one.digest, PathOf(two) := two.digest])
  }

  lemma TwoVersionsAreKept(one: Artifact, two: Artifact)
    requires one.app == two.app && one.version != two.version && Folded(one.file) != Folded(two.file)
    requires ValidName(one.app) && ValidName(one.version) && ValidName(two.version)
    ensures Consistent(TwoVersions(one, two)) && Intact(TwoVersions(one, two))
  {
  }

  /** When the file system takes two versions for one, deleting either takes the jars of both. */
  lemma DeletingOneCaseLosesOther(one: Artifact, two: Artifact)
    requires one.app == two.app && one.version != two.version && Folded(one.version) == Folded(two.version)
    requires ValidName(one.app) && ValidName(one.version) && ValidName(two.version)
        && Folded(one.file) != Folded(two.file)
    ensures var s := TwoVersions(one, two);
            var (s', r) := Step(s, DeleteArtifact(one.app, one.version, false, {}));
            Consistent(s) && Intact(s) && r == Ok && s'.artifacts == map[1 := two] && !Intact(s')
  {
    var s := TwoVersions(one, two);
    TwoVersionsAreKept(one, two);
    assert 0 in s.artifacts && HasVersion(s.artifacts, one.app, one.version);
    assert VersionId(s.artifacts, one.app, one.version) == 0;
    assert TakesAlong(s, 1, one.app, one.version, {});
    KeepsJarsExactly(s, DeleteArtifact(one.app, one.version, false, {}));
  }
}
