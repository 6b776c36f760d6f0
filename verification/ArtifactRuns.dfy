/** Uploads, promotions, deletes and starts whose statements interleave. No lock is held across them, so every statement
    and every file operation of a handler is a step of its own. */
module ArtifactRuns {
  import opened Common
  import opened Artifacts

  // ----- handlers in flight -----

  /** An upload that has passed its checks. `appId` is the app's key: an app created anew under the name has another. */
  datatype Request = Request(app: string, appId: nat, version: string, file: string, bytes: string, activate: bool)

  /** Where a handler stands, and what it remembers. */
  datatype Flight =
    | Checked(upload: Request)                                   // Stat found nothing; the rename is next
    | Published(upload: Request)                                 // the INSERT is next
    | Promoting(app: string, appId: nat, id: Id)                 // UPDATE apps SET active_artifact_id is next
    | Deleting(app: string, version: string, id: Id)             // DELETE FROM artifacts is next
    | Removing(app: string, version: string)                     // RemoveAll is next
    | Dropping(app: string, appId: nat)                          // DELETE FROM apps is next
    | Launching(app: string, appId: nat, artifact: Option<Id>)   // insertInstance is next

  datatype System = System(db: State, ids: map<string, nat>, nextAppId: nat, flights: map<nat, Flight>, nextFlight: nat)

  /** The steps. A handler that is refused while it only reads changes nothing and is no step; `ok` is false when the
      statement fails for a reason of its own. */
  datatype Act =
    | NewApp(app: string)
    | BeginUpload(app: string, version: string, file: string, bytes: string, activate: bool)
    | Publish(f: nat, ok: bool)
    | Insert(f: nat, ok: bool)
    | BeginActivate(app: string, version: string)
    | Promote(f: nat, ok: bool)
    | BeginDelete(app: string, version: string)
    | DeleteRow(f: nat, ok: bool)
    | RemoveDir(f: nat, kept: set<Path>)
    | BeginDrop(app: string)
    | Drop(f: nat, ok: bool)
    | BeginStart(app: string, newest: Option<Id>)
    | Record(f: nat, ok: bool)
    | MarkStopped(app: string)

  ghost predicate Enabled(s: System, act: Act) {
    match act
    case NewApp(app) => ValidName(app) && app !in s.db.apps
    case BeginUpload(app, version, file, _, _) =>
      app in s.ids && app in s.db.apps && SaveReply(s.db.disk, app, version, file, false) == Ok
    case Publish(f, _) => f in s.flights && s.flights[f].Checked?
    case Insert(f, _) => f in s.flights && s.flights[f].Published?
    case BeginActivate(app, version) =>
      app in s.ids && app in s.db.apps && HasVersion(s.db.artifacts, app, version)
    case Promote(f, _) => f in s.flights && s.flights[f].Promoting?
    case BeginDelete(app, version) =>
      && app in s.db.apps && HasVersion(s.db.artifacts, app, version)
      && !MustStay(s.db.apps[app], VersionId(s.db.artifacts, app, version))
    case DeleteRow(f, _) => f in s.flights && s.flights[f].Deleting?
    case RemoveDir(f, _) => f in s.flights && s.flights[f].Removing?
    case BeginDrop(app) =>
      app in s.ids && app in s.db.apps && !(s.db.apps[app].instance.Some? && s.db.apps[app].instance.value.running)
    case Drop(f, _) => f in s.flights && s.flights[f].Dropping?
    case BeginStart(app, newest) => app in s.ids && StartAppStep(s.db, StartApp(app, newest)).1 == Ok
    case Record(f, _) => f in s.flights && s.flights[f].Launching?
    case MarkStopped(app) => app in s.db.apps && s.db.apps[app].instance.Some?
  }

  /** The checks of a delete: promoted, or running right now. */
  predicate MustStay(row: AppRow, id: Id) {
    row.active == Some(id) || (row.instance.Some? && row.instance.value == Instance(Some(id), true))
  }

  // ----- what a step does -----

  function Begins(s: System, flight: Flight): System {
    s.(flights := s.flights[s.nextFlight := flight], nextFlight := s.nextFlight + 1)
  }

  function Ends(s: System, f: nat): System {
    s.(flights := s.flights - {f})
  }

  function Continues(s: System, f: nat, flight: Flight): System {
    s.(flights := s.flights[f := flight])
  }

  /** The app with this key still exists. */
  predicate Exists(s: System, app: string, appId: nat) {
    app in s.db.apps && app in s.ids && s.ids[app] == appId
  }

  function RowOf(u: Request): Artifact {
    Artifact(u.app, u.version, u.file, Digest(u.bytes))
  }

  /** UNIQUE (app_id, version) and the foreign key on the app. */
  ghost predicate Accepted(s: System, u: Request, ok: bool) {
    ok && Exists(s, u.app, u.appId) && !HasVersion(s.db.artifacts, u.app, u.version)
  }

  function WithRow(db: State, a: Artifact): State {
    db.(artifacts := db.artifacts[db.nextId := a], nextId := db.nextId + 1)
  }

  ghost function AfterInsert(s: System, f: nat, u: Request, ok: bool): System {
    if !Accepted(s, u, ok) then Continues(s, f, Removing(u.app, u.version))
    else
      var inserted := s.(db := WithRow(s.db, RowOf(u)));
      if u.activate then Continues(inserted, f, Promoting(u.app, u.appId, s.db.nextId)) else Ends(inserted, f)
  }

  /** An UPDATE of an app that is gone changes no row; the foreign key refuses an artifact that is gone. */
  function AfterPromote(s: System, f: nat, fl: Flight, ok: bool): System
    requires fl.Promoting?
  {
    if ok && Exists(s, fl.app, fl.appId) && fl.id in s.db.artifacts
    then Ends(s.(db := WithActive(s.db, fl.app, fl.id)), f) else Ends(s, f)
  }

  /** The foreign keys refuse to delete what is referenced; deleting what is gone succeeds. */
  function AfterDeleteRow(s: System, f: nat, fl: Flight, ok: bool): System
    requires fl.Deleting?
  {
    if ok && !Referenced(s.db.apps, fl.id)
    then Continues(s.(db := s.db.(artifacts := s.db.artifacts - {fl.id})), f, Removing(fl.app, fl.version))
    else Ends(s, f)
  }

  function AfterDrop(s: System, f: nat, fl: Flight, ok: bool): System
    requires fl.Dropping?
  {
    if ok && Exists(s, fl.app, fl.appId) then
      var artifacts := map id | id in s.db.artifacts && s.db.artifacts[id].app != fl.app :: s.db.artifacts[id];
      Ends(s.(db := s.db.(apps := s.db.apps - {fl.app}, artifacts := artifacts), ids := s.ids - {fl.app}), f)
    else Ends(s, f)
  }

  function AfterRecord(s: System, f: nat, fl: Flight, ok: bool): System
    requires fl.Launching?
  {
    if ok && Exists(s, fl.app, fl.appId) && (fl.artifact.Some? ==> fl.artifact.value in s.db.artifacts)
    then Ends(s.(db := WithInstance(s.db, fl.app, Instance(fl.artifact, true))), f) else Ends(s, f)
  }

  ghost function Apply(s: System, act: Act): System
    requires Enabled(s, act)
  {
    match act
    case NewApp(app) =>
      s.(db := s.db.(apps := s.db.apps[app := AppRow(None, None)]), ids := s.ids[app := s.nextAppId],
         nextAppId := s.nextAppId + 1)
    case BeginUpload(app, version, file, bytes, activate) =>
      Begins(s, Checked(Request(app, s.ids[app], version, file, bytes, activate)))
    case Publish(f, ok) =>
      var u := s.flights[f].upload;
      if !ok then Ends(s, f)
      else
        var disk := s.db.disk[PathFor(u.app, u.version, u.file) := Digest(u.bytes)];
        Continues(s.(db := s.db.(disk := disk)), f, Published(u))
    case Insert(f, ok) => AfterInsert(s, f, s.flights[f].upload, ok)
    case BeginActivate(app, version) =>
      Begins(s, Promoting(app, s.ids[app], VersionId(s.db.artifacts, app, version)))
    case Promote(f, ok) => AfterPromote(s, f, s.flights[f], ok)
    case BeginDelete(app, version) => Begins(s, Deleting(app, version, VersionId(s.db.artifacts, app, version)))
    case DeleteRow(f, ok) => AfterDeleteRow(s, f, s.flights[f], ok)
    case RemoveDir(f, kept) =>
      var fl := s.flights[f];
      Ends(s.(db := s.db.(disk := Removed(s.db.disk, fl.app, fl.version, kept))), f)
    case BeginDrop(app) => Begins(s, Dropping(app, s.ids[app]))
    case Drop(f, ok) => AfterDrop(s, f, s.flights[f], ok)
    case BeginStart(app, newest) => Begins(s, Launching(app, s.ids[app], s.db.apps[app].active))
    case Record(f, ok) => AfterRecord(s, f, s.flights[f], ok)
    case MarkStopped(app) =>
      s.(db := WithInstance(s.db, app, s.db.apps[app].instance.value.(running := false)))
  }

  ghost predicate Run(s: System, acts: seq<Act>)
    decreases |acts|
  {
    acts != [] ==> Enabled(s, acts[0]) && Run(Apply(s, acts[0]), acts[1..])
  }

  ghost function Exec(s: System, acts: seq<Act>): System
    requires Run(s, acts)
    decreases |acts|
  {
    if acts == [] then s else Exec(Apply(s, acts[0]), acts[1..])
  }

  // ----- rows: every interleaving -----

  /** What a flight remembers of a row stays true of it for as long as the row exists. */
  predicate FlightOk(db: State, fl: Flight) {
    match fl
    case Checked(u) => ValidName(u.app) && ValidName(u.version)
    case Published(u) => ValidName(u.app) && ValidName(u.version)
    case Promoting(app, _, id) => id < db.nextId && (id in db.artifacts ==> db.artifacts[id].app == app)
    case Deleting(app, version, id) =>
      && ValidName(app) && ValidName(version) && id < db.nextId
      && (id in db.artifacts ==> db.artifacts[id].app == app && db.artifacts[id].version == version)
    case Removing(app, version) => ValidName(app) && ValidName(version)
    case Dropping(_, _) => true
    case Launching(app, _, artifact) =>
      artifact.Some? ==>
        artifact.value < db.nextId && (artifact.value in db.artifacts ==> db.artifacts[artifact.value].app == app)
  }

  ghost predicate Sane(s: System) {
    && Consistent(s.db)
    && (forall f :: f in s.flights ==> f < s.nextFlight && FlightOk(s.db, s.flights[f]))
  }

  /** Ids are not used again, and rows do not change. */
  predicate Grows(db: State, later: State) {
    && db.nextId <= later.nextId
    && forall id :: id in later.artifacts && id < db.nextId ==>
         id in db.artifacts && later.artifacts[id] == db.artifacts[id]
  }

  lemma FlightStaysOk(db: State, later: State, fl: Flight)
    requires FlightOk(db, fl) && Grows(db, later)
    ensures FlightOk(later, fl)
  {
  }

  /** The steps that write neither rows of artifacts nor files. */
  predicate LeavesJars(act: Act) {
    !act.Publish? && !act.Insert? && !act.DeleteRow? && !act.RemoveDir? && !act.Drop?
  }

  lemma JarsAreLeft(s: System, act: Act)
    requires Enabled(s, act) && LeavesJars(act)
    ensures var db := Apply(s, act).db;
            db.artifacts == s.db.artifacts && db.nextId == s.db.nextId && db.disk == s.db.disk
  {
  }

  lemma ActGrows(s: System, act: Act)
    requires Consistent(s.db) && Enabled(s, act)
    ensures Grows(s.db, Apply(s, act).db)
  {
    if LeavesJars(act) {
      JarsAreLeft(s, act);
    }
  }

  lemma InsertKeepsConsistent(s: System, f: nat, u: Request, ok: bool)
    requires Consistent(s.db) && ValidName(u.app) && ValidName(u.version)
    ensures Consistent(AfterInsert(s, f, u, ok).db)
  {
    if Accepted(s, u, ok) {
      NewRowKeepsReferences(s.db, RowOf(u));
      NewRowKeepsRows(s.db, RowOf(u));
    }
  }

  lemma PromoteKeepsConsistent(s: System, f: nat, fl: Flight, ok: bool)
    requires Consistent(s.db) && fl.Promoting? && FlightOk(s.db, fl)
    ensures Consistent(AfterPromote(s, f, fl, ok).db)
  {
    if Exists(s, fl.app, fl.appId) && fl.id in s.db.artifacts {
      ReferenceUpdate(s.db.apps, s.db.artifacts, fl.app, s.db.apps[fl.app].(active := Some(fl.id)));
    }
  }

  lemma DeleteKeepsConsistent(s: System, f: nat, fl: Flight, ok: bool)
    requires Consistent(s.db) && fl.Deleting?
    ensures Consistent(AfterDeleteRow(s, f, fl, ok).db)
  {
  }

  lemma DropKeepsConsistent(s: System, f: nat, fl: Flight, ok: bool)
    requires Consistent(s.db) && fl.Dropping?
    ensures Consistent(AfterDrop(s, f, fl, ok).db)
  {
  }

  lemma InstanceKeepsConsistent(db: State, app: string, instance: Instance)
    requires Consistent(db) && app in db.apps
    requires instance.artifact.Some? ==>
               instance.artifact.value in db.artifacts && db.artifacts[instance.artifact.value].app == app
    ensures Consistent(WithInstance(db, app, instance))
  {
    ReferenceUpdate(db.apps, db.artifacts, app, db.apps[app].(instance := Some(instance)));
  }

  lemma ConsistentAct(s: System, act: Act)
    requires Sane(s) && Enabled(s, act)
    ensures Consistent(Apply(s, act).db)
  {
    match act
    case Insert(f, ok) => InsertKeepsConsistent(s, f, s.flights[f].upload, ok);
    case Promote(f, ok) => PromoteKeepsConsistent(s, f, s.flights[f], ok);
    case DeleteRow(f, ok) => DeleteKeepsConsistent(s, f, s.flights[f], ok);
    case Drop(f, ok) => DropKeepsConsistent(s, f, s.flights[f], ok);
    case Record(f, ok) =>
      var fl := s.flights[f];
      if Exists(s, fl.app, fl.appId) && (fl.artifact.Some? ==> fl.artifact.value in s.db.artifacts) {
        InstanceKeepsConsistent(s.db, fl.app, Instance(fl.artifact, true));
      }
    case MarkStopped(app) =>
      var instance := s.db.apps[app].instance.value;
      assert instance.artifact.Some? ==> RefersTo(s.db.apps[app], instance.artifact.value);
      InstanceKeepsConsistent(s.db, app, instance.(running := false));
    case _ =>
  }

  /** The steps that begin a flight. */
  predicate Starts(act: Act) {
    act.BeginUpload? || act.BeginActivate? || act.BeginDelete? || act.BeginDrop? || act.BeginStart?
  }

  /** A step touches the flight it begins, or its own. */
  lemma TouchedFlight(s: System, act: Act, f: nat)
    requires Enabled(s, act) && f in Apply(s, act).flights
    requires f in s.flights ==> Apply(s, act).flights[f] != s.flights[f]
    ensures if Starts(act) then f == s.nextFlight && s.nextFlight in Apply(s, act).flights
            else !act.NewApp? && !act.MarkStopped? && f == act.f && f in s.flights
  {
  }

  lemma BegunFlightOk(s: System, act: Act)
    requires Sane(s) && Enabled(s, act) && Starts(act)
    ensures var s' := Apply(s, act);
            s.nextFlight < s'.nextFlight && s.nextFlight in s'.flights && FlightOk(s'.db, s'.flights[s.nextFlight])
  {
    if act.BeginStart? {
      var active := s.db.apps[act.app].active;
      assert active.Some? ==> RefersTo(s.db.apps[act.app], active.value);
    }
  }

  lemma ContinuedFlightOk(s: System, act: Act)
    requires Sane(s) && Enabled(s, act) && !Starts(act) && !act.NewApp? && !act.MarkStopped?
    requires act.f in Apply(s, act).flights
    ensures act.f < Apply(s, act).nextFlight && FlightOk(Apply(s, act).db, Apply(s, act).flights[act.f])
  {
    assert FlightOk(s.db, s.flights[act.f]);
  }

  lemma SaneAct(s: System, act: Act)
    requires Sane(s) && Enabled(s, act)
    ensures Sane(Apply(s, act))
  {
    var s' := Apply(s, act);
    ConsistentAct(s, act);
    ActGrows(s, act);
    forall f | f in s'.flights
      ensures f < s'.nextFlight && FlightOk(s'.db, s'.flights[f])
    {
      if f in s.flights && s'.flights[f] == s.flights[f] {
        FlightStaysOk(s.db, s'.db, s.flights[f]);
      } else {
        TouchedFlight(s, act, f);
        if Starts(act) {
          BegunFlightOk(s, act);
        } else {
          ContinuedFlightOk(s, act);
        }
      }
    }
  }

  /** In every interleaving, whichever statements fail: an active id, and the id an instance was started from, name a
      row
      of the same app, and there is one row per app and version. */
  lemma {:induction false} RunsStayConsistent(s: System, acts: seq<Act>)
    requires Sane(s) && Run(s, acts)
    ensures Sane(Exec(s, acts)) && Consistent(Exec(s, acts).db)
    decreases |acts|
  {
    if acts != [] {
      SaneAct(s, acts[0]);
      RunsStayConsistent(Apply(s, acts[0]), acts[1..]);
    }
  }

  // ----- jars: exactly which steps lose one -----

  /** A directory with a row's jar is removed, a row's jar is overwritten by other bytes, or a row is inserted whose jar
      is no longer there. */
  ghost predicate LosesJar(s: System, act: Act)
    requires Enabled(s, act)
  {
    match act
    case RemoveDir(f, kept) => exists id :: TakesAlong(s.db, id, s.flights[f].app, s.flights[f].version, kept)
    case Publish(f, ok) => ok && exists id :: Overwrites(s.db, id, RowOf(s.flights[f].upload))
    case Insert(f, ok) => Accepted(s, s.flights[f].upload, ok) && !OnDisk(s.db.disk, RowOf(s.flights[f].upload))
    case _ => false
  }

  predicate Overwrites(db: State, id: Id, a: Artifact) {
    id in db.artifacts && PathOf(db.artifacts[id]) == PathOf(a) && db.artifacts[id].digest != a.digest
  }

  lemma RemoveKeepsExactly(db: State, app: string, version: string, kept: set<Path>)
    requires Intact(db)
    ensures Intact(db.(disk := Removed(db.disk, app, version, kept)))
        <==> !exists id :: TakesAlong(db, id, app, version, kept)
  {
    forall id | id in db.artifacts
      ensures OnDisk(Removed(db.disk, app, version, kept), db.artifacts[id])
          <==> !TakesAlong(db, id, app, version, kept)
    {
      RemovedJars(db.disk, db.artifacts[id], app, version, kept);
    }
  }

  lemma PublishKeepsExactly(db: State, a: Artifact)
    requires Intact(db)
    ensures Intact(db.(disk := db.disk[PathOf(a) := a.digest])) <==> !exists id :: Overwrites(db, id, a)
  {
    forall id | id in db.artifacts
      ensures OnDisk(db.disk[PathOf(a) := a.digest], db.artifacts[id]) <==> !Overwrites(db, id, a)
    {
      assert OnDisk(db.disk, db.artifacts[id]);
    }
  }

  lemma InsertKeepsExactly(db: State, a: Artifact)
    requires Consistent(db) && Intact(db)
    ensures Intact(WithRow(db, a)) <==> OnDisk(db.disk, a)
  {
    assert WithRow(db, a).artifacts[db.nextId] == a;
  }

  /** A step leaves every row its jar exactly if it does not do one of those three things. */
  lemma ActKeepsJarsExactly(s: System, act: Act)
    requires Sane(s) && Intact(s.db) && Enabled(s, act)
    ensures Intact(Apply(s, act).db) <==> !LosesJar(s, act)
  {
    match act
    case RemoveDir(f, kept) => RemoveKeepsExactly(s.db, s.flights[f].app, s.flights[f].version, kept);
    case Publish(f, ok) => PublishKeepsExactly(s.db, RowOf(s.flights[f].upload));
    case Insert(f, ok) => InsertKeepsExactly(s.db, RowOf(s.flights[f].upload));
    case _ =>
  }

  // ----- three guards -----

  /** The directory a flight will still write to, remove or count on. */
  function Dir(fl: Flight): Option<(string, string)> {
    match fl
    case Checked(u) => Some((Folded(u.app), Folded(u.version)))
    case Published(u) => Some((Folded(u.app), Folded(u.version)))
    case Deleting(app, version, _) => Some((Folded(app), Folded(version)))
    case Removing(app, version) => Some((Folded(app), Folded(version)))
    case _ => None
  }

  /** No upload or delete is in flight on the directory. */
  ghost predicate Free(s: System, app: string, version: string) {
    forall f :: f in s.flights ==> Dir(s.flights[f]) != Some((Folded(app), Folded(version)))
  }

  /** The guards of a handler that runs alone. */
  ghost predicate TwoGuards(s: System, act: Act) {
    match act
    case BeginUpload(app, version, file, _, _) => SameSpelling(s.db, app, version) && SameFile(s.db, app, version, file)
    case BeginDelete(app, version) => SameSpelling(s.db, app, version)
    case _ => true
  }

  ghost predicate ThreeGuards(s: System, act: Act) {
    && TwoGuards(s, act)
    && (act.BeginUpload? || act.BeginDelete? ==> Free(s, act.app, act.version))
  }

  ghost predicate GuardedRun(s: System, acts: seq<Act>)
    requires Run(s, acts)
    decreases |acts|
  {
    acts != [] ==> ThreeGuards(s, acts[0]) && GuardedRun(Apply(s, acts[0]), acts[1..])
  }

  /** All rows in the directory; under the guards there is none, or the one that is being deleted. */
  ghost predicate OnlyRow(db: State, app: string, version: string, only: Option<Id>) {
    forall id :: id in db.artifacts && InDir(PathOf(db.artifacts[id]), app, version) ==> only == Some(id)
  }

  ghost predicate Settled(db: State, fl: Flight) {
    match fl
    case Checked(u) => OnlyRow(db, u.app, u.version, None)
    case Published(u) => OnlyRow(db, u.app, u.version, None) && OnDisk(db.disk, RowOf(u))
    case Deleting(app, version, id) => OnlyRow(db, app, version, Some(id))
    case Removing(app, version) => OnlyRow(db, app, version, None)
    case _ => true
  }

  ghost predicate Safe(s: System) {
    && Intact(s.db)
    && (forall f :: f in s.flights ==> Settled(s.db, s.flights[f]))
    && (forall f, g :: f in s.flights && g in s.flights && f != g && Dir(s.flights[f]).Some? ==>
          Dir(s.flights[f]) != Dir(s.flights[g]))
  }

  lemma SafeLosesNothing(s: System, act: Act)
    requires Sane(s) && Safe(s) && Enabled(s, act)
    ensures !LosesJar(s, act)
  {
    match act
    case RemoveDir(f, kept) => assert Settled(s.db, s.flights[f]);
    case Publish(f, ok) => assert Settled(s.db, s.flights[f]);
    case Insert(f, ok) => assert Settled(s.db, s.flights[f]);
    case _ =>
  }

  /** Where the version is stored under the same file name, Stat finds the file. */
  lemma StoredIsFound(db: State, app: string, version: string, file: string)
    requires Intact(db) && HasVersion(db.artifacts, app, version) && SameFile(db, app, version, file)
    ensures PathFor(app, version, file) in db.disk
  {
    var stored := VersionId(db.artifacts, app, version);
    assert OnDisk(db.disk, db.artifacts[stored]);
  }

  /** What an upload meets that the guards let begin: a directory without rows. */
  lemma UploadFindsNoRow(db: State, app: string, version: string, file: string)
    requires Intact(db) && SaveReply(db.disk, app, version, file, false) == Ok
    requires SameSpelling(db, app, version) && SameFile(db, app, version, file)
    ensures OnlyRow(db, app, version, None)
  {
    forall id | id in db.artifacts && InDir(PathOf(db.artifacts[id]), app, version)
      ensures HasVersion(db.artifacts, app, version)
    {
    }
    if HasVersion(db.artifacts, app, version) {
      StoredIsFound(db, app, version, file);
    }
  }

  /** What a delete meets that the guards let begin: its own row. */
  lemma DeleteFindsItsRow(db: State, app: string, version: string)
    requires Consistent(db) && HasVersion(db.artifacts, app, version) && SameSpelling(db, app, version)
    ensures OnlyRow(db, app, version, Some(VersionId(db.artifacts, app, version)))
  {
  }

  lemma BegunFlightSettles(s: System, act: Act)
    requires Sane(s) && Safe(s) && Enabled(s, act) && ThreeGuards(s, act) && Starts(act)
    ensures s.nextFlight in Apply(s, act).flights && Settled(Apply(s, act).db, Apply(s, act).flights[s.nextFlight])
  {
    match act
    case BeginUpload(_, _, _, _, _) => UploadSettles(s, act);
    case BeginDelete(app, version) => DeleteFindsItsRow(s.db, app, version);
    case _ =>
  }

  lemma ContinuedFlightSettles(s: System, act: Act)
    requires Sane(s) && Safe(s) && Enabled(s, act) && !Starts(act) && !act.NewApp? && !act.MarkStopped?
    requires act.f in Apply(s, act).flights
    ensures Settled(Apply(s, act).db, Apply(s, act).flights[act.f])
  {
    assert Settled(s.db, s.flights[act.f]);
    match act
    case Publish(g, ok) => PublishSettles(s, g, ok);
    case Insert(g, ok) => InsertSettles(s, g, ok);
    case DeleteRow(g, ok) => DeleteSettles(s, g, ok);
    case _ => OthersEnd(s, act);
  }

  lemma OthersEnd(s: System, act: Act)
    requires Enabled(s, act) && (act.RemoveDir? || act.Promote? || act.Drop? || act.Record?)
    ensures act.f !in Apply(s, act).flights
  {
  }

  lemma UploadSettles(s: System, act: Act)
    requires Sane(s) && Safe(s) && Enabled(s, act) && ThreeGuards(s, act) && act.BeginUpload?
    ensures Settled(Apply(s, act).db, Apply(s, act).flights[s.nextFlight])
  {
    UploadFindsNoRow(s.db, act.app, act.version, act.file);
  }

  lemma PublishSettles(s: System, g: nat, ok: bool)
    requires Enabled(s, Publish(g, ok)) && Settled(s.db, s.flights[g])
    ensures var s' := Apply(s, Publish(g, ok)); g in s'.flights ==> Settled(s'.db, s'.flights[g])
  {
  }

  lemma InsertSettles(s: System, g: nat, ok: bool)
    requires Enabled(s, Insert(g, ok)) && Settled(s.db, s.flights[g])
    ensures var s' := Apply(s, Insert(g, ok)); g in s'.flights ==> Settled(s'.db, s'.flights[g])
  {
  }

  lemma DeleteSettles(s: System, g: nat, ok: bool)
    requires Enabled(s, DeleteRow(g, ok)) && Settled(s.db, s.flights[g])
    ensures var s' := Apply(s, DeleteRow(g, ok)); g in s'.flights ==> Settled(s'.db, s'.flights[g])
  {
  }

  /** No row enters the directory, and its files stay. */
  lemma StaysSettled(db: State, later: State, fl: Flight)
    requires Settled(db, fl) && Dir(fl).Some?
    requires forall id :: id in later.artifacts && RowDir(later.artifacts[id]) == Dir(fl).value ==>
               id in db.artifacts && later.artifacts[id] == db.artifacts[id]
    requires forall p :: p in db.disk && (p.app, p.version) == Dir(fl).value ==>
        p in later.disk && later.disk[p] == db.disk[p]
    ensures Settled(later, fl)
  {
  }

  function RowDir(a: Artifact): (string, string) {
    (Folded(a.app), Folded(a.version))
  }

  /** A step of one flight leaves the directories of the others alone. */
  lemma OtherFlightStaysSettled(s: System, act: Act, g: nat)
    requires Sane(s) && Safe(s) && Enabled(s, act) && g in s.flights
    requires g in Apply(s, act).flights && Apply(s, act).flights[g] == s.flights[g]
    ensures Settled(Apply(s, act).db, s.flights[g])
  {
    assert Settled(s.db, s.flights[g]);
    if LeavesJars(act) {
      JarsAreLeft(s, act);
    } else if Dir(s.flights[g]).Some? {
      OthersAreLeft(s, act, Dir(s.flights[g]).value);
      StaysSettled(s.db, Apply(s, act).db, s.flights[g]);
    }
  }

  /** A step on files or rows stays within the directory of its flight, and else at most drops rows. */
  lemma OthersAreLeft(s: System, act: Act, dir: (string, string))
    requires Enabled(s, act) && !LeavesJars(act)
    requires Dir(s.flights[act.f]) != Some(dir)
    ensures var later := Apply(s, act).db;
            && (forall id :: id in later.artifacts && RowDir(later.artifacts[id]) == dir ==>
                  id in s.db.artifacts && later.artifacts[id] == s.db.artifacts[id])
            && (forall p :: p in s.db.disk && (p.app, p.version) == dir ==>
                p in later.disk && later.disk[p] == s.db.disk[p])
  {
    match act
    case Publish(_, _) =>
    case Insert(_, _) =>
    case RemoveDir(_, _) =>
    case _ => assert Apply(s, act).db.disk == s.db.disk;
  }

  lemma DirsStayApart(s: System, act: Act)
    requires Sane(s) && Safe(s) && Enabled(s, act) && ThreeGuards(s, act)
    ensures var s' := Apply(s, act);
            forall f, g :: f in s'.flights && g in s'.flights && f != g && Dir(s'.flights[f]).Some? ==>
              Dir(s'.flights[f]) != Dir(s'.flights[g])
  {
    var s' := Apply(s, act);
    forall f | f in s'.flights && Dir(s'.flights[f]).Some?
      ensures (f in s.flights && Dir(s'.flights[f]) == Dir(s.flights[f]))
          || (f == s.nextFlight && IsNew(s, act, s'.flights[f]))
    {
      DirStays(s, act, f);
    }
  }

  /** A flight on a directory that only now begins, which the guards allow where no other is. */
  ghost predicate IsNew(s: System, act: Act, fl: Flight) {
    Dir(fl).Some? && forall g :: g in s.flights ==> Dir(s.flights[g]) != Dir(fl)
  }

  lemma DirStays(s: System, act: Act, f: nat)
    requires Sane(s) && Enabled(s, act) && ThreeGuards(s, act)
    requires f in Apply(s, act).flights && Dir(Apply(s, act).flights[f]).Some?
    ensures var fl := Apply(s, act).flights[f];
            (f in s.flights && Dir(fl) == Dir(s.flights[f])) || (f == s.nextFlight && IsNew(s, act, fl))
  {
    if !(f in s.flights && Apply(s, act).flights[f] == s.flights[f]) {
      TouchedFlight(s, act, f);
      if !Starts(act) {
        DirContinues(s, act);
      }
    }
  }

  lemma DirContinues(s: System, act: Act)
    requires Enabled(s, act) && !Starts(act) && !act.NewApp? && !act.MarkStopped?
    requires act.f in Apply(s, act).flights && Dir(Apply(s, act).flights[act.f]).Some?
    ensures Dir(Apply(s, act).flights[act.f]) == Dir(s.flights[act.f])
  {
  }

  lemma SafeAct(s: System, act: Act)
    requires Sane(s) && Safe(s) && Enabled(s, act) && ThreeGuards(s, act)
    ensures Safe(Apply(s, act))
  {
    var s' := Apply(s, act);
    SafeLosesNothing(s, act);
    ActKeepsJarsExactly(s, act);
    forall f | f in s'.flights
      ensures Settled(s'.db, s'.flights[f])
    {
      if f in s.flights && s'.flights[f] == s.flights[f] {
        OtherFlightStaysSettled(s, act, f);
      } else {
        TouchedFlight(s, act, f);
        if Starts(act) {
          BegunFlightSettles(s, act);
        } else {
          ContinuedFlightSettles(s, act);
        }
      }
    }
    DirsStayApart(s, act);
  }

  lemma {:induction false} SafeRun(s: System, acts: seq<Act>)
    requires Sane(s) && Safe(s) && Run(s, acts) && GuardedRun(s, acts)
    ensures Sane(Exec(s, acts)) && Safe(Exec(s, acts))
    decreases |acts|
  {
    if acts != [] {
      SaneAct(s, acts[0]);
      SafeAct(s, acts[0]);
      SafeRun(Apply(s, acts[0]), acts[1..]);
    }
  }

  /** No handler is in flight. */
  ghost predicate Quiet(s: System) {
    Sane(s) && s.flights == map[]
  }

  /** Over every interleaving that keeps the three guards, every row's jar is on disk with its digest, and every active
      id names a row of its app, whose jar passes Verify. */
  lemma GuardedRunsKeepJars(s: System, acts: seq<Act>)
    requires Quiet(s) && Intact(s.db) && Run(s, acts) && GuardedRun(s, acts)
    ensures var end := Exec(s, acts).db;
            && Consistent(end) && Intact(end)
            && forall a :: a in end.apps && end.apps[a].active.Some? ==>
                 && end.apps[a].active.value in end.artifacts
                 && end.artifacts[end.apps[a].active.value].app == a
                 && OnDisk(end.disk, end.artifacts[end.apps[a].active.value])
  {
    SafeRun(s, acts);
    var apps := Exec(s, acts).db.apps;
    assert forall a :: a in apps && apps[a].active.Some? ==> RefersTo(apps[a], apps[a].active.value);
  }

  /** So at any moment of such a run an app with a promoted version can be started: its jar passes Verify. */
  lemma PromotedStarts(s: System, acts: seq<Act>, app: string, newest: Option<Id>)
    requires Quiet(s) && Intact(s.db) && Run(s, acts) && GuardedRun(s, acts)
    requires app in Exec(s, acts).db.apps && Exec(s, acts).db.apps[app].active.Some?
    ensures StartAppStep(Exec(s, acts).db, StartApp(app, newest)).1 == Ok
  {
    GuardedRunsKeepJars(s, acts);
  }

  // ----- promotions -----

  /** The step is the UPDATE of a promotion of the app that takes effect, to the version of row `id`. */
  predicate PromotesTo(s: System, act: Act, app: string, id: Id) {
    && act.Promote? && act.ok && act.f in s.flights && s.flights[act.f].Promoting?
    && s.flights[act.f].app == app && s.flights[act.f].id == id
    && Exists(s, app, s.flights[act.f].appId) && id in s.db.artifacts
  }

  ghost predicate IsPromoted(s: System, act: Act, app: string) {
    exists id :: PromotesTo(s, act, app, id)
  }

  /** In every interleaving: what an app has active is changed by its promotions alone, to the row they are about, which
      is of the version that was asked for. */
  lemma ActiveChangesExactly(s: System, act: Act, app: string)
    requires Sane(s) && Enabled(s, act) && app in s.db.apps && app in Apply(s, act).db.apps
    ensures forall id :: PromotesTo(s, act, app, id) ==>
              Apply(s, act).db.apps[app].active == Some(id) && s.db.artifacts[id].app == app
    ensures !IsPromoted(s, act, app) ==> Apply(s, act).db.apps[app].active == s.db.apps[app].active
  {
    if act.Promote? && act.f in s.flights {
      assert FlightOk(s.db, s.flights[act.f]);
      assert PromotesTo(s, act, app, s.flights[act.f].id) <==> IsPromoted(s, act, app);
    }
  }

  /** A promotion, and an upload that is to be promoted, aim at the version that was asked for. */
  lemma PromotionAims(s: System, act: Act)
    requires Enabled(s, act) && (act.BeginActivate? || (act.Insert? && s.flights[act.f].upload.activate
                                                        && Accepted(s, s.flights[act.f].upload, act.ok)))
    ensures var s' := Apply(s, act);
            var f := if act.Insert? then act.f else s.nextFlight;
            && f in s'.flights && s'.flights[f].Promoting? && s'.flights[f].id in s'.db.artifacts
            && var a := s'.db.artifacts[s'.flights[f].id];
               if act.Insert? then a == RowOf(s.flights[act.f].upload) && s'.flights[f].app == a.app
               else a.app == act.app == s'.flights[f].app && a.version == act.version
  {
  }
}
