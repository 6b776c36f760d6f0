/** What happens to jars when handlers overlap on one version, and that handlers which do not overlap are those of
    `Artifacts`. */
module ArtifactOverlaps {
  import opened Common
  import opened Artifacts
  import opened ArtifactRuns

  // ----- runs step by step -----

  datatype Guards = Any | Two | Three

  ghost predicate Keeps(s: System, act: Act, g: Guards) {
    (g.Two? ==> TwoGuards(s, act)) && (g.Three? ==> ThreeGuards(s, act))
  }

  /** The run from `s` leads to `end` and keeps the guards `g`. */
  ghost predicate Leads(s: System, acts: seq<Act>, end: System, g: Guards)
    decreases |acts|
  {
    if acts == [] then s == end
    else Enabled(s, acts[0]) && Keeps(s, acts[0], g) && Leads(Apply(s, acts[0]), acts[1..], end, g)
  }

  lemma {:induction false} LeadsIsRun(s: System, acts: seq<Act>, end: System, g: Guards)
    requires Leads(s, acts, end, g)
    ensures Run(s, acts) && Exec(s, acts) == end && (g.Three? ==> GuardedRun(s, acts))
    decreases |acts|
  {
    if acts != [] {
      LeadsIsRun(Apply(s, acts[0]), acts[1..], end, g);
    }
  }

  lemma {:induction false} ThenAlso(s: System, acts: seq<Act>, mid: System, act: Act, g: Guards)
    requires Leads(s, acts, mid, g) && Enabled(mid, act) && Keeps(mid, act, g)
    ensures Leads(s, acts + [act], Apply(mid, act), g)
    decreases |acts|
  {
    if acts == [] {
      assert acts + [act] == [act] && [act][1..] == [];
      assert Leads(Apply(s, act), [], Apply(mid, act), g);
    } else {
      assert (acts + [act])[1..] == acts[1..] + [act];
      ThenAlso(Apply(s, acts[0]), acts[1..], mid, act, g);
    }
  }

  ghost predicate Reaches(s: System, end: System, g: Guards) {
    exists acts :: Leads(s, acts, end, g)
  }

  lemma Stays(s: System, g: Guards)
    ensures Reaches(s, s, g)
  {
    assert Leads(s, [], s, g);
  }

  /** One more step. */
  lemma Then(s: System, mid: System, act: Act, g: Guards)
    requires Reaches(s, mid, g) && Enabled(mid, act) && Keeps(mid, act, g)
    ensures Reaches(s, Apply(mid, act), g)
  {
    var acts :| Leads(s, acts, mid, g);
    ThenAlso(s, acts, mid, act, g);
  }

  /** One more step, which leads to `next`. */
  lemma ThenTo(s: System, mid: System, act: Act, next: System, g: Guards)
    requires Reaches(s, mid, g) && Enabled(mid, act) && Keeps(mid, act, g) && Apply(mid, act) == next
    ensures Reaches(s, next, g)
  {
    Then(s, mid, act, g);
  }

  // ----- without the third guard -----

  /** An app without versions, and nothing in flight. */
  function NewSite(app: string): System {
    System(State(map[app := AppRow(None, None)], map[], 0, map[]), map[app := 0], 1, map[], 0)
  }

  predicate FirstUpload(u: Request) {
    u.appId == 0 && !u.activate && ValidName(u.app) && ValidName(u.version) && IsJarName(u.file)
  }

  /** The same version under the same file name, of other bytes perhaps. */
  predicate SameTarget(u: Request, v: Request) {
    v == u.(bytes := v.bytes)
  }

  function BeginOf(u: Request): Act {
    BeginUpload(u.app, u.version, u.file, u.bytes, u.activate)
  }

  function BothChecked(u: Request, v: Request): System {
    NewSite(u.app).(flights := map[0 := Checked(u), 1 := Checked(v)], nextFlight := 2)
  }

  function OneChecked(u: Request): System {
    NewSite(u.app).(flights := map[0 := Checked(u)], nextFlight := 1)
  }

  lemma BothPassStat(u: Request, v: Request)
    requires FirstUpload(u) && SameTarget(u, v)
    ensures Reaches(NewSite(u.app), BothChecked(u, v), Two)
  {
    Stays(NewSite(u.app), Two);
    ThenTo(NewSite(u.app), NewSite(u.app), BeginOf(u), OneChecked(u), Two);
    ThenTo(NewSite(u.app), OneChecked(u), BeginOf(v), BothChecked(u, v), Two);
  }

  /** The first upload is done. */
  function OneStored(u: Request, v: Request): System {
    var disk := map[PathOf(RowOf(u)) := Digest(u.bytes)];
    var db := State(map[u.app := AppRow(None, None)], map[0 := RowOf(u)], 1, disk);
    System(db, map[u.app := 0], 1, map[1 := Checked(v)], 2)
  }

  function FirstPublished(u: Request, v: Request): System {
    var s := BothChecked(u, v);
    s.(flights := map[0 := Published(u), 1 := Checked(v)],
       db := s.db.(disk := map[PathOf(RowOf(u)) := Digest(u.bytes)]))
  }

  lemma FirstIsStored(u: Request, v: Request)
    requires FirstUpload(u) && SameTarget(u, v)
    ensures Reaches(NewSite(u.app), OneStored(u, v), Two)
  {
    BothPassStat(u, v);
    FirstIsPublished(u, v);
    FirstIsInserted(u, v);
    ThenTo(NewSite(u.app), BothChecked(u, v), Publish(0, true), FirstPublished(u, v), Two);
    ThenTo(NewSite(u.app), FirstPublished(u, v), Insert(0, true), OneStored(u, v), Two);
  }

  lemma FirstIsPublished(u: Request, v: Request)
    requires FirstUpload(u) && SameTarget(u, v)
    ensures Apply(BothChecked(u, v), Publish(0, true)) == FirstPublished(u, v)
  {
  }

  lemma FirstIsInserted(u: Request, v: Request)
    requires FirstUpload(u) && SameTarget(u, v)
    ensures Apply(FirstPublished(u, v), Insert(0, true)) == OneStored(u, v)
  {
    assert FirstPublished(u, v).flights - {0} == map[1 := Checked(v)];
  }

  /** The second upload has overwritten the file, and its row is refused. */
  function SecondRefused(u: Request, v: Request): System {
    var s := OneStored(u, v);
    s.(flights := map[1 := Removing(u.app, u.version)],
       db := s.db.(disk := map[PathOf(RowOf(u)) := Digest(v.bytes)]))
  }

  function SecondPublished(u: Request, v: Request): System {
    SecondRefused(u, v).(flights := map[1 := Published(v)])
  }

  lemma SecondIsRefused(u: Request, v: Request)
    requires FirstUpload(u) && SameTarget(u, v)
    ensures Reaches(NewSite(u.app), SecondRefused(u, v), Two)
  {
    FirstIsStored(u, v);
    SecondIsPublished(u, v);
    SecondIsNotInserted(u, v);
    ThenTo(NewSite(u.app), OneStored(u, v), Publish(1, true), SecondPublished(u, v), Two);
    ThenTo(NewSite(u.app), SecondPublished(u, v), Insert(1, true), SecondRefused(u, v), Two);
  }

  lemma SecondIsPublished(u: Request, v: Request)
    requires FirstUpload(u) && SameTarget(u, v)
    ensures Apply(OneStored(u, v), Publish(1, true)) == SecondPublished(u, v)
  {
  }

  lemma SecondIsNotInserted(u: Request, v: Request)
    requires FirstUpload(u) && SameTarget(u, v)
    ensures Apply(SecondPublished(u, v), Insert(1, true)) == SecondRefused(u, v)
  {
    assert HasVersion(SecondPublished(u, v).db.artifacts, u.app, u.version) by {
      assert 0 in SecondPublished(u, v).db.artifacts;
    }
  }

  lemma RollBackTakesFirst(u: Request, v: Request)
    requires SameTarget(u, v)
    ensures var end := Apply(SecondRefused(u, v), RemoveDir(1, {}));
            end.db.artifacts == map[0 := RowOf(u)] && end.flights == map[] && !Intact(end.db)
  {
    var end := Apply(SecondRefused(u, v), RemoveDir(1, {}));
    assert end.db.artifacts == map[0 := RowOf(u)];
    assert !OnDisk(end.db.disk, end.db.artifacts[0]);
  }

  /** Two uploads of one new version under one file name that overlap: both pass Stat, the second overwrites the file
      and is refused by the database, and its roll-back deletes the jar of the first, which was accepted. */
  lemma OverlappingUploadsLoseJar(u: Request, v: Request)
    requires FirstUpload(u) && SameTarget(u, v)
    ensures exists end ::
              && Reaches(NewSite(u.app), end, Two)
              && end.db.artifacts == map[0 := RowOf(u)] && end.flights == map[] && !Intact(end.db)
  {
    SecondIsRefused(u, v);
    Then(NewSite(u.app), SecondRefused(u, v), RemoveDir(1, {}), Two);
    RollBackTakesFirst(u, v);
  }

  /** An app with one version, and nothing in flight. */
  function OldSite(app: string, version: string, file: string, digest: Digest): System {
    System(OneVersion(app, version, file, digest), map[app := 0], 1, map[], 0)
  }

  /** The row is deleted, its directory is not, and an upload of the version under another file name has passed Stat. */
  function BetweenDeleteAndRemove(u: Request, file: string, digest: Digest): System {
    var s := OldSite(u.app, u.version, file, digest);
    s.(db := s.db.(artifacts := map[]), flights :=
        map[0 := Removing(u.app, u.version), 1 := Checked(u)], nextFlight := 2)
  }

  function RowIsGoing(u: Request, file: string, digest: Digest): System {
    OldSite(u.app, u.version, file, digest).(flights := map[0 := Deleting(u.app, u.version, 0)], nextFlight := 1)
  }

  function RowIsGone(u: Request, file: string, digest: Digest): System {
    var s := RowIsGoing(u, file, digest);
    s.(db := s.db.(artifacts := map[]), flights := map[0 := Removing(u.app, u.version)])
  }

  lemma DeleteBegins(u: Request, file: string, digest: Digest)
    requires FirstUpload(u)
    ensures var s, act := OldSite(u.app, u.version, file, digest), BeginDelete(u.app, u.version);
            Enabled(s, act) && TwoGuards(s, act) && Apply(s, act) == RowIsGoing(u, file, digest)
  {
    var s := OldSite(u.app, u.version, file, digest);
    assert 0 in s.db.artifacts && HasVersion(s.db.artifacts, u.app, u.version);
  }

  lemma RowIsDeleted(u: Request, file: string, digest: Digest)
    ensures Apply(RowIsGoing(u, file, digest), DeleteRow(0, true)) == RowIsGone(u, file, digest)
  {
    assert RowIsGoing(u, file, digest).db.artifacts - {0} == map[];
  }

  lemma UploadBeginsBetween(u: Request, file: string, digest: Digest)
    requires FirstUpload(u) && Folded(u.file) != Folded(file)
    ensures var s := RowIsGone(u, file, digest);
            Enabled(s, BeginOf(u)) && TwoGuards(s, BeginOf(u))
            && Apply(s, BeginOf(u)) == BetweenDeleteAndRemove(u, file, digest)
  {
  }

  lemma UploadPassesBetween(u: Request, file: string, digest: Digest)
    requires FirstUpload(u) && Folded(u.file) != Folded(file)
    ensures Reaches(OldSite(u.app, u.version, file, digest), BetweenDeleteAndRemove(u, file, digest), Two)
  {
    var s := OldSite(u.app, u.version, file, digest);
    Stays(s, Two);
    DeleteBegins(u, file, digest);
    ThenTo(s, s, BeginDelete(u.app, u.version), RowIsGoing(u, file, digest), Two);
    RowIsDeleted(u, file, digest);
    ThenTo(s, RowIsGoing(u, file, digest), DeleteRow(0, true), RowIsGone(u, file, digest), Two);
    UploadBeginsBetween(u, file, digest);
    ThenTo(s, RowIsGone(u, file, digest), BeginOf(u), BetweenDeleteAndRemove(u, file, digest), Two);
  }

  function BothSidesDone(u: Request, file: string, digest: Digest): System {
    var s := BetweenDeleteAndRemove(u, file, digest);
    s.(db := WithRow(s.db.(disk := s.db.disk[PathOf(RowOf(u)) := Digest(u.bytes)]), RowOf(u)),
       flights := map[0 := Removing(u.app, u.version)])
  }

  lemma UploadIsDone(u: Request, file: string, digest: Digest)
    requires FirstUpload(u) && Folded(u.file) != Folded(file)
    ensures Reaches(OldSite(u.app, u.version, file, digest), BothSidesDone(u, file, digest), Two)
  {
    var start, s := OldSite(u.app, u.version, file, digest), BetweenDeleteAndRemove(u, file, digest);
    UploadPassesBetween(u, file, digest);
    Then(start, s, Publish(1, true), Two);
    UploadGoesOn(u, file, digest);
    ThenTo(start, Apply(s, Publish(1, true)), Insert(1, true), BothSidesDone(u, file, digest), Two);
  }

  lemma UploadGoesOn(u: Request, file: string, digest: Digest)
    requires FirstUpload(u)
    ensures var s := BetweenDeleteAndRemove(u, file, digest);
            && Enabled(s, Publish(1, true)) && Enabled(Apply(s, Publish(1, true)), Insert(1, true))
            && Apply(Apply(s, Publish(1, true)), Insert(1, true)) == BothSidesDone(u, file, digest)
  {
    var s := BetweenDeleteAndRemove(u, file, digest);
    assert Apply(s, Publish(1, true)).flights - {1} == map[0 := Removing(u.app, u.version)];
  }

  /** A delete that overlaps a new upload of its version removes the directory after the upload was accepted. */
  lemma OverlappingDeleteLosesJar(u: Request, file: string, digest: Digest)
    requires FirstUpload(u) && Folded(u.file) != Folded(file)
    ensures exists end ::
              && Reaches(OldSite(u.app, u.version, file, digest), end, Two)
              && end.db.artifacts == map[1 := RowOf(u)] && end.flights == map[] && !Intact(end.db)
  {
    var s := BothSidesDone(u, file, digest);
    UploadIsDone(u, file, digest);
    Then(OldSite(u.app, u.version, file, digest), s, RemoveDir(0, {}), Two);
    var end := Apply(s, RemoveDir(0, {}));
    assert end.flights == map[];
    assert !OnDisk(end.db.disk, end.db.artifacts[1]);
  }

  // ----- a handler that nothing interrupts -----

  /** No handler is in flight, and the apps have their keys. */
  ghost predicate Ready(s: System) {
    Quiet(s) && s.ids.Keys == s.db.apps.Keys
  }

  /** The handler as one step, and as a run of its own statements that keeps the third guard by being alone. */
  ghost predicate AsOneStep(s: System, op: Op) {
    exists end ::
      && Reaches(s, end, GuardsOf(s, op))
      && end.db == Step(s.db, op).0 && end.flights == map[]
  }

  ghost function GuardsOf(s: System, op: Op): Guards {
    if Guarded(s.db, op) then Three else Any
  }

  /** The last step of the handler. */
  lemma ThenDone(s: System, op: Op, mid: System, act: Act)
    requires Reaches(s, mid, GuardsOf(s, op)) && Enabled(mid, act) && !Starts(act)
    requires Apply(mid, act).flights == map[] && Apply(mid, act).db == Step(s.db, op).0
    ensures AsOneStep(s, op)
  {
    Then(s, mid, act, GuardsOf(s, op));
  }

  /** The system after the checks, and after the rename, of an upload that began with nothing in flight. */
  function UploadChecked(s: System, op: Op): System
    requires op.Upload? && op.app in s.ids
  {
    s.(flights := map[s.nextFlight := Checked(RequestOf(s, op))], nextFlight := s.nextFlight + 1)
  }

  function UploadPublished(s: System, op: Op): System
    requires op.Upload? && op.app in s.ids
  {
    var u := RequestOf(s, op);
    s.(db := s.db.(disk := s.db.disk[PathOf(RowOf(u)) := Digest(op.bytes)]),
       flights := map[s.nextFlight := Published(u)], nextFlight := s.nextFlight + 1)
  }

  function RequestOf(s: System, op: Op): Request
    requires op.Upload? && op.app in s.ids
  {
    Request(op.app, s.ids[op.app], op.version, op.file, op.bytes, op.activate)
  }

  lemma UploadBegins(s: System, op: Op)
    requires Ready(s) && op.Upload? && op.app in s.db.apps
    requires SaveReply(s.db.disk, op.app, op.version, op.file, false) == Ok
    ensures Reaches(s, UploadChecked(s, op), GuardsOf(s, op))
  {
    var g := GuardsOf(s, op);
    Stays(s, g);
    ThenTo(s, s, BeginUpload(op.app, op.version, op.file, op.bytes, op.activate), UploadChecked(s, op), g);
  }

  lemma RenameEnds(s: System, op: Op)
    requires op.Upload? && op.app in s.ids
    ensures Apply(UploadChecked(s, op), Publish(s.nextFlight, true)) == UploadPublished(s, op)
  {
  }

  lemma UploadIsRun(s: System, op: Op)
    requires Ready(s) && op.Upload?
    ensures AsOneStep(s, op)
  {
    var g, f := GuardsOf(s, op), s.nextFlight;
    if op.app !in s.db.apps || SaveReply(s.db.disk, op.app, op.version, op.file, false) != Ok {
      Stays(s, g);
    } else {
      UploadBegins(s, op);
      var checked := UploadChecked(s, op);
      if op.saveFails {
        assert Apply(checked, Publish(f, false)).flights == map[];
        ThenDone(s, op, checked, Publish(f, false));
      } else {
        RenameEnds(s, op);
        ThenTo(s, checked, Publish(f, true), UploadPublished(s, op), g);
        UploadFinishes(s, op);
      }
    }
  }

  /** The file is there, and the rest of the upload follows. */
  lemma UploadFinishes(s: System, op: Op)
    requires Ready(s) && op.Upload? && op.app in s.db.apps
    requires SaveReply(s.db.disk, op.app, op.version, op.file, op.saveFails) == Ok
    requires Reaches(s, UploadPublished(s, op), GuardsOf(s, op))
    ensures AsOneStep(s, op)
  {
    if InsertFails(s.db, op) {
      UploadIsUndone(s, op);
    } else {
      UploadIsAccepted(s, op);
    }
  }

  /** The insert was refused, and the roll-back follows. */
  function UploadRefused(s: System, op: Op): System
    requires op.Upload? && op.app in s.ids
  {
    UploadPublished(s, op).(flights := map[s.nextFlight := Removing(op.app, op.version)])
  }

  lemma InsertIsRefused(s: System, op: Op)
    requires Ready(s) && op.Upload? && op.app in s.db.apps && InsertFails(s.db, op)
    ensures Apply(UploadPublished(s, op), Insert(s.nextFlight, !op.insertFails)) == UploadRefused(s, op)
  {
  }

  lemma RollBackEnds(s: System, op: Op)
    requires Ready(s) && op.Upload? && op.app in s.db.apps && InsertFails(s.db, op)
    requires SaveReply(s.db.disk, op.app, op.version, op.file, op.saveFails) == Ok
    ensures Apply(UploadRefused(s, op), RemoveDir(s.nextFlight, op.kept)).flights == map[]
    ensures Apply(UploadRefused(s, op), RemoveDir(s.nextFlight, op.kept)).db == Step(s.db, op).0
  {
  }

  lemma UploadIsUndone(s: System, op: Op)
    requires Ready(s) && op.Upload? && op.app in s.db.apps && InsertFails(s.db, op)
    requires SaveReply(s.db.disk, op.app, op.version, op.file, op.saveFails) == Ok
    requires Reaches(s, UploadPublished(s, op), GuardsOf(s, op))
    ensures AsOneStep(s, op)
  {
    var g, f := GuardsOf(s, op), s.nextFlight;
    InsertIsRefused(s, op);
    ThenTo(s, UploadPublished(s, op), Insert(f, !op.insertFails), UploadRefused(s, op), g);
    RollBackEnds(s, op);
    ThenDone(s, op, UploadRefused(s, op), RemoveDir(f, op.kept));
  }

  /** The row is inserted; if asked for, the promotion follows. */
  function UploadInserted(s: System, op: Op): System
    requires op.Upload? && op.app in s.ids
  {
    var u, published := RequestOf(s, op), UploadPublished(s, op);
    var next := if op.activate then map[s.nextFlight := Promoting(op.app, u.appId, s.db.nextId)] else map[];
    published.(db := WithRow(published.db, RowOf(u)), flights := next)
  }

  lemma InsertIsAccepted(s: System, op: Op)
    requires Ready(s) && op.Upload? && op.app in s.db.apps && !InsertFails(s.db, op)
    ensures Apply(UploadPublished(s, op), Insert(s.nextFlight, true)) == UploadInserted(s, op)
  {
    assert UploadPublished(s, op).flights - {s.nextFlight} == map[];
  }

  lemma PromotionEnds(s: System, op: Op)
    requires Ready(s) && op.Upload? && op.app in s.db.apps && !InsertFails(s.db, op) && op.activate
    requires SaveReply(s.db.disk, op.app, op.version, op.file, op.saveFails) == Ok
    ensures Apply(UploadInserted(s, op), Promote(s.nextFlight, !op.activateFails)).flights == map[]
    ensures Apply(UploadInserted(s, op), Promote(s.nextFlight, !op.activateFails)).db == Step(s.db, op).0
  {
  }

  lemma UploadIsAccepted(s: System, op: Op)
    requires Ready(s) && op.Upload? && op.app in s.db.apps && !InsertFails(s.db, op)
    requires SaveReply(s.db.disk, op.app, op.version, op.file, op.saveFails) == Ok
    requires Reaches(s, UploadPublished(s, op), GuardsOf(s, op))
    ensures AsOneStep(s, op)
  {
    var g, f := GuardsOf(s, op), s.nextFlight;
    InsertIsAccepted(s, op);
    if op.activate {
      ThenTo(s, UploadPublished(s, op), Insert(f, true), UploadInserted(s, op), g);
      PromotionEnds(s, op);
      ThenDone(s, op, UploadInserted(s, op), Promote(f, !op.activateFails));
    } else {
      ThenDone(s, op, UploadPublished(s, op), Insert(f, true));
    }
  }

  function DeleteBegun(s: System, op: Op, id: Id): System
    requires op.DeleteArtifact?
  {
    s.(flights := map[s.nextFlight := Deleting(op.app, op.version, id)], nextFlight := s.nextFlight + 1)
  }

  function DeleteCleared(s: System, op: Op, id: Id): System
    requires op.DeleteArtifact?
  {
    s.(db := s.db.(artifacts := s.db.artifacts - {id}),
       flights := map[s.nextFlight := Removing(op.app, op.version)], nextFlight := s.nextFlight + 1)
  }

  /** The checks of the handler pass for row `id`. */
  ghost predicate MayDelete(s: System, op: Op, id: Id) {
    && op.DeleteArtifact? && op.app in s.db.apps && HasVersion(s.db.artifacts, op.app, op.version)
    && id == VersionId(s.db.artifacts, op.app, op.version) && !MustStay(s.db.apps[op.app], id)
  }

  lemma DeleteStarts(s: System, op: Op, id: Id)
    requires Ready(s) && MayDelete(s, op, id)
    ensures Reaches(s, DeleteBegun(s, op, id), GuardsOf(s, op))
  {
    Stays(s, GuardsOf(s, op));
    ThenTo(s, s, BeginDelete(op.app, op.version), DeleteBegun(s, op, id), GuardsOf(s, op));
  }

  lemma DeleteIsRefused(s: System, op: Op, id: Id)
    requires Ready(s) && MayDelete(s, op, id) && (op.dbFails || Referenced(s.db.apps, id))
    ensures Apply(DeleteBegun(s, op, id), DeleteRow(s.nextFlight, !op.dbFails)).flights == map[]
    ensures Apply(DeleteBegun(s, op, id), DeleteRow(s.nextFlight, !op.dbFails)).db == Step(s.db, op).0
  {
  }

  lemma DeleteGoesOn(s: System, op: Op, id: Id)
    requires Ready(s) && MayDelete(s, op, id) && !Referenced(s.db.apps, id)
    ensures Apply(DeleteBegun(s, op, id), DeleteRow(s.nextFlight, true)) == DeleteCleared(s, op, id)
  {
  }

  lemma RemovalEnds(s: System, op: Op, id: Id)
    requires Ready(s) && MayDelete(s, op, id) && !op.dbFails && !Referenced(s.db.apps, id)
    ensures Apply(DeleteCleared(s, op, id), RemoveDir(s.nextFlight, op.kept)).flights == map[]
    ensures Apply(DeleteCleared(s, op, id), RemoveDir(s.nextFlight, op.kept)).db == Step(s.db, op).0
  {
  }

  lemma DeleteIsRun(s: System, op: Op)
    requires Ready(s) && op.DeleteArtifact?
    ensures AsOneStep(s, op)
  {
    Stays(s, GuardsOf(s, op));
    if op.app in s.db.apps && HasVersion(s.db.artifacts, op.app, op.version)
       && !MustStay(s.db.apps[op.app], VersionId(s.db.artifacts, op.app, op.version)) {
      var id := VersionId(s.db.artifacts, op.app, op.version);
      DeleteStarts(s, op, id);
      if op.dbFails || Referenced(s.db.apps, id) {
        DeleteIsRefused(s, op, id);
        ThenDone(s, op, DeleteBegun(s, op, id), DeleteRow(s.nextFlight, !op.dbFails));
      } else {
        DeleteGoesOn(s, op, id);
        ThenTo(s, DeleteBegun(s, op, id), DeleteRow(s.nextFlight, true), DeleteCleared(s, op, id), GuardsOf(s, op));
        RemovalEnds(s, op, id);
        ThenDone(s, op, DeleteCleared(s, op, id), RemoveDir(s.nextFlight, op.kept));
      }
    }
  }

  lemma ActivateIsRun(s: System, op: Op)
    requires Ready(s) && op.Activate?
    ensures AsOneStep(s, op)
  {
    var g, f := GuardsOf(s, op), s.nextFlight;
    Stays(s, g);
    if op.app in s.db.apps && HasVersion(s.db.artifacts, op.app, op.version) {
      Then(s, s, BeginActivate(op.app, op.version), g);
      var begun := Apply(s, BeginActivate(op.app, op.version));
      Then(s, begun, Promote(f, !op.dbFails), g);
      assert Apply(begun, Promote(f, !op.dbFails)).flights == map[];
    }
  }

  lemma DropIsRun(s: System, op: Op)
    requires Ready(s) && op.DeleteApp?
    ensures AsOneStep(s, op)
  {
    var g, f := GuardsOf(s, op), s.nextFlight;
    Stays(s, g);
    if op.app in s.db.apps && !(s.db.apps[op.app].instance.Some? && s.db.apps[op.app].instance.value.running) {
      Then(s, s, BeginDrop(op.app), g);
      var begun := Apply(s, BeginDrop(op.app));
      Then(s, begun, Drop(f, !op.dbFails), g);
      assert Apply(begun, Drop(f, !op.dbFails)).flights == map[];
    }
  }

  lemma StartBegins(s: System, op: Op)
    requires Ready(s) && op.StartApp? && StartAppStep(s.db, op).1 == Ok
    ensures Enabled(s, BeginStart(op.app, op.newest))
    ensures var fl := Launching(op.app, s.ids[op.app], s.db.apps[op.app].active);
            Apply(s, BeginStart(op.app, op.newest))
            == s.(flights := map[s.nextFlight := fl], nextFlight := s.nextFlight + 1)
  {
    assert op == StartApp(op.app, op.newest);
  }

  lemma StartIsRun(s: System, op: Op)
    requires Ready(s) && op.StartApp?
    ensures AsOneStep(s, op)
  {
    var g, f := GuardsOf(s, op), s.nextFlight;
    Stays(s, g);
    if StartAppStep(s.db, op).1 == Ok {
      StartBegins(s, op);
      Then(s, s, BeginStart(op.app, op.newest), g);
      var begun := Apply(s, BeginStart(op.app, op.newest));
      PromotedIsThere(s, op.app);
      Then(s, begun, Record(f, true), g);
      assert Apply(begun, Record(f, true)).flights == map[];
    }
  }

  lemma PromotedIsThere(s: System, app: string)
    requires Ready(s) && app in s.db.apps
    ensures s.db.apps[app].active.Some? ==> s.db.apps[app].active.value in s.db.artifacts
  {
    var active := s.db.apps[app].active;
    assert active.Some? ==> RefersTo(s.db.apps[app], active.value);
  }

  /** The handlers of `Artifacts`, one at a time, are runs of these steps; their two guards become the three. */
  lemma HandlersAreRuns(s: System, op: Op)
    requires Ready(s)
    ensures AsOneStep(s, op)
  {
    match op
    case CreateApp(app) =>
      Stays(s, GuardsOf(s, op));
      if ValidName(app) && app !in s.db.apps {
        Then(s, s, NewApp(app), GuardsOf(s, op));
      }
    case Upload(_, _, _, _, _, _, _, _, _) => UploadIsRun(s, op);
    case Activate(_, _, _) => ActivateIsRun(s, op);
    case DeleteArtifact(_, _, _, _) => DeleteIsRun(s, op);
    case DeleteApp(_, _) => DropIsRun(s, op);
    case StartApp(_, _) => StartIsRun(s, op);
    case StopApp(app) =>
      Stays(s, GuardsOf(s, op));
      if app in s.db.apps && s.db.apps[app].instance.Some? {
        Then(s, s, MarkStopped(app), GuardsOf(s, op));
      }
  }
}
