/** What a history of handlers, each run without interruption, says about the store: which versions there are, with
    which bytes, which one is promoted, and hence what a start launches. */
module ArtifactHistory {
  import opened Common
  import opened Artifacts

  /** One handler of a history, and what it answered. */
  datatype Event = Event(op: Op, reply: Reply)

  const EMPTY := State(map[], map[], 0, map[])

  /** `events` is what happened on a fresh installation, and `states` the states in between. */
  ghost predicate History(states: seq<State>, events: seq<Event>) {
    && |states| == |events| + 1 && states[0] == EMPTY
    && forall i :: 0 <= i < |events| ==> Step(states[i], events[i].op) == (states[i + 1], events[i].reply)
  }

  // ----- the catalogue a history has made -----

  datatype Jar = Jar(file: string, bytes: string)

  datatype Launch = Launch(version: Option<string>, running: bool)

  datatype Shelf = Shelf(jars: map<string, Jar>, promoted: Option<string>, launch: Option<Launch>)

  /** By app; the jars of an app by version. */
  type Catalogue = map<string, Shelf>

  /** An upload that is stored although its promotion fails. */
  predicate StoredOnly(c: Catalogue, e: Event)
    requires e.op.Upload? && e.op.app in c
  {
    && e.reply == Refused(StoreFailed) && e.op.activate && e.op.activateFails && !e.op.insertFails
    && e.op.version !in c[e.op.app].jars
  }

  function Noted(c: Catalogue, e: Event): Catalogue {
    if e.op.CreateApp? then (if e.reply.Ok? then c[e.op.app := Shelf(map[], None, None)] else c)
    else if e.op.app !in c then c
    else if e.op.Upload? && StoredOnly(c, e) then c[e.op.app := Shelved(c[e.op.app], e.op)]
    else if !e.reply.Ok? then c
    else
      var shelf := c[e.op.app];
      match e.op
      case Upload(app, version, _, _, activate, _, _, _, _) =>
        var stored := Shelved(shelf, e.op);
        c[app := if activate then stored.(promoted := Some(version)) else stored]
      case Activate(app, version, _) => c[app := shelf.(promoted := Some(version))]
      case DeleteArtifact(app, version, _, _) => c[app := shelf.(jars := shelf.jars - {version})]
      case DeleteApp(app, _) => c - {app}
      case StartApp(app, _) => c[app := shelf.(launch := Some(Launch(shelf.promoted, true)))]
      case StopApp(app) =>
        if shelf.launch.Some? then c[app := shelf.(launch := Some(shelf.launch.value.(running := false)))] else c
  }

  function Shelved(shelf: Shelf, op: Op): Shelf
    requires op.Upload?
  {
    shelf.(jars := shelf.jars[op.version := Jar(op.file, op.bytes)])
  }

  function CatalogueOf(events: seq<Event>): Catalogue {
    if events == [] then map[] else Noted(CatalogueOf(events[..|events| - 1]), events[|events| - 1])
  }

  // ----- the tables agree -----

  predicate SameRow(a: Artifact, c: Catalogue) {
    && a.app in c && a.version in c[a.app].jars
    && a.file == c[a.app].jars[a.version].file && a.digest == Digest(c[a.app].jars[a.version].bytes)
  }

  /** The version that an id names. */
  function VersionOf(artifacts: map<Id, Artifact>, id: Option<Id>): Option<string> {
    if id.Some? && id.value in artifacts then Some(artifacts[id.value].version) else None
  }

  predicate SameApp(row: AppRow, shelf: Shelf, artifacts: map<Id, Artifact>) {
    && VersionOf(artifacts, row.active) == shelf.promoted
    && (row.instance.Some? <==> shelf.launch.Some?)
    && (row.instance.Some? ==>
          && VersionOf(artifacts, row.instance.value.artifact) == shelf.launch.value.version
          && row.instance.value.running == shelf.launch.value.running)
  }

  ghost predicate SameRows(artifacts: map<Id, Artifact>, c: Catalogue) {
    && (forall id :: id in artifacts ==> SameRow(artifacts[id], c))
    && (forall app, v :: app in c && v in c[app].jars ==> HasVersion(artifacts, app, v))
  }

  predicate SameApps(apps: map<string, AppRow>, artifacts: map<Id, Artifact>, c: Catalogue) {
    && apps.Keys == c.Keys
    && (forall app :: app in c ==> SameApp(apps[app], c[app], artifacts))
  }

  ghost predicate Same(s: State, c: Catalogue) {
    SameRows(s.artifacts, c) && SameApps(s.apps, s.artifacts, c)
  }

  lemma SameJars(artifacts: map<Id, Artifact>, c: Catalogue, app: string, shelf: Shelf)
    requires SameRows(artifacts, c) && app in c && shelf.jars == c[app].jars
    ensures SameRows(artifacts, c[app := shelf])
  {
    forall id | id in artifacts
      ensures SameRow(artifacts[id], c[app := shelf])
    {
      assert SameRow(artifacts[id], c);
    }
  }

  /** A change of one app's row alone. */
  lemma SameAfterUpdate(s: State, c: Catalogue, app: string, row: AppRow, shelf: Shelf)
    requires Same(s, c) && app in c && shelf.jars == c[app].jars && SameApp(row, shelf, s.artifacts)
    ensures Same(s.(apps := s.apps[app := row]), c[app := shelf])
  {
    SameJars(s.artifacts, c, app, shelf);
    forall a | a in c
      ensures a != app ==> SameApp(s.apps[a], c[a], s.artifacts)
    {
    }
  }

  lemma FoundVersion(artifacts: map<Id, Artifact>, id: Id)
    requires id in artifacts
    ensures HasVersion(artifacts, artifacts[id].app, artifacts[id].version)
  {
  }

  predicate StillNamed(row: AppRow, artifacts: map<Id, Artifact>, artifacts': map<Id, Artifact>) {
    && (row.active.Some? ==> SameAt(artifacts, artifacts', row.active.value))
    && (row.instance.Some? && row.instance.value.artifact.Some? ==>
          SameAt(artifacts, artifacts', row.instance.value.artifact.value))
  }

  predicate SameAt(artifacts: map<Id, Artifact>, artifacts': map<Id, Artifact>, id: Id) {
    id in artifacts && id in artifacts' && artifacts'[id] == artifacts[id]
  }

  /** A change of the rows that leaves those that apps refer to, and of the jars of one app. */
  lemma SameAppsWith(apps: map<string, AppRow>, artifacts: map<Id, Artifact>, artifacts': map<Id, Artifact>,
                     c: Catalogue, app: string, jars: map<string, Jar>)
    requires SameApps(apps, artifacts, c) && app in c
    requires forall a :: a in apps ==> StillNamed(apps[a], artifacts, artifacts')
    ensures SameApps(apps, artifacts', c[app := c[app].(jars := jars)])
  {
    var c' := c[app := c[app].(jars := jars)];
    forall a | a in c'
      ensures SameApp(apps[a], c'[a], artifacts')
    {
      assert SameApp(apps[a], c[a], artifacts) && StillNamed(apps[a], artifacts, artifacts');
    }
  }

  lemma ReferredToStay(s: State, artifacts': map<Id, Artifact>, a: string)
    requires RefsOk(s.apps, s.artifacts) && a in s.apps
    requires forall id :: RefersTo(s.apps[a], id) && id in s.artifacts ==> SameAt(s.artifacts, artifacts', id)
    ensures StillNamed(s.apps[a], s.artifacts, artifacts')
  {
    var row := s.apps[a];
    assert row.active.Some? ==> RefersTo(row, row.active.value);
    assert row.instance.Some? && row.instance.value.artifact.Some? ==> RefersTo(row, row.instance.value.artifact.value);
  }

  lemma SameRowsWith(artifacts: map<Id, Artifact>, c: Catalogue, id: Id, op: Op)
    requires SameRows(artifacts, c) && id !in artifacts && op.Upload? && op.app in c
    requires op.version !in c[op.app].jars
    ensures SameRows(artifacts[id := Artifact(op.app, op.version, op.file, Digest(op.bytes))],
                     c[op.app := Shelved(c[op.app], op)])
  {
    var a, c' := Artifact(op.app, op.version, op.file, Digest(op.bytes)), c[op.app := Shelved(c[op.app], op)];
    var artifacts' := artifacts[id := a];
    forall i | i in artifacts'
      ensures SameRow(artifacts'[i], c')
    {
      if i != id {
        assert SameRow(artifacts[i], c);
      }
    }
    forall app, v | app in c' && v in c'[app].jars
      ensures HasVersion(artifacts', app, v)
    {
      if app == op.app && v == op.version {
        FoundVersion(artifacts', id);
      } else {
        var i := VersionId(artifacts, app, v);
        FoundVersion(artifacts', i);
      }
    }
  }

  lemma AppsAfterInsert(s: State, c: Catalogue, app: string, a: Artifact, jars: map<string, Jar>)
    requires Consistent(s) && SameApps(s.apps, s.artifacts, c) && app in c
    ensures SameApps(s.apps, s.artifacts[s.nextId := a], c[app := c[app].(jars := jars)])
  {
    var artifacts' := s.artifacts[s.nextId := a];
    forall n | n in s.apps
      ensures StillNamed(s.apps[n], s.artifacts, artifacts')
    {
      ReferredToStay(s, artifacts', n);
    }
    SameAppsWith(s.apps, s.artifacts, artifacts', c, app, jars);
  }

  /** A new row, of a version the app does not have. */
  lemma SameAfterInsert(s: State, c: Catalogue, op: Op, disk: Disk)
    requires Consistent(s) && Same(s, c) && op.Upload? && op.app in c && op.version !in c[op.app].jars
    ensures Same(Inserted(s, op, disk), c[op.app := Shelved(c[op.app], op)])
  {
    SameRowsWith(s.artifacts, c, s.nextId, op);
    AppsAfterInsert(s, c, op.app, Inserted(s, op, disk).artifacts[s.nextId], Shelved(c[op.app], op).jars);
  }

  function Inserted(s: State, op: Op, disk: Disk): State
    requires op.Upload?
  {
    s.(disk := disk, nextId := s.nextId + 1,
       artifacts := s.artifacts[s.nextId := Artifact(op.app, op.version, op.file, Digest(op.bytes))])
  }

  lemma VersionsAgree(s: State, c: Catalogue, app: string, v: string)
    requires Same(s, c)
    ensures HasVersion(s.artifacts, app, v) <==> app in c && v in c[app].jars
  {
    if HasVersion(s.artifacts, app, v) {
      assert SameRow(s.artifacts[VersionId(s.artifacts, app, v)], c);
    }
  }

  /** Promoting a version that is there. */
  lemma SamePromoted(s: State, c: Catalogue, app: string, id: Id)
    requires Same(s, c) && app in c && id in s.artifacts
    ensures Same(s.(apps := s.apps[app := s.apps[app].(active := Some(id))]),
                 c[app := c[app].(promoted := Some(s.artifacts[id].version))])
  {
    assert SameApp(s.apps[app], c[app], s.artifacts);
    SameAfterUpdate(s, c, app, s.apps[app].(active := Some(id)),
                    c[app].(promoted := Some(s.artifacts[id].version)));
  }

  lemma Reshelved(c: Catalogue, app: string, shelf: Shelf, shelf': Shelf)
    ensures c[app := shelf][app := shelf'] == c[app := shelf']
  {
  }

  /** An upload that is promoted too. */
  lemma SameStored(stored: State, c: Catalogue, c': Catalogue, app: string, shelf: Shelf, id: Id)
    requires c' == c[app := shelf] && Same(stored, c') && id in stored.artifacts
    ensures Same(stored.(apps := stored.apps[app := stored.apps[app].(active := Some(id))]),
                 c[app := shelf.(promoted := Some(stored.artifacts[id].version))])
  {
    Reshelved(c, app, shelf, shelf.(promoted := Some(stored.artifacts[id].version)));
    SamePromoted(stored, c', app, id);
  }

  lemma SameUpload(s: State, op: Op, c: Catalogue)
    requires Consistent(s) && Same(s, c) && op.Upload?
    ensures var (s', r) := Step(s, op); Same(s', Noted(c, Event(op, r)))
  {
    var disk := s.disk[PathFor(op.app, op.version, op.file) := Digest(op.bytes)];
    VersionsAgree(s, c, op.app, op.version);
    if op.app in s.apps && SaveReply(s.disk, op.app, op.version, op.file, op.saveFails) == Ok {
      if InsertFails(s, op) {
        RefusedIsNotNoted(s, op, c);
      } else {
        SameAfterInsert(s, c, op, disk);
        var shelf := Shelved(c[op.app], op);
        SameStored(Inserted(s, op, disk), c, c[op.app := shelf], op.app, shelf, s.nextId);
        StoredIsNoted(s, op, c, disk);
      }
    }
  }

  lemma RefusedIsNotNoted(s: State, op: Op, c: Catalogue)
    requires Same(s, c) && op.Upload? && op.app in s.apps && InsertFails(s, op)
    requires SaveReply(s.disk, op.app, op.version, op.file, op.saveFails) == Ok
    ensures var (s', r) := Step(s, op);
            Noted(c, Event(op, r)) == c && s'.apps == s.apps && s'.artifacts == s.artifacts
  {
    VersionsAgree(s, c, op.app, op.version);
  }

  lemma StoredIsNoted(s: State, op: Op, c: Catalogue, disk: Disk)
    requires Same(s, c) && op.Upload? && op.app in s.apps && !InsertFails(s, op)
    requires SaveReply(s.disk, op.app, op.version, op.file, op.saveFails) == Ok
    requires disk == s.disk[PathFor(op.app, op.version, op.file) := Digest(op.bytes)]
    ensures var (s', r) := Step(s, op);
            var stored, shelf := Inserted(s, op, disk), Shelved(c[op.app], op);
            if op.activate && !op.activateFails then
              && s' == stored.(apps := stored.apps[op.app := stored.apps[op.app].(active := Some(s.nextId))])
              && Noted(c, Event(op, r)) == c[op.app := shelf.(promoted := Some(op.version))]
            else s' == stored && Noted(c, Event(op, r)) == c[op.app := shelf]
  {
    VersionsAgree(s, c, op.app, op.version);
  }

  lemma SameActivate(s: State, op: Op, c: Catalogue)
    requires Same(s, c) && op.Activate? && Step(s, op).1 == Ok
    ensures var (s', r) := Step(s, op); Same(s', Noted(c, Event(op, r)))
  {
    SamePromoted(s, c, op.app, VersionId(s.artifacts, op.app, op.version));
  }

  lemma SameStart(s: State, op: Op, c: Catalogue)
    requires Same(s, c) && op.StartApp? && Step(s, op).1 == Ok
    ensures var (s', r) := Step(s, op); Same(s', Noted(c, Event(op, r)))
  {
    var row := s.apps[op.app];
    SameAfterUpdate(s, c, op.app, row.(instance := Some(Instance(row.active, true))),
                    c[op.app].(launch := Some(Launch(c[op.app].promoted, true))));
  }

  lemma SameStop(s: State, op: Op, c: Catalogue)
    requires Same(s, c) && op.StopApp? && Step(s, op).1 == Ok
    ensures var (s', r) := Step(s, op); Same(s', Noted(c, Event(op, r)))
  {
    var row, launch := s.apps[op.app], c[op.app].launch.value;
    SameAfterUpdate(s, c, op.app, row.(instance := Some(row.instance.value.(running := false))),
                    c[op.app].(launch := Some(launch.(running := false))));
  }

  lemma SameRowsWithout(artifacts: map<Id, Artifact>, c: Catalogue, id: Id, app: string, version: string)
    requires SameRows(artifacts, c) && UniqueVersions(artifacts) && app in c
    requires id in artifacts && artifacts[id].app == app && artifacts[id].version == version
    ensures SameRows(artifacts - {id}, c[app := c[app].(jars := c[app].jars - {version})])
  {
    var c' := c[app := c[app].(jars := c[app].jars - {version})];
    forall i | i in artifacts && i != id
      ensures SameRow(artifacts[i], c')
    {
      assert SameRow(artifacts[i], c);
    }
    forall a, v | a in c' && v in c'[a].jars
      ensures HasVersion(artifacts - {id}, a, v)
    {
      assert a in c && v in c[a].jars;
      FoundVersion(artifacts - {id}, VersionId(artifacts, a, v));
    }
  }

  lemma SameDelete(s: State, op: Op, c: Catalogue)
    requires Consistent(s) && Same(s, c) && op.DeleteArtifact? && Step(s, op).1 == Ok
    ensures var (s', r) := Step(s, op); Same(s', Noted(c, Event(op, r)))
  {
    var id := DeletedIsNoted(s, op, c);
    SameWithout(s, c, id, op.app, op.version);
    SameTables(s, Step(s, op).0, s.artifacts - {id}, Noted(c, Event(op, Ok)));
  }

  lemma RefusalChangesNothing(s: State, op: Op, c: Catalogue)
    requires !op.Upload? && Step(s, op).1 != Ok
    ensures Step(s, op).0 == s && Noted(c, Event(op, Step(s, op).1)) == c
  {
  }

  lemma SameTables(s: State, s': State, artifacts: map<Id, Artifact>, c: Catalogue)
    requires SameRows(artifacts, c) && SameApps(s.apps, artifacts, c)
    requires s'.apps == s.apps && s'.artifacts == artifacts
    ensures Same(s', c)
  {
  }

  lemma SameWithout(s: State, c: Catalogue, id: Id, app: string, version: string)
    requires Consistent(s) && Same(s, c) && app in c && !Referenced(s.apps, id)
    requires id in s.artifacts && s.artifacts[id].app == app && s.artifacts[id].version == version
    ensures var c' := c[app := c[app].(jars := c[app].jars - {version})];
            SameRows(s.artifacts - {id}, c') && SameApps(s.apps, s.artifacts - {id}, c')
  {
    SameRowsWithout(s.artifacts, c, id, app, version);
    UnreferencedGoes(s, c, id, app, c[app].jars - {version});
  }

  lemma DeletedIsNoted(s: State, op: Op, c: Catalogue) returns (id: Id)
    requires SameApps(s.apps, s.artifacts, c) && op.DeleteArtifact? && DeleteArtifactStep(s, op).1 == Ok
    ensures id in s.artifacts && s.artifacts[id].app == op.app && s.artifacts[id].version == op.version
    ensures !Referenced(s.apps, id) && op.app in c
    ensures var (s', r) := Step(s, op);
            && s'.apps == s.apps && s'.artifacts == s.artifacts - {id}
            && Noted(c, Event(op, r)) == c[op.app := c[op.app].(jars := c[op.app].jars - {op.version})]
  {
    id := VersionId(s.artifacts, op.app, op.version);
  }

  lemma UnreferencedGoes(s: State, c: Catalogue, id: Id, app: string, jars: map<string, Jar>)
    requires Consistent(s) && SameApps(s.apps, s.artifacts, c) && !Referenced(s.apps, id) && app in c
    ensures SameApps(s.apps, s.artifacts - {id}, c[app := c[app].(jars := jars)])
  {
    forall a | a in s.apps
      ensures StillNamed(s.apps[a], s.artifacts, s.artifacts - {id})
    {
      ReferredToStay(s, s.artifacts - {id}, a);
    }
    SameAppsWith(s.apps, s.artifacts, s.artifacts - {id}, c, app, jars);
  }

  lemma SameDrop(s: State, op: Op, c: Catalogue)
    requires Consistent(s) && Same(s, c) && op.DeleteApp? && Step(s, op).1 == Ok
    ensures var (s', r) := Step(s, op); Same(s', Noted(c, Event(op, r)))
  {
    DropRows(s.artifacts, c, op.app);
    DropApp(s, c, op.app);
  }

  lemma DropApp(s: State, c: Catalogue, dropped: string)
    requires Consistent(s) && SameApps(s.apps, s.artifacts, c)
    ensures SameApps(s.apps - {dropped},
                     map id | id in s.artifacts && s.artifacts[id].app != dropped :: s.artifacts[id], c - {dropped})
  {
    var artifacts' := map id | id in s.artifacts && s.artifacts[id].app != dropped :: s.artifacts[id];
    forall a | a in c - {dropped}
      ensures SameApp(s.apps[a], c[a], artifacts')
    {
      ReferredToStay(s, artifacts', a);
      assert SameApp(s.apps[a], c[a], s.artifacts);
    }
  }

  lemma DropRows(artifacts: map<Id, Artifact>, c: Catalogue, dropped: string)
    requires SameRows(artifacts, c)
    ensures SameRows(map id | id in artifacts && artifacts[id].app != dropped :: artifacts[id], c - {dropped})
  {
    var artifacts' := map id | id in artifacts && artifacts[id].app != dropped :: artifacts[id];
    forall i | i in artifacts'
      ensures SameRow(artifacts'[i], c - {dropped})
    {
      assert SameRow(artifacts[i], c);
    }
    forall app, v | app in c - {dropped} && v in c[app].jars
      ensures HasVersion(artifacts', app, v)
    {
      FoundVersion(artifacts', VersionId(artifacts, app, v));
    }
  }

  lemma SameCreate(s: State, op: Op, c: Catalogue)
    requires Same(s, c) && op.CreateApp? && Step(s, op).1 == Ok
    ensures var (s', r) := Step(s, op); Same(s', Noted(c, Event(op, r)))
  {
    NewShelf(s.artifacts, c, op.app);
    forall a | a in c
      ensures SameApp(s.apps[a], c[a], s.artifacts)
    {
    }
  }

  lemma NewShelf(artifacts: map<Id, Artifact>, c: Catalogue, app: string)
    requires SameRows(artifacts, c) && app !in c
    ensures SameRows(artifacts, c[app := Shelf(map[], None, None)])
  {
    forall id | id in artifacts
      ensures SameRow(artifacts[id], c[app := Shelf(map[], None, None)])
    {
      assert SameRow(artifacts[id], c);
    }
  }

  lemma SameStep(s: State, op: Op, c: Catalogue)
    requires Consistent(s) && Same(s, c)
    ensures var (s', r) := Step(s, op); Same(s', Noted(c, Event(op, r)))
  {
    if !op.Upload? && Step(s, op).1 != Ok {
      RefusalChangesNothing(s, op, c);
    } else {
      match op
      case CreateApp(_) => SameCreate(s, op, c);
      case Upload(_, _, _, _, _, _, _, _, _) => SameUpload(s, op, c);
      case Activate(_, _, _) => SameActivate(s, op, c);
      case DeleteArtifact(_, _, _, _) => SameDelete(s, op, c);
      case DeleteApp(_, _) => SameDrop(s, op, c);
      case StartApp(_, _) => SameStart(s, op, c);
      case StopApp(_) => SameStop(s, op, c);
    }
  }

  lemma StepOf(states: seq<State>, events: seq<Event>, i: nat)
    requires History(states, events) && i < |events|
    ensures Step(states[i], events[i].op) == (states[i + 1], events[i].reply)
  {
  }

  /** At every point of a history the tables hold exactly what it has made: the versions, their files and bytes, what is
      promoted and what was launched. */
  lemma {:induction false} CatalogueIsKept(states: seq<State>, events: seq<Event>, i: nat)
    requires History(states, events) && i <= |events|
    ensures Consistent(states[i]) && Same(states[i], CatalogueOf(events[..i]))
  {
    if i > 0 {
      CatalogueIsKept(states, events, i - 1);
      assert events[..i][..i - 1] == events[..i - 1] && events[..i][i - 1] == events[i - 1];
      StepOf(states, events, i - 1);
      ConsistentStep(states[i - 1], events[i - 1].op);
      SameStep(states[i - 1], events[i - 1].op, CatalogueOf(events[..i - 1]));
    }
  }

  // ----- what is promoted is what was promoted last -----

  /** What the event makes of the app's promotion: Some(v) if it decides it, to a version or to none. */
  function Promotes(e: Event, app: string): Option<Option<string>> {
    if !e.reply.Ok? then None
    else
      match e.op
      case CreateApp(a) => if a == app then Some(None) else None
      case Activate(a, version, _) => if a == app then Some(Some(version)) else None
      case Upload(a, version, _, _, activate, _, _, _, _) => if a == app && activate then Some(Some(version)) else None
      case _ => None
  }

  predicate LastPromotes(events: seq<Event>, i: nat, app: string, promoted: Option<string>) {
    && i < |events| && Promotes(events[i], app) == Some(promoted)
    && forall j :: i < j < |events| ==> Promotes(events[j], app) == None
  }

  lemma PromotedAfter(c: Catalogue, e: Event, app: string)
    requires app in Noted(c, e)
    requires e.reply.Ok? && !e.op.CreateApp? ==> e.op.app in c
    ensures if Promotes(e, app).Some? then Promotes(e, app) == Some(Noted(c, e)[app].promoted)
            else app in c && Noted(c, e)[app].promoted == c[app].promoted
  {
  }

  lemma AcceptedHasApp(s: State, op: Op)
    requires Step(s, op).1 == Ok && !op.CreateApp?
    ensures op.app in s.apps
  {
  }

  /** What is accepted, other than to create an app, is about an app there is. */
  predicate AboutKnown(events: seq<Event>) {
    forall i :: 0 <= i < |events| && events[i].reply.Ok? && !events[i].op.CreateApp? ==>
      events[i].op.app in CatalogueOf(events[..i])
  }

  lemma HistoryIsAboutKnown(states: seq<State>, events: seq<Event>)
    requires History(states, events)
    ensures AboutKnown(events)
  {
    forall i | 0 <= i < |events| && events[i].reply.Ok? && !events[i].op.CreateApp?
      ensures events[i].op.app in CatalogueOf(events[..i])
    {
      CatalogueIsKept(states, events, i);
      StepOf(states, events, i);
      AcceptedHasApp(states[i], events[i].op);
    }
  }

  lemma {:induction false} PromotedIsLast(events: seq<Event>, app: string) returns (i: nat)
    requires AboutKnown(events) && app in CatalogueOf(events)
    ensures LastPromotes(events, i, app, CatalogueOf(events)[app].promoted)
    decreases |events|
  {
    var n := |events| - 1;
    var front := events[..n];
    PromotedAfter(CatalogueOf(front), events[n], app);
    if Promotes(events[n], app).Some? {
      i := n;
    } else {
      assert forall j :: 0 <= j < n ==> front[j] == events[j] && front[..j] == events[..j];
      i := PromotedIsLast(front, app);
    }
  }

  /** After any history, an app's active id names the version promoted last, if any since the app was created. */
  lemma ActiveIsLastPromoted(states: seq<State>, events: seq<Event>, app: string) returns (i: nat)
    requires History(states, events) && app in states[|events|].apps
    ensures var s := states[|events|]; LastPromotes(events, i, app, VersionOf(s.artifacts, s.apps[app].active))
    ensures var s := states[|events|];
            s.apps[app].active.Some? ==> OfApp(s.artifacts, s.apps[app].active.value, app)
  {
    var n := |events|;
    assert events[..n] == events;
    CatalogueIsKept(states, events, n);
    HistoryIsAboutKnown(states, events);
    i := PromotedIsLast(events, app);
    assert SameApp(states[n].apps[app], CatalogueOf(events)[app], states[n].artifacts);
    var active := states[n].apps[app].active;
    assert active.Some? ==> RefersTo(states[n].apps[app], active.value);
  }

  predicate OfApp(artifacts: map<Id, Artifact>, id: Id, app: string) {
    id in artifacts && artifacts[id].app == app
  }

  /** The row of the promoted version, with the bytes that were uploaded. */
  lemma PromotedRow(s: State, c: Catalogue, app: string)
    requires Consistent(s) && Same(s, c) && app in c && c[app].promoted.Some?
    ensures var v, active := c[app].promoted.value, s.apps[app].active;
            && v in c[app].jars && active.Some? && active.value in s.artifacts
            && s.artifacts[active.value] == Artifact(app, v, c[app].jars[v].file, Digest(c[app].jars[v].bytes))
  {
    var active := s.apps[app].active;
    assert SameApp(s.apps[app], c[app], s.artifacts);
    assert RefersTo(s.apps[app], active.value);
    assert SameRow(s.artifacts[active.value], c);
  }

  predicate HoldsBytes(disk: Disk, a: Artifact, bytes: string) {
    PathOf(a) in disk && disk[PathOf(a)] == Digest(bytes)
  }

  /** A start that succeeds launches the promoted version, if there is one, from the very bytes uploaded under it. */
  ghost predicate LaunchesPromoted(s: State, c: Catalogue, op: Op)
    requires op.StartApp? && op.app in c && op.app in s.apps
  {
    c[op.app].promoted.Some? ==>
      && c[op.app].promoted.value in c[op.app].jars
      && var jar := c[op.app].jars[c[op.app].promoted.value];
         var a := Artifact(op.app, c[op.app].promoted.value, jar.file, Digest(jar.bytes));
         && Launchable(s, op).Some? && Launchable(s, op).value in s.artifacts
         && s.artifacts[Launchable(s, op).value] == a && HoldsBytes(s.disk, a, jar.bytes)
  }

  lemma StartIsOfPromoted(s: State, c: Catalogue, op: Op)
    requires Consistent(s) && Same(s, c) && op.StartApp? && Step(s, op).1 == Ok
    ensures op.app in c && op.app in s.apps && LaunchesPromoted(s, c, op)
  {
    AcceptedHasApp(s, op);
    if c[op.app].promoted.Some? {
      PromotedRow(s, c, op.app);
    }
  }

  /** So it is after any history. */
  lemma StartLaunchesPromoted(states: seq<State>, events: seq<Event>, op: Op)
    requires History(states, events) && op.StartApp? && Step(states[|events|], op).1 == Ok
    ensures var s, c := states[|events|], CatalogueOf(events);
            op.app in c && op.app in s.apps && LaunchesPromoted(s, c, op)
  {
    assert events[..|events|] == events;
    CatalogueIsKept(states, events, |events|);
    StartIsOfPromoted(states[|events|], CatalogueOf(events), op);
  }

  // ----- one promotion -----

  /** A promotion that is answered Ok makes the version active that was asked for, and changes nothing else. */
  lemma ActivatePromotes(s: State, op: Op)
    requires op.Activate? && Step(s, op).1 == Ok
    ensures var s' := Step(s, op).0;
            && op.app in s.apps && s'.apps.Keys == s.apps.Keys && s'.apps[op.app].active.Some?
            && OfApp(s.artifacts, s'.apps[op.app].active.value, op.app)
            && s.artifacts[s'.apps[op.app].active.value].version == op.version
            && s'.apps[op.app].instance == s.apps[op.app].instance
            && (forall a :: a in s.apps && a != op.app ==> s'.apps[a] == s.apps[a])
            && s'.artifacts == s.artifacts && s'.nextId == s.nextId && s'.disk == s.disk
  {
  }

  // ----- when a handler accepts -----

  ghost predicate Acceptable(c: Catalogue, disk: Disk, op: Op)
    requires !op.StartApp?
  {
    if op.CreateApp? then ValidName(op.app) && op.app !in c
    else
      && op.app in c
      && var shelf := c[op.app];
         match op
         case Upload(app, version, file, _, activate, saveFails, insertFails, activateFails, _) =>
           && ValidName(app) && ValidName(version) && IsJarName(file) && PathFor(app, version, file) !in disk
           && version !in shelf.jars && !saveFails && !insertFails && (activate ==> !activateFails)
         case Activate(_, version, dbFails) => version in shelf.jars && !dbFails
         case DeleteArtifact(_, version, dbFails, _) =>
           && version in shelf.jars && !dbFails && shelf.promoted != Some(version)
           && (shelf.launch.Some? ==> shelf.launch.value.version != Some(version))
         case DeleteApp(_, dbFails) => (shelf.launch.Some? ==> !shelf.launch.value.running) && !dbFails
         case StopApp(_) => shelf.launch.Some?
  }

  /** Every handler but a start accepts exactly what the history and the disk allow. */
  lemma AcceptedExactly(states: seq<State>, events: seq<Event>, op: Op)
    requires History(states, events) && !op.StartApp?
    ensures Step(states[|events|], op).1 == Ok <==> Acceptable(CatalogueOf(events), states[|events|].disk, op)
  {
    var n := |events|;
    assert events[..n] == events;
    CatalogueIsKept(states, events, n);
    var s, c := states[n], CatalogueOf(events);
    if op.Upload? || op.Activate? {
      VersionsAgree(s, c, op.app, op.version);
    } else if op.DeleteArtifact? {
      VersionsAgree(s, c, op.app, op.version);
      if HasVersion(s.artifacts, op.app, op.version) {
        ReferencedByOwn(s, c, op.app, VersionId(s.artifacts, op.app, op.version));
      }
    }
  }

  /** Only its own app can refer to a row. */
  lemma ReferencedByOwn(s: State, c: Catalogue, app: string, id: Id)
    requires Consistent(s) && Same(s, c) && app in s.apps && OfApp(s.artifacts, id, app)
    ensures var version := s.artifacts[id].version;
            Referenced(s.apps, id) <==>
              || c[app].promoted == Some(version)
              || (c[app].launch.Some? && c[app].launch.value.version == Some(version))
  {
    var row := s.apps[app];
    assert Referenced(s.apps, id) <==> RefersTo(row, id) by {
      if Referenced(s.apps, id) {
        var a :| a in s.apps && RefersTo(s.apps[a], id);
        assert a == app;
      }
    }
    assert SameApp(row, c[app], s.artifacts);
    if row.active.Some? {
      NamesExactly(s, app, row.active.value, id);
    }
    if row.instance.Some? && row.instance.value.artifact.Some? {
      NamesExactly(s, app, row.instance.value.artifact.value, id);
    }
  }

  /** Two ids an app could refer to are the same if they name the same version. */
  lemma NamesExactly(s: State, app: string, i: Id, id: Id)
    requires Consistent(s) && app in s.apps && RefersTo(s.apps[app], i) && OfApp(s.artifacts, id, app)
    ensures i in s.artifacts && (s.artifacts[i].version == s.artifacts[id].version <==> i == id)
  {
    assert OfApp(s.artifacts, i, app);
  }
}
