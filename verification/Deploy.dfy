// Deployment with rollback: which image each compose tag names at the end, for every way the tools can answer.
module Deploy {
  import opened Wrappers

  /** The services of the compose file; all but the last kind are built from source. */
  datatype Service =
    | Shell | Stir | StirUi | Ostris | OstrisUi | Ledger | LedgerUi
    | CoreMigrations | GovernedVerifier | StirAuditVerifier
    | Pulled(name: string)
  datatype Project = StirDev | StirProd | StirMain
  type Image = nat

  /** `<project>-<service>` is the tag a built service runs under, and a pulled one has the name its `image:` line gives
      it; `stir-rollback/<service>:previous` is where the old image is kept. */
  datatype Tag = Built(project: Project, service: Service) | Own(name: string) | Previous(service: Service)

  /** The name compose looks a service's image up under. */
  function Compose(project: Project, x: Service): Tag { if x.Pulled? then Own(x.name) else Built(project, x) }

  predicate RunUnder(project: Project, t: Tag) { t.Own? || (t.Built? && t.project == project && !t.service.Pulled?) }

  function ServiceOf(t: Tag): Service { if t.Own? then Pulled(t.name) else t.service }

  lemma NamesAreServices(project: Project, x: Service, t: Tag)
    ensures RunUnder(project, Compose(project, x)) && ServiceOf(Compose(project, x)) == x
    ensures RunUnder(project, t) ==> Compose(project, ServiceOf(t)) == t
  {}

  /** What the script takes to be the images built from source; three of them are missing. */
  const BUILT_SERVICES: seq<Service> := [Shell, Stir, StirUi, Ostris, OstrisUi, Ledger, LedgerUi]

  datatype State = State(running: map<Service, Image>, tags: map<Tag, Image>)

  /** The status column of one `docker compose ps`. */
  type Probe = seq<string>

  /** What Docker, the stack and the smoke test answer. A failed build may have rebound some tags all the same. The
      probes are those `wait_healthy` takes before its deadline, after the deployment and after a rollback. */
  datatype World = World(built: map<Service, Image>, buildOk: bool, upOk: bool, probes: seq<Probe>, smokeOk: bool,
                         upAgainOk: bool, probesAgain: seq<Probe>)

  datatype Outcome =
    | Passed
    | RolledBack(healthyAgain: bool)  // SystemExit after a rollback that ran to its end, and what it reported
    | Raised                          // CalledProcessError

  // ---- health ----

  predicate Contains(s: string, word: string) { exists i :: 0 <= i <= |s| && word <= s[i..] }

  /** `healthy()` */
  predicate Healthy(p: Probe) {
    p != []
    && forall i :: 0 <= i < |p| ==> !Contains(p[i], "starting") && !Contains(p[i], "unhealthy") && !Contains(p[i], "Exit")
  }

  /** One service whose status has one of the three words in it, wherever, is enough for a probe to fail. */
  lemma OneBadStatus(p: Probe, i: nat, before: string, word: string, after: string)
    requires i < |p| && p[i] == before + word + after && word in {"starting", "unhealthy", "Exit"}
    ensures !Healthy(p)
  {
    assert word <= p[i][|before|..] by { assert p[i][|before|..] == word + after; }
  }

  lemma WordNeeds(s: string, word: string, k: nat, c: char)
    requires k < |word| && word[k] == c && forall i :: 0 <= i < |s| ==> s[i] != c
    ensures !Contains(s, word)
  {
    forall i | 0 <= i <= |s| ensures !(word <= s[i..]) {
      if i + k < |s| { assert s[i..][k] == s[i + k]; }
    }
  }

  lemma WordNeedsPair(s: string, word: string)
    requires |word| >= 2 && forall i :: 0 <= i < |s| - 1 && s[i] == word[0] ==> s[i + 1] != word[1]
    ensures !Contains(s, word)
  {
    forall i | 0 <= i <= |s| ensures !(word <= s[i..]) {
      if i + 1 < |s| { assert s[i..][0] == s[i] && s[i..][1] == s[i + 1]; }
    }
  }

  /** The statuses Docker reports for services that are up, with or without a health check, pass; so do those of
      services that were only created or are dead. */
  lemma GoodStatuses()
    ensures Healthy(["Up 5 minutes (healthy)", "Up 2 hours", "Created", "Dead"]) && !Healthy([])
  {
    WordNeeds("Up 5 minutes (healthy)", "starting", 3, 'r');
    WordNeeds("Up 5 minutes (healthy)", "Exit", 0, 'E');
    WordNeeds("Up 2 hours", "starting", 1, 't');
    WordNeeds("Up 2 hours", "unhealthy", 1, 'n');
    WordNeeds("Up 2 hours", "Exit", 0, 'E');
    WordNeeds("Created", "starting", 0, 's');
    WordNeeds("Created", "unhealthy", 0, 'u');
    WordNeeds("Created", "Exit", 0, 'E');
    WordNeeds("Dead", "starting", 0, 's');
    WordNeeds("Dead", "unhealthy", 0, 'u');
    WordNeeds("Dead", "Exit", 0, 'E');
    WordNeedsPair("Up 5 minutes (healthy)", "unhealthy");
  }

  predicate SomeHealthy(probes: seq<Probe>) { exists i :: 0 <= i < |probes| && Healthy(probes[i]) }

  /** `wait_healthy()` */
  method WaitHealthy(probes: seq<Probe>) returns (ok: bool)
    ensures ok <==> SomeHealthy(probes)
  {
    var i := 0;
    while i < |probes|
      invariant 0 <= i <= |probes|
      invariant forall j :: 0 <= j < i ==> !Healthy(probes[j])
    {
      if Healthy(probes[i]) { return true; }
      i := i + 1;
    }
    ok := false;
  }

  /** The name compose gives the project. */
  function ProjectOf(production: bool): Project { if production then StirProd else StirDev }

  /** The name `rollback` writes the tags under. */
  function RollbackProject(production: bool): Project { if production then StirProd else StirMain }

  // ---- the whole run as a function ----

  predicate Listed(x: Service) { x in {Shell, Stir, StirUi, Ostris, OstrisUi, Ledger, LedgerUi} }

  predicate Kept(s: State, service: Service) { Listed(service) && service in s.running }

  /** The images the services of a list are running. */
  function Images(services: seq<Service>, running: map<Service, Image>): map<Service, Image> {
    map x | x in services && x in running :: running[x]
  }

  function Bind(project: Project, images: map<Service, Image>): map<Tag, Image> {
    map x | x in images :: Compose(project, x) := images[x]
  }

  function Save(images: map<Service, Image>): map<Tag, Image> { map x | x in images :: Previous(x) := images[x] }

  function SavePrevious(s: State): State { s.(tags := s.tags + Save(Images(BUILT_SERVICES, s.running))) }

  function Build(s: State, project: Project, built: map<Service, Image>): State { s.(tags := s.tags + Bind(project, built)) }

  /** Every service runs what its name stands for. */
  function Up(s: State, project: Project): State {
    s.(running := map t | t in s.tags && RunUnder(project, t) :: ServiceOf(t) := s.tags[t])
  }

  function Restore(s: State, project: Project, before: State): State {
    s.(tags := s.tags + Bind(project, Images(BUILT_SERVICES, before.running)))
  }

  function RollBack(s: State, production: bool, w: World, before: State): (Outcome, State) {
    var restored := Restore(s, RollbackProject(production), before);
    if !w.upAgainOk then (Raised, restored) else (RolledBack(SomeHealthy(w.probesAgain)), Up(restored, ProjectOf(production)))
  }

  function Run(s: State, production: bool, w: World): (Outcome, State) {
    var built := Build(SavePrevious(s), ProjectOf(production), w.built);
    if !w.buildOk then (Raised, built)
    else if !w.upOk then (Raised, built)
    else
      var up := Up(built, ProjectOf(production));
      if !SomeHealthy(w.probes) || !w.smokeOk then RollBack(up, production, w, s) else (Passed, up)
  }

  // ---- what the tags name at the end ----

  /** The deployment got far enough to find that it should be rolled back. */
  predicate NeedsRollback(w: World) { w.buildOk && w.upOk && (!SomeHealthy(w.probes) || !w.smokeOk) }

  /** When it returns normally every service that was built runs what was built, and the old images are kept. */
  lemma PassedRunsTheBuild(s: State, production: bool, w: World)
    requires Run(s, production, w).0 == Passed
    ensures forall x :: x in w.built ==>
      x in Run(s, production, w).1.running && Run(s, production, w).1.running[x] == w.built[x]
    ensures forall x :: Kept(s, x) ==>
      Previous(x) in Run(s, production, w).1.tags && Run(s, production, w).1.tags[Previous(x)] == s.running[x]
  {
    forall x | Kept(s, x)
      ensures Previous(x) in Run(s, production, w).1.tags && Run(s, production, w).1.tags[Previous(x)] == s.running[x]
    {
      SavedStays(s, production, w, x);
    }
    var t := Build(SavePrevious(s), ProjectOf(production), w.built);
    forall x | x in w.built ensures x in Up(t, ProjectOf(production)).running && Up(t, ProjectOf(production)).running[x] == w.built[x] {
      BuildBinds(s, production, w, x);
      UpRuns(t, ProjectOf(production), x);
    }
  }

  lemma UpRuns(s: State, project: Project, x: Service)
    ensures x in Up(s, project).running <==> Compose(project, x) in s.tags
    ensures Compose(project, x) in s.tags ==> Up(s, project).running[x] == s.tags[Compose(project, x)]
  {
    forall t ensures RunUnder(project, t) && ServiceOf(t) == x <==> t == Compose(project, x) {
      NamesAreServices(project, x, t);
    }
  }

  lemma BindIs(project: Project, images: map<Service, Image>, c: Tag)
    ensures c in Bind(project, images) <==> RunUnder(project, c) && ServiceOf(c) in images
    ensures c in Bind(project, images) ==> Bind(project, images)[c] == images[ServiceOf(c)]
  {
    if RunUnder(project, c) { NamesAreServices(project, ServiceOf(c), c); }
    if c in Bind(project, images) {
      var y :| y in images && c == Compose(project, y);
      NamesAreServices(project, y, c);
    }
  }

  lemma BindHas(project: Project, images: map<Service, Image>, x: Service)
    ensures Compose(project, x) in Bind(project, images) <==> x in images
    ensures x in images ==> Bind(project, images)[Compose(project, x)] == images[x]
  {
    NamesAreServices(project, x, Compose(project, x));
    BindIs(project, images, Compose(project, x));
  }

  /** The names of one project's built services are no names of another's. */
  lemma BindElsewhere(project: Project, other: Project, images: map<Service, Image>, x: Service)
    requires other != project && forall y :: y in images ==> !y.Pulled?
    ensures Compose(project, x) !in Bind(other, images)
  {}

  lemma SaveBindsNoName(project: Project, images: map<Service, Image>, x: Service)
    ensures Compose(project, x) !in Save(images)
  {}

  lemma BuildBinds(s: State, production: bool, w: World, x: Service)
    ensures var t := Build(SavePrevious(s), ProjectOf(production), w.built).tags; var c := Compose(ProjectOf(production), x);
      (x in w.built ==> c in t && t[c] == w.built[x])
      && (x !in w.built ==> (c in t <==> c in s.tags) && (c in s.tags ==> t[c] == s.tags[c]))
  {
    BindHas(ProjectOf(production), w.built, x);
    SaveBindsNoName(ProjectOf(production), Images(BUILT_SERVICES, s.running), x);
  }

  /** The image compose would run for a service. */
  function Named(s: State, production: bool, x: Service): Option<Image> {
    var c := Compose(ProjectOf(production), x);
    if c in s.tags then Some(s.tags[c]) else None
  }

  /** What the build alone left under the compose tag. */
  function AfterBuild(s: State, production: bool, w: World, x: Service): Option<Image> {
    if x in w.built then Some(w.built[x]) else Named(s, production, x)
  }

  /** The script saves an image of this service and writes it back under the name compose reads. */
  predicate Covered(production: bool, x: Service) { production && Listed(x) }

  /**
   * After a failed health check or smoke test a service that had an image has its compose tag bound back to that image
   * exactly when this is production and the service is on the script's list, or the build had not moved the tag in
   * the first place. In development the rollback writes `stir-main-*` while compose reads `stir-dev-*`; and three
   * services that compose builds are on no list.
   */
  lemma RollbackRestoresExactly(s: State, production: bool, w: World, x: Service)
    requires NeedsRollback(w) && x in s.running
    ensures Named(Run(s, production, w).1, production, x) == Some(s.running[x])
      <==> Covered(production, x) || AfterBuild(s, production, w, x) == Some(s.running[x])
  {
    RollbackNames(s, production, w, x);
  }

  lemma ImagesAreKept(s: State)
    ensures forall x :: x in Images(BUILT_SERVICES, s.running) <==> Kept(s, x)
    ensures forall x :: x in Images(BUILT_SERVICES, s.running) ==> !x.Pulled?
  {}

  lemma RestoreBinds(s: State, written: Project, read: Project, before: State, x: Service)
    ensures var t := Restore(s, written, before).tags; var c := Compose(read, x);
      if Kept(before, x) && written == read then c in t && t[c] == before.running[x]
      else (c in t <==> c in s.tags) && (c in s.tags ==> t[c] == s.tags[c])
  {
    var images := Images(BUILT_SERVICES, before.running);
    ImagesAreKept(before);
    if written == read { BindHas(read, images, x); } else { BindElsewhere(read, written, images, x); }
  }

  /** What each tag names after a rollback, brought up again or not. */
  lemma RollbackNames(s: State, production: bool, w: World, x: Service)
    requires NeedsRollback(w)
    ensures Named(Run(s, production, w).1, production, x)
      == if Covered(production, x) && x in s.running then Some(s.running[x]) else AfterBuild(s, production, w, x)
  {
    BuildBinds(s, production, w, x);
    RestoreBinds(Up(Build(SavePrevious(s), ProjectOf(production), w.built), ProjectOf(production)),
                 RollbackProject(production), ProjectOf(production), s, x);
  }

  /** What a service runs once compose has come up again is what its name stands for. */
  lemma RollbackRuns(s: State, production: bool, w: World, x: Service)
    requires NeedsRollback(w) && w.upAgainOk
    ensures var (o, t) := Run(s, production, w);
      o == RolledBack(SomeHealthy(w.probesAgain))
      && (if x in t.running then Some(t.running[x]) else None) == Named(t, production, x)
  {
    var up := Up(Build(SavePrevious(s), ProjectOf(production), w.built), ProjectOf(production));
    UpRuns(Restore(up, RollbackProject(production), s), ProjectOf(production), x);
  }

  /** And the same of what it runs, once compose has come up again: the old image under the same condition. */
  lemma RollbackRunsExactly(s: State, production: bool, w: World, x: Service)
    requires NeedsRollback(w) && w.upAgainOk && x in s.running
    ensures var (o, t) := Run(s, production, w);
      o.RolledBack? && (o.healthyAgain <==> SomeHealthy(w.probesAgain))
      && ((x in t.running && t.running[x] == s.running[x])
          <==> Covered(production, x) || AfterBuild(s, production, w, x) == Some(s.running[x]))
  {
    RollbackNames(s, production, w, x);
    RollbackRuns(s, production, w, x);
  }

  /** A pulled service runs under the name its `image:` line gives it, which no build and no rollback touches: it runs
      the same image after a deployment that passed and after one rolled back, brought up again. */
  lemma PulledKeepRunning(s: State, production: bool, w: World, x: Service)
    requires x.Pulled? && x !in w.built && x in s.running && Named(s, production, x) == Some(s.running[x])
    requires w.buildOk && w.upOk && (NeedsRollback(w) ==> w.upAgainOk)
    ensures var t := Run(s, production, w).1; x in t.running && t.running[x] == s.running[x]
  {
    if NeedsRollback(w) {
      RollbackNames(s, production, w, x);
      RollbackRuns(s, production, w, x);
    } else {
      BuildBinds(s, production, w, x);
      UpRuns(Build(SavePrevious(s), ProjectOf(production), w.built), ProjectOf(production), x);
    }
  }

  /** So the services built but not listed stay on the new image, in production too: among them the governed
      verifier, beside the old backend built from the same source. In development so does everything rebuilt. */
  lemma NewImageStays(s: State, production: bool, w: World, x: Service)
    requires NeedsRollback(w) && w.upAgainOk && x in w.built
    requires x in {CoreMigrations, GovernedVerifier, StirAuditVerifier} || !production
    ensures var (o, t) := Run(s, production, w); o.RolledBack? && x in t.running && t.running[x] == w.built[x]
  {
    assert !Covered(production, x);
    RollbackNames(s, production, w, x);
    RollbackRuns(s, production, w, x);
  }

  /** A failed build or start is not rolled back, in production either: each tag stays where the build left it. */
  lemma FailedBuildIsNotRolledBack(s: State, production: bool, w: World, x: Service)
    requires !w.buildOk || !w.upOk
    ensures Run(s, production, w).0 == Raised
    ensures Named(Run(s, production, w).1, production, x) == AfterBuild(s, production, w, x)
  {
    BuildBinds(s, production, w, x);
  }

  // ---- the other project ----

  /** Neither a deployment nor its rollback touches a tag of the other stack: development leaves production's alone. */
  lemma OtherStackUntouched(s: State, production: bool, w: World, x: Service)
    requires !x.Pulled?
    ensures var t, c := Run(s, production, w).1.tags, Built(if production then StirDev else StirProd, x);
      (c in t <==> c in s.tags) && (c in s.tags ==> t[c] == s.tags[c])
  {
    var other := if production then StirDev else StirProd;
    SaveBindsNoName(other, Images(BUILT_SERVICES, s.running), x);
    BuildElsewhere(other, ProjectOf(production), w.built, x);
    ImagesAreKept(s);
    BuildElsewhere(other, RollbackProject(production), Images(BUILT_SERVICES, s.running), x);
  }

  lemma BuildElsewhere(project: Project, other: Project, images: map<Service, Image>, x: Service)
    requires other != project && !x.Pulled?
    ensures Built(project, x) !in Bind(other, images)
  {}

  /** In development the rollback binds the old images to names of a third project, which compose does not read. */
  lemma RollbackWritesStirMain(s: State, w: World, x: Service)
    requires NeedsRollback(w) && Kept(s, x)
    ensures var t := Run(s, false, w).1.tags; Built(StirMain, x) in t && t[Built(StirMain, x)] == s.running[x]
  {
    ImagesAreKept(s);
    BindHas(StirMain, Images(BUILT_SERVICES, s.running), x);
  }

  // ---- the loops ----

  lemma SaveOneMore(images: map<Service, Image>, x: Service, i: Image)
    ensures Save(images[x := i]) == Save(images)[Previous(x) := i]
  {}

  lemma SaveOne(t: map<Tag, Image>, images: map<Service, Image>, x: Service, i: Image)
    ensures (t + Save(images))[Previous(x) := i] == t + Save(images[x := i])
  {
    SaveOneMore(images, x, i);
  }

  lemma BindOneMore(project: Project, images: map<Service, Image>, x: Service, i: Image)
    ensures Bind(project, images[x := i]) == Bind(project, images)[Compose(project, x) := i]
  {
    var more := images[x := i];
    forall c
      ensures c in Bind(project, more) <==> c in Bind(project, images)[Compose(project, x) := i]
      ensures c in Bind(project, more) ==> Bind(project, more)[c] == Bind(project, images)[Compose(project, x) := i][c]
    {
      BindIs(project, images, c);
      BindIs(project, more, c);
      NamesAreServices(project, x, c);
    }
  }

  lemma BindOne(t: map<Tag, Image>, project: Project, images: map<Service, Image>, x: Service, i: Image)
    ensures (t + Bind(project, images))[Compose(project, x) := i] == t + Bind(project, images[x := i])
  {
    BindOneMore(project, images, x, i);
  }

  lemma ImagesOfOneMore(services: seq<Service>, running: map<Service, Image>)
    requires services != []
    ensures var n := |services| - 1;
      Images(services, running)
      == if services[n] in running then Images(services[..n], running)[services[n] := running[services[n]]]
         else Images(services[..n], running)
  {
    var n := |services| - 1;
    assert services == services[..n] + [services[n]];
  }

  /** The tags after the saving loop has been through `services`. */
  function Saved(t: map<Tag, Image>, services: seq<Service>, running: map<Service, Image>): map<Tag, Image> {
    if services == [] then t
    else
      var x, before := services[|services| - 1], Saved(t, services[..|services| - 1], running);
      if x in running then before[Previous(x) := running[x]] else before
  }

  lemma {:induction false} SavedIs(t: map<Tag, Image>, services: seq<Service>, running: map<Service, Image>)
    ensures Saved(t, services, running) == t + Save(Images(services, running))
  {
    if services != [] {
      var n := |services| - 1;
      SavedIs(t, services[..n], running);
      ImagesOfOneMore(services, running);
      if services[n] in running {
        SaveOne(t, Images(services[..n], running), services[n], running[services[n]]);
      }
    }
  }

  /** The tags after the retagging loop has been through `services`. */
  function Rebound(t: map<Tag, Image>, services: seq<Service>, project: Project, images: map<Service, Image>): map<Tag, Image> {
    if services == [] then t
    else
      var x, before := services[|services| - 1], Rebound(t, services[..|services| - 1], project, images);
      if x in images then before[Compose(project, x) := images[x]] else before
  }

  lemma {:induction false} ReboundIs(t: map<Tag, Image>, services: seq<Service>, project: Project, images: map<Service, Image>)
    ensures Rebound(t, services, project, images) == t + Bind(project, Images(services, images))
  {
    if services != [] {
      var n := |services| - 1;
      ReboundIs(t, services[..n], project, images);
      ImagesOfOneMore(services, images);
      if services[n] in images {
        BindOne(t, project, Images(services[..n], images), services[n], images[services[n]]);
      }
    }
  }

  lemma {:induction false} ReboundKeepsPrevious(t: map<Tag, Image>, services: seq<Service>, project: Project,
                                                images: map<Service, Image>, x: Service)
    requires Previous(x) in t
    ensures Previous(x) in Rebound(t, services, project, images)
    ensures Rebound(t, services, project, images)[Previous(x)] == t[Previous(x)]
  {
    if services != [] { ReboundKeepsPrevious(t, services[..|services| - 1], project, images, x); }
  }

  lemma SavedStays(s: State, production: bool, w: World, x: Service)
    requires Kept(s, x)
    ensures var t := Build(SavePrevious(s), ProjectOf(production), w.built).tags;
      Previous(x) in t && t[Previous(x)] == s.running[x]
  {
    assert x in Images(BUILT_SERVICES, s.running);
  }

  /** The services that were saved are those that run among the listed ones. */
  lemma SameImages(previous: seq<Service>, before: State)
    requires forall x :: x in previous <==> Kept(before, x)
    ensures Images(previous, before.running) == Images(BUILT_SERVICES, before.running)
  {
    ImagesAreKept(before);
  }

  class Host {
    var running: map<Service, Image>
    var tags: map<Tag, Image>

    constructor (s: State)
      ensures Tables() == s
    {
      running, tags := s.running, s.tags;
    }

    ghost function Tables(): State
      reads this
    {
      State(running, tags)
    }

    /** Returns the keys of `tags`, in order. */
    method TagAsPrevious(services: seq<Service>) returns (previous: seq<Service>)
      modifies `tags
      ensures forall x :: x in previous <==> x in services && x in running
      ensures tags == Saved(old(tags), services, running)
    {
      previous := [];
      var i := 0;
      while i < |services|
        invariant 0 <= i <= |services|
        invariant forall x :: x in previous <==> x in services[..i] && x in running
        invariant tags == Saved(old(tags), services[..i], running)
      {
        var service := services[i];
        assert services[..i + 1] == services[..i] + [service];
        assert services[..i + 1][..i] == services[..i];
        if service in running {
          tags := tags[Previous(service) := running[service]];
          previous := previous + [service];
        }
        i := i + 1;
      }
      assert services[..i] == services;
    }

    method TagCurrentAsPrevious() returns (previous: seq<Service>)
      modifies `tags
      ensures Tables() == SavePrevious(old(Tables()))
      ensures forall x :: x in previous <==> Kept(old(Tables()), x)
    {
      previous := TagAsPrevious(BUILT_SERVICES);
      SavedIs(old(tags), BUILT_SERVICES, running);
    }

    /** The retagging loop of `rollback`. */
    method Retag(previous: seq<Service>, project: Project, ghost images: map<Service, Image>)
      requires forall x :: x in previous ==> x in images && Previous(x) in tags && tags[Previous(x)] == images[x]
      modifies `tags
      ensures tags == Rebound(old(tags), previous, project, images)
    {
      var i := 0;
      while i < |previous|
        invariant 0 <= i <= |previous|
        invariant tags == Rebound(old(tags), previous[..i], project, images)
      {
        var service := previous[i];
        ReboundKeepsPrevious(old(tags), previous[..i], project, images, service);
        assert previous[..i + 1][..i] == previous[..i];
        tags := tags[Compose(project, service) := tags[Previous(service)]];
        i := i + 1;
      }
      assert previous[..i] == previous;
    }

    method RollBackTo(production: bool, w: World, previous: seq<Service>, ghost before: State) returns (o: Outcome)
      requires forall x :: x in previous <==> Kept(before, x)
      requires forall x :: x in previous ==> x in before.running && Previous(x) in tags && tags[Previous(x)] == before.running[x]
      modifies this
      ensures (o, Tables()) == RollBack(old(Tables()), production, w, before)
    {
      Retag(previous, RollbackProject(production), before.running);
      ReboundIs(old(tags), previous, RollbackProject(production), before.running);
      SameImages(previous, before);
      assert Tables() == Restore(old(Tables()), RollbackProject(production), before);
      if !w.upAgainOk { return Raised; }
      running := Up(State(running, tags), ProjectOf(production)).running;
      var healthyAgain := WaitHealthy(w.probesAgain);
      o := RolledBack(healthyAgain);
    }

    /** `main()`: it returns normally exactly when the build, the start, some probe before the deadline and the smoke
        test all succeeded. */
    method DeployStack(production: bool, w: World) returns (o: Outcome)
      modifies this
      ensures (o, Tables()) == Run(old(Tables()), production, w)
      ensures o == Passed <==> w.buildOk && w.upOk && (exists i :: 0 <= i < |w.probes| && Healthy(w.probes[i])) && w.smokeOk
    {
      ghost var before := Tables();
      var previous := TagCurrentAsPrevious();
      tags := Build(State(running, tags), ProjectOf(production), w.built).tags;
      assert Tables() == Build(SavePrevious(before), ProjectOf(production), w.built);
      if !w.buildOk { return Raised; }
      if !w.upOk { return Raised; }
      forall x | x in previous ensures Previous(x) in tags && x in before.running && tags[Previous(x)] == before.running[x] {
        SavedStays(before, production, w, x);
      }
      running := Up(State(running, tags), ProjectOf(production)).running;
      var healthy := WaitHealthy(w.probes);
      if !healthy {
        o := RollBackTo(production, w, previous, before);
        return;
      }
      if !w.smokeOk {
        o := RollBackTo(production, w, previous, before);
        return;
      }
      o := Passed;
    }
  }
}
