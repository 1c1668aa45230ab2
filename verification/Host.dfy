/** Virtual machines of one host: volumes, disks and GPUs over serial runs. */
module Host {
  import opened Seqs
  import opened Overlay
  import opened Directory

  /** A PCI address as libvirt prints it. */
  datatype Addr = Addr(domain: string, bus: string, slot: string, func: string)

  /** `headerOk`: every address of the group parses and lspci finds a sane header. */
  datatype Gpu = Gpu(product: string, group: seq<Addr>, headerOk: bool)

  datatype Layer = Layer(chain: seq<Path>, disposable: bool)

  /** A launch request; the list of these only grows. */
  datatype Model = Model(id: nat, os: Layer, app: Layer, gpu: Gpu)

  datatype Domain = Domain(id: nat, running: bool, hostdevs: seq<Addr>)

  datatype State = State(files: set<Path>, models: seq<Model>, domains: seq<Domain>)

  datatype Site = Site(base: seq<string>) {
    function OsImage(): Path { Path(base, Plain("os")) }
    function AppImage(): Path { Path(base, Plain("app")) }
    function ChildDir(): seq<string> { base + ["child"] }
    function TempDir(): seq<string> { base + ["temp"] }
  }

  // ---------------------------------------------------------------- GPUs

  ghost predicate Holds(d: Domain, g: Gpu) {
    d.running && exists a :: a in d.hostdevs && a in g.group
  }

  /** Some running domain holds an address of the GPU's IOMMU group. */
  ghost predicate Active(g: Gpu, domains: seq<Domain>) {
    exists d :: d in domains && Holds(d, g)
  }

  ghost predicate Free(g: Gpu, domains: seq<Domain>) {
    g.headerOk && !Active(g, domains)
  }

  ghost function FirstFree(gpus: seq<Gpu>, domains: seq<Domain>): (r: Option<Gpu>)
    ensures r.Some? ==> r.value in gpus && Free(r.value, domains)
    ensures r.None? ==> forall g :: g in gpus ==> !Free(g, domains)
  {
    if gpus == [] then None
    else if Free(gpus[0], domains) then Some(gpus[0])
    else FirstFree(gpus[1..], domains)
  }

  ghost predicate Disjoint(a: Domain, b: Domain) {
    forall x :: x in a.hostdevs ==> x !in b.hostdevs
  }

  // ---------------------------------------------------------------- disks

  datatype Info = NoInfo | Info(backing: Option<Path>)

  /** How a launch ends: refused; created but reported as an error; created but never
      answering; up. */
  datatype Creation = Refused | Lost | Unreachable | Up

  /** Everything outside the daemon that one deployment depends on, and its fresh uuids. */
  datatype Env = Env(
    gpus: seq<Gpu>, ifaceOk: bool,
    pushAppOk: bool, info: Info, pushOsOk: bool,
    creation: Creation, deleteOk: bool,
    appName: nat, osName: nat, vmName: nat)

  datatype Prep = Prep(files: set<Path>, layers: Option<(Layer, Layer)>)

  function AppStack(site: Site, files: set<Path>): Stack { Stack([site.AppImage()], true, files) }

  function Prepared(site: Site, files: set<Path>, os: Path, env: Env): Prep {
    var app0 := AppStack(site, files);
    if !PushSucceeds(app0, env.pushAppOk) then Prep(files, None)
    else
      var app := Pushed(app0, Uuid(env.appName), true);
      var failed := Prep(Popped(app).files, None);
      if env.info.NoInfo? then failed
      else if env.info.backing.Some? then
        Prep(app.files, Some((Layer([os, env.info.backing.value], false), Layer(app.chain, true))))
      else
        var os0 := Stack([os], false, app.files);
        if !PushSucceeds(os0, env.pushOsOk) then failed
        else
          var pushed := Pushed(os0, Uuid(env.osName), true);
          Prep(pushed.files, Some((Layer(pushed.chain, false), Layer(app.chain, true))))
  }

  /** Pop every disposable disk, and the OS disk too when it is the base image's. */
  function Disposed(site: Site, files: set<Path>, os: Path, layers: (Layer, Layer)): set<Path> {
    var base := os == site.OsImage();
    var files1 := if (layers.0.disposable || base) && layers.0.chain != [] then files - {layers.0.chain[0]} else files;
    if (layers.1.disposable || base) && layers.1.chain != [] then files1 - {layers.1.chain[0]} else files1
  }

  /** The second half of DeployVM, from the prepared disks to the machine being up or cleaned up. */
  function Launched(site: Site, s: State, os: Path, layers: (Layer, Layer), gpu: Gpu, env: Env): State {
    var models := s.models + [Model(env.vmName, layers.0, layers.1, gpu)];
    var domains := s.domains + [Domain(env.vmName, true, gpu.group)];
    var disposed := Disposed(site, s.files, os, layers);
    match env.creation
    case Refused => State(disposed, models, s.domains)
    case Lost => State(disposed, models, domains)
    case Unreachable => State(disposed, models, if env.deleteOk then s.domains else domains)
    case Up => State(s.files, models, domains)
  }

  /** DeployVM once the OS image is known. With no free GPU the caller keeps waiting. */
  ghost function Deployed(site: Site, s: State, os: Path, env: Env): State {
    var gpu := FirstFree(env.gpus, s.domains);
    if gpu.None? || !env.ifaceOk then s
    else
      var prep := Prepared(site, s.files, os, env);
      if prep.layers.None? then s.(files := prep.files)
      else Launched(site, s.(files := prep.files), os, prep.layers.value, gpu.value, env)
  }

  /** A uuid nobody has seen: no file, disk, model or domain carries it. */
  ghost predicate NewName(s: State, u: nat) {
    && (forall p :: p in s.files ==> p.name != Uuid(u))
    && (forall m :: m in s.models ==> m.id != u)
    && (forall m, p :: m in s.models && p in m.os.chain + m.app.chain ==> p.name != Uuid(u))
    && (forall d :: d in s.domains ==> d.id != u)
  }

  ghost predicate NewNames(s: State, env: Env) {
    NewName(s, env.appName) && NewName(s, env.osName) && NewName(s, env.vmName)
  }

  /** Every failing path of prepareVolume leaves the files as they were. */
  lemma {:induction false} FailedPrepareRestores(site: Site, s: State, os: Path, env: Env)
    requires NewNames(s, env) && Prepared(site, s.files, os, env).layers.None?
    ensures Prepared(site, s.files, os, env).files == s.files
  {
    if PushSucceeds(AppStack(site, s.files), env.pushAppOk) {
      PopUndoesPush(AppStack(site, s.files), Uuid(env.appName));
    }
  }

  /** Preparation succeeds exactly when the application image is there and its overlay can be made,
      the OS disk can be read, and it has a backing file or can be given an overlay too. */
  lemma {:induction false} PreparedIff(site: Site, s: State, os: Path, env: Env)
    requires NewName(s, env.appName)
    ensures Prepared(site, s.files, os, env).layers.Some? <==>
      && site.AppImage() in s.files && env.pushAppOk && env.info.Info?
      && (env.info.backing.Some? || (env.pushOsOk && (os in s.files || os == NewOverlay(site, env))))
  {
  }

  /** The application overlay a deployment makes. */
  function NewOverlay(site: Site, env: Env): Path {
    Path(site.TempDir(), Uuid(env.appName))
  }

  /** What a deployment that fails after preparation leaves on disk, exactly. It restores the
      files if and only if the OS disk is the backing-less base image or a volume that already
      has a backing file. */
  lemma {:induction false} FailedDeployRestoresIff(site: Site, s: State, os: Path, env: Env)
    requires NewNames(s, env) && os in s.files && os.name != Uuid(env.appName)
    requires FirstFree(env.gpus, s.domains).Some? && env.ifaceOk
    requires Prepared(site, s.files, os, env).layers.Some? && env.creation != Up
    ensures var after := Deployed(site, s, os, env).files;
      && (after == s.files <==> (os == site.OsImage() <==> env.info.backing.None?))
      && (env.info.backing.None? ==> s.files <= after)
      && (os != site.OsImage() ==> s.files <= after)
      && (os != site.OsImage() && env.info.backing.None? ==>
            after == s.files + {OverlayPath(os, false, Uuid(env.osName))})
  {
    var overlay := OverlayPath(site.AppImage(), true, Uuid(env.appName));
    assert overlay !in s.files && overlay != os;
    var osOverlay := OverlayPath(os, false, Uuid(env.osName));
    assert osOverlay !in s.files;
    var after := Deployed(site, s, os, env).files;
    if env.info.backing.Some? {
      if os == site.OsImage() {
        assert os !in after;
      } else {
        assert after == s.files;
      }
    } else if os == site.OsImage() {
      assert after == s.files;
    } else {
      assert osOverlay != overlay by {
        assert osOverlay.dir[|osOverlay.dir| - 1] == "child" && overlay.dir[|overlay.dir| - 1] == "temp";
      }
      assert osOverlay in after;
    }
  }

  // ---------------------------------------------------------------- serial runs

  /** The images a machine writes to. */
  function Tops(m: Model): set<Path> {
    (if m.os.chain == [] then {} else {m.os.chain[0]}) + (if m.app.chain == [] then {} else {m.app.chain[0]})
  }

  ghost predicate Live(s: State, m: Model) {
    exists d :: d in s.domains && d.id == m.id
  }

  ghost predicate Ours(s: State, d: Domain) {
    exists m :: m in s.models && m.id == d.id
  }

  /** OS disks live below the child directory, app disks in the temp directory. */
  ghost predicate Placed(site: Site, m: Model) {
    && m.os.chain != [] && m.app.chain != []
    && site.ChildDir() <= m.os.chain[0].dir
    && m.app.chain[0].dir == site.TempDir()
  }

  /** Volume ids that are the OS top layer of a live machine. */
  ghost function InUse(s: State): set<Name> {
    set m | m in s.models && Live(s, m) && m.os.chain != [] :: m.os.chain[0].name
  }

  /** The volumes a successful local query offers: listed on disk and not in use. */
  ghost predicate Available(s: State, tree: Dir, id: Name) {
    Listing(tree).Some? && id in Listing(tree).value && id !in InUse(s)
  }

  /** The tree a query reads shows the images that exist below the child directory. */
  ghost predicate OnDisk(site: Site, files: set<Path>, tree: Dir) {
    FilesOf(site.ChildDir(), tree) == set p | p in files && site.ChildDir() <= p.dir && p.name.Uuid?
  }

  ghost predicate HasImage(site: Site, files: set<Path>, id: Name) {
    id.Uuid? && exists p :: p in files && site.ChildDir() <= p.dir && p.name == id
  }

  /** The offered volumes are exactly the ids of images on disk, and of strays, that are not the OS top
      layer of a live machine. */
  lemma AvailableIffOnDisk(site: Site, s: State, tree: Dir, id: Name)
    requires Listing(tree).Some? && OnDisk(site, s.files, tree)
    ensures Available(s, tree, id) <==> id !in InUse(s) && (id in Strays(tree) || HasImage(site, s.files, id))
  {
    ListingNamesFiles(site.ChildDir(), tree, id);
    if HasImage(site, s.files, id) {
      var p :| p in s.files && site.ChildDir() <= p.dir && p.name == id;
      assert p in FilesOf(site.ChildDir(), tree);
    }
    if Names(FilesOf(site.ChildDir(), tree), id) {
      var p :| p in FilesOf(site.ChildDir(), tree) && p.name == id;
      assert p in s.files && site.ChildDir() <= p.dir;
    }
  }

  /** A deployment of an offered volume that fails after preparation restores the files if and only
      if the volume has a backing file; the volume itself always survives. A stray's image must
      exist after all. */
  lemma {:induction false} FailedVolumeDeployRestoresIff(
      site: Site, s: State, id: Name, tree: Dir, os: Path, env: Env)
    requires NewNames(s, env) && OnDisk(site, s.files, tree) && Find(site.ChildDir(), tree, id) == Some(os)
    requires id in Strays(tree) ==> os in s.files
    requires FirstFree(env.gpus, s.domains).Some? && env.ifaceOk && env.creation != Up
    requires Prepared(site, s.files, os, env).layers.Some?
    ensures var after := Step(site, s, DeployVolume(id, tree, env)).files;
      && os.name == id && os in s.files && s.files <= after
      && (after == s.files <==> env.info.backing.Some?)
  {
    FindAgrees(site.ChildDir(), tree, id);
    if id !in Strays(tree) {
      FindIsFile(site.ChildDir(), tree, id);
    }
    assert os in s.files;
    assert |os.dir| > |site.base|;
    FailedDeployRestoresIff(site, s, os, env);
  }

  datatype Op =
    | DeployBase(env: Env)
    | DeployVolume(id: Name, tree: Dir, env: Env)
    | Shutdown(vm: nat, deleteOk: bool)
    | Exit(vm: nat, gone: bool)          // a machine stops by itself
    | Foreign(dom: Domain)               // somebody else's domain appears
    | Allocate(path: Path)               // a volume is created on disk

  function WithoutDomain(domains: seq<Domain>, vm: nat): seq<Domain> {
    if domains == [] then []
    else if domains[0].id == vm then WithoutDomain(domains[1..], vm)
    else [domains[0]] + WithoutDomain(domains[1..], vm)
  }

  function Halted(domains: seq<Domain>, vm: nat): seq<Domain> {
    if domains == [] then []
    else [if domains[0].id == vm then domains[0].(running := false) else domains[0]] + Halted(domains[1..], vm)
  }

  /** Top layers of the disposable disks of every model called vm. */
  function Disposables(models: seq<Model>, vm: nat): set<Path> {
    if models == [] then {}
    else
      var m := models[0];
      Disposables(models[1..], vm)
      + (if m.id == vm && m.os.disposable && m.os.chain != [] then {m.os.chain[0]} else {})
      + (if m.id == vm && m.app.disposable && m.app.chain != [] then {m.app.chain[0]} else {})
  }

  ghost function Step(site: Site, s: State, op: Op): State {
    match op
    case DeployBase(env) => Deployed(site, s, site.OsImage(), env)
    case DeployVolume(id, tree, env) =>
      var os := Find(site.ChildDir(), tree, id);
      if os.None? then s else Deployed(site, s, os.value, env)
    case Shutdown(vm, deleteOk) =>
      if exists d :: d in s.domains && d.id == vm && d.running then
        s.(domains := if deleteOk then WithoutDomain(s.domains, vm) else s.domains,
           files := s.files - Disposables(s.models, vm))
      else s
    case Exit(vm, gone) => s.(domains := if gone then WithoutDomain(s.domains, vm) else Halted(s.domains, vm))
    case Foreign(dom) => s.(domains := s.domains + [dom])
    case Allocate(path) => s.(files := s.files + {path})
  }

  /** What the serial claim takes for granted of each operation: uuids are fresh, a volume is
      deployed right after a query that offers it, the base image has no backing file. */
  ghost predicate Allowed(site: Site, s: State, op: Op) {
    match op
    case DeployBase(env) => NewNames(s, env) && (env.info.Info? ==> env.info.backing.None?)
    case DeployVolume(id, tree, env) => NewNames(s, env) && Available(s, tree, id)
    case Foreign(dom) => NewName(s, dom.id)
    case _ => true
  }

  ghost function Run(site: Site, s: State, ops: seq<Op>): State {
    if ops == [] then s else Step(site, Run(site, s, ops[..|ops| - 1]), ops[|ops| - 1])
  }

  ghost predicate Serial(site: Site, s: State, ops: seq<Op>) {
    forall k :: 0 <= k < |ops| ==> Allowed(site, Run(site, s, ops[..k]), ops[k])
  }

  /** No two live machines share a writable disk image. */
  ghost predicate VolumesExclusive(site: Site, s: State) {
    && (forall m :: m in s.models ==> Placed(site, m))
    && (forall m, k :: m in s.models && k in s.models && m.id == k.id ==> m == k)
    && (forall m, k :: m in s.models && k in s.models && m != k && Live(s, m) && Live(s, k) ==> Tops(m) !! Tops(k))
  }

  ghost predicate OneDomainPerId(s: State) {
    forall d, e :: d in s.domains && e in s.domains && d.id == e.id ==> d == e
  }

  ghost predicate Clash(s: State, d: Domain, e: Domain) {
    d.running && e.running && Ours(s, d) && Ours(s, e) && !Disjoint(d, e)
  }

  /** Running domains the daemon created hold pairwise disjoint addresses. */
  ghost predicate PciExclusive(s: State) {
    forall d, e :: d in s.domains && e in s.domains && d != e ==> !Clash(s, d, e)
  }

  ghost predicate Inv(site: Site, s: State) {
    VolumesExclusive(site, s) && OneDomainPerId(s) && PciExclusive(s)
  }

  // ---- a deployment

  ghost predicate OsChosen(site: Site, s: State, os: Path, env: Env) {
    || (os == site.OsImage() && (env.info.Info? ==> env.info.backing.None?))
    || (site.ChildDir() <= os.dir && os.name !in InUse(s))
  }

  lemma DirsDiffer(site: Site, p: Path, q: Path)
    requires site.ChildDir() <= p.dir && q.dir == site.TempDir()
    ensures p != q
  {
    assert p.dir[|site.base|] == "child" && q.dir[|site.base|] == "temp";
  }

  ghost function NewModel(site: Site, s: State, os: Path, env: Env): Model
    requires FirstFree(env.gpus, s.domains).Some? && Prepared(site, s.files, os, env).layers.Some?
  {
    var layers := Prepared(site, s.files, os, env).layers.value;
    Model(env.vmName, layers.0, layers.1, FirstFree(env.gpus, s.domains).value)
  }

  lemma NewModelIsPlaced(site: Site, s: State, os: Path, env: Env)
    requires FirstFree(env.gpus, s.domains).Some? && Prepared(site, s.files, os, env).layers.Some?
    requires OsChosen(site, s, os, env)
    ensures var m := NewModel(site, s, os, env);
      && Placed(site, m)
      && m.app.chain[0].name == Uuid(env.appName)
      && (m.os.chain[0] == os || m.os.chain[0].name == Uuid(env.osName))
      && (m.os.chain[0] == os ==> site.ChildDir() <= os.dir && os.name !in InUse(s))
  {
    var m := NewModel(site, s, os, env);
    if env.info.backing.None? {
      assert m.os.chain[0].dir == os.dir + ["child"];
      assert |m.os.chain[0].dir| > |os.dir|;
    }
  }

  lemma NewModelHasOwnDisks(site: Site, s: State, os: Path, env: Env, k: Model)
    requires VolumesExclusive(site, s) && NewNames(s, env) && OsChosen(site, s, os, env)
    requires FirstFree(env.gpus, s.domains).Some? && Prepared(site, s.files, os, env).layers.Some?
    requires k in s.models && Live(s, k)
    ensures Tops(NewModel(site, s, os, env)) !! Tops(k)
  {
    var m := NewModel(site, s, os, env);
    NewModelIsPlaced(site, s, os, env);
    var kOs, kApp := k.os.chain[0], k.app.chain[0];
    assert kOs in k.os.chain + k.app.chain && kApp in k.os.chain + k.app.chain by {
      assert (k.os.chain + k.app.chain)[0] == kOs && (k.os.chain + k.app.chain)[|k.os.chain|] == kApp;
    }
    assert kOs.name in InUse(s);
    DirsDiffer(site, m.os.chain[0], kApp);
  }

  /** Adding a launch request, with or without its domain. */
  ghost predicate Launches(site: Site, s: State, os: Path, env: Env, s': State)
    requires FirstFree(env.gpus, s.domains).Some? && Prepared(site, s.files, os, env).layers.Some?
  {
    var m := NewModel(site, s, os, env);
    && s'.models == s.models + [m]
    && (s'.domains == s.domains || s'.domains == s.domains + [Domain(m.id, true, m.gpu.group)])
  }

  lemma AddKeepsVolumes(site: Site, s: State, m: Model, s': State)
    requires VolumesExclusive(site, s) && Placed(site, m) && s'.models == s.models + [m]
    requires forall k :: k in s.models ==> k.id != m.id
    requires forall k :: k in s.models && Live(s', k) ==> Live(s, k) && Tops(m) !! Tops(k)
    ensures VolumesExclusive(site, s')
  {
  }

  lemma {:induction false} LaunchKeepsVolumes(site: Site, s: State, os: Path, env: Env, s': State)
    requires VolumesExclusive(site, s) && NewNames(s, env) && OsChosen(site, s, os, env)
    requires FirstFree(env.gpus, s.domains).Some? && Prepared(site, s.files, os, env).layers.Some?
    requires Launches(site, s, os, env, s')
    ensures VolumesExclusive(site, s')
  {
    var m := NewModel(site, s, os, env);
    NewModelIsPlaced(site, s, os, env);
    forall k | k in s.models && Live(s', k)
      ensures Live(s, k) && Tops(m) !! Tops(k)
    {
      NewModelHasOwnDisks(site, s, os, env, k);
    }
    AddKeepsVolumes(site, s, m, s');
  }

  lemma {:induction false} LaunchKeepsDomains(site: Site, s: State, os: Path, env: Env, s': State)
    requires OneDomainPerId(s) && PciExclusive(s) && NewNames(s, env)
    requires FirstFree(env.gpus, s.domains).Some? && Prepared(site, s.files, os, env).layers.Some?
    requires Launches(site, s, os, env, s')
    ensures OneDomainPerId(s') && PciExclusive(s')
  {
    var m := NewModel(site, s, os, env);
    var dom := Domain(m.id, true, m.gpu.group);
    assert !Active(m.gpu, s.domains);
    forall d, e | d in s'.domains && e in s'.domains && d != e
      ensures !Clash(s', d, e)
    {
      if d in s.domains && e in s.domains {
        assert Ours(s', d) ==> Ours(s, d);
        assert Ours(s', e) ==> Ours(s, e);
        assert !Clash(s, d, e);
      } else {
        var other := if d == dom then e else d;
        assert other in s.domains;
        assert !Holds(other, m.gpu);
      }
    }
  }

  lemma {:induction false} DeployKeepsInv(site: Site, s: State, os: Path, env: Env)
    requires Inv(site, s) && NewNames(s, env) && OsChosen(site, s, os, env)
    ensures Inv(site, Deployed(site, s, os, env))
  {
    var s' := Deployed(site, s, os, env);
    if FirstFree(env.gpus, s.domains).Some? && env.ifaceOk && Prepared(site, s.files, os, env).layers.Some? {
      assert Launches(site, s, os, env, s');
      LaunchKeepsVolumes(site, s, os, env, s');
      LaunchKeepsDomains(site, s, os, env, s');
    } else {
      Shrinks(site, s, s');
    }
  }

  // ---- everything else

  /** Machines may stop or disappear and files may come and go. */
  lemma Shrinks(site: Site, s: State, s': State)
    requires Inv(site, s) && s'.models == s.models
    requires OneDomainPerId(s')
    requires forall d :: d in s'.domains && d.running ==> d in s.domains
    requires forall d :: d in s'.domains ==> exists e :: e in s.domains && e.id == d.id
    ensures Inv(site, s')
  {
    forall m | m in s'.models && Live(s', m)
      ensures Live(s, m)
    {
      var d :| d in s'.domains && d.id == m.id;
    }
    forall d, e | d in s'.domains && e in s'.domains && d != e
      ensures !Clash(s', d, e)
    {
      if d.running && e.running {
        assert !Clash(s, d, e);
        assert Ours(s', d) <==> Ours(s, d);
        assert Ours(s', e) <==> Ours(s, e);
      }
    }
  }

  lemma {:induction false} WithoutDomainIn(domains: seq<Domain>, vm: nat, d: Domain)
    ensures d in WithoutDomain(domains, vm) <==> d in domains && d.id != vm
  {
    if domains == [] {
    } else {
      WithoutDomainIn(domains[1..], vm, d);
      assert domains == [domains[0]] + domains[1..];
    }
  }

  lemma {:induction false} HaltedIn(domains: seq<Domain>, vm: nat, d: Domain)
    ensures d in Halted(domains, vm) <==>
      exists e :: e in domains && d == (if e.id == vm then e.(running := false) else e)
  {
    if domains == [] {
    } else {
      HaltedIn(domains[1..], vm, d);
      assert domains == [domains[0]] + domains[1..];
      assert domains[0] in domains;
    }
  }

  lemma ExitKeepsInv(site: Site, s: State, vm: nat, gone: bool)
    requires Inv(site, s)
    ensures Inv(site, Step(site, s, Exit(vm, gone)))
  {
    var s' := Step(site, s, Exit(vm, gone));
    forall d
      ensures d in WithoutDomain(s.domains, vm) <==> d in s.domains && d.id != vm
    {
      WithoutDomainIn(s.domains, vm, d);
    }
    forall d | d in Halted(s.domains, vm)
      ensures exists e :: e in s.domains && d == (if e.id == vm then e.(running := false) else e)
    {
      HaltedIn(s.domains, vm, d);
    }
    Shrinks(site, s, s');
  }

  lemma ForeignKeepsInv(site: Site, s: State, dom: Domain)
    requires Inv(site, s) && NewName(s, dom.id)
    ensures Inv(site, Step(site, s, Foreign(dom)))
  {
    var s' := Step(site, s, Foreign(dom));
    forall m | m in s.models && Live(s', m)
      ensures Live(s, m)
    {
    }
    assert !Ours(s', dom);
    forall d, e | d in s'.domains && e in s'.domains && d != e
      ensures !Clash(s', d, e)
    {
      if d != dom && e != dom {
        assert !Clash(s, d, e);
      }
    }
  }

  lemma StepKeepsInv(site: Site, s: State, op: Op)
    requires Inv(site, s) && Allowed(site, s, op)
    ensures Inv(site, Step(site, s, op))
  {
    match op
    case DeployBase(env) => DeployKeepsInv(site, s, site.OsImage(), env);
    case DeployVolume(id, tree, env) =>
      FindAgrees(site.ChildDir(), tree, id);
      if Find(site.ChildDir(), tree, id).Some? {
        DeployKeepsInv(site, s, Find(site.ChildDir(), tree, id).value, env);
      }
    case Shutdown(vm, deleteOk) =>
      forall d
        ensures d in WithoutDomain(s.domains, vm) <==> d in s.domains && d.id != vm
      {
        WithoutDomainIn(s.domains, vm, d);
      }
      Shrinks(site, s, Step(site, s, op));
    case Exit(vm, gone) => ExitKeepsInv(site, s, vm, gone);
    case Foreign(dom) => ForeignKeepsInv(site, s, dom);
    case Allocate(path) => Shrinks(site, s, Step(site, s, op));
  }

  /** Over every serial run from a host without machines of ours: no two live machines share a
      writable disk image, and running machines of ours hold disjoint PCI addresses, however the
      deployments, shutdowns, crashes and failures fall. */
  lemma {:induction false} SerialRunsAreExclusive(site: Site, s0: State, ops: seq<Op>)
    requires s0.models == [] && OneDomainPerId(s0) && Serial(site, s0, ops)
    ensures Inv(site, Run(site, s0, ops))
  {
    if ops == [] {
      assert Run(site, s0, ops) == s0;
    } else {
      var front := ops[..|ops| - 1];
      forall k | 0 <= k < |front|
        ensures Allowed(site, Run(site, s0, front[..k]), front[k])
      {
        assert front[..k] == ops[..k];
      }
      SerialRunsAreExclusive(site, s0, front);
      StepKeepsInv(site, Run(site, s0, front), ops[|ops| - 1]);
    }
  }

  // ---- what a deployment and a shutdown accomplish

  /** The deployment reaches the point where its machine is created. */
  ghost predicate Launching(site: Site, s: State, os: Path, env: Env) {
    FirstFree(env.gpus, s.domains).Some? && env.ifaceOk && Prepared(site, s.files, os, env).layers.Some?
  }

  ghost predicate HoldsAll(d: Domain, g: Gpu) {
    d.running && forall a :: a in g.group ==> a in d.hostdevs
  }

  ghost predicate TopInUse(s: State, m: Model) { m.os.chain != [] && m.os.chain[0].name in InUse(s) }

  /** A machine that comes up runs under its name and holds every address of the GPU it was granted,
      and its volume is no longer on offer. */
  lemma {:induction false} UpHoldsItsGpu(site: Site, s: State, os: Path, env: Env)
    requires Launching(site, s, os, env) && env.creation == Up
    ensures var s' := Deployed(site, s, os, env); var g := FirstFree(env.gpus, s.domains).value;
      && (exists d :: d in s'.domains && d.id == env.vmName && HoldsAll(d, g))
      && (g.group != [] ==> Active(g, s'.domains))
      && (exists m :: m in s'.models && m.id == env.vmName && m.gpu == g && TopInUse(s', m))
  {
    var s' := Deployed(site, s, os, env);
    var m, d := s'.models[|s'.models| - 1], s'.domains[|s'.domains| - 1];
    assert m in s'.models && d in s'.domains && d.id == m.id == env.vmName && Live(s', m);
    var g := FirstFree(env.gpus, s.domains).value;
    if g.group != [] {
      assert g.group[0] in g.group && Holds(d, g);
    }
  }

  /** The disks of a machine that comes up: an overlay of its own over the application image, and the OS
      image with its backing file or under an overlay of its own. All of them exist, and no file is
      taken away. */
  lemma {:induction false} UpHasItsDisks(site: Site, s: State, os: Path, env: Env)
    requires Launching(site, s, os, env) && NewNames(s, env) && os in s.files && env.creation == Up
    ensures var s' := Deployed(site, s, os, env); var m := s'.models[|s.models|];
      && |s'.models| == |s.models| + 1 && s'.models[..|s.models|] == s.models && m.id == env.vmName
      && s.files <= s'.files && Tops(m) <= s'.files
      && m.app.chain[1..] == [site.AppImage()] && m.app.chain[0] !in s.files && m.app.disposable && !m.os.disposable
      && (env.info.backing.Some? ==> m.os.chain == [os, env.info.backing.value])
      && (env.info.backing.None? ==> m.os.chain[1..] == [os] && m.os.chain[0] !in s.files)
  {
  }

  /** A machine that stops by itself holds nothing any more; all others hold what they held. */
  lemma {:induction false} ExitFrees(site: Site, s: State, vm: nat, gone: bool, g: Gpu)
    ensures var s' := Step(site, s, Exit(vm, gone));
      Active(g, s'.domains) <==> exists d :: d in s.domains && d.id != vm && Holds(d, g)
  {
    var s' := Step(site, s, Exit(vm, gone));
    forall d
      ensures d in WithoutDomain(s.domains, vm) <==> d in s.domains && d.id != vm
      ensures d in Halted(s.domains, vm) <==>
        exists e :: e in s.domains && d == (if e.id == vm then e.(running := false) else e)
    {
      WithoutDomainIn(s.domains, vm, d);
      HaltedIn(s.domains, vm, d);
    }
    if d :| d in s'.domains && Holds(d, g) {
      assert d in s.domains && d.id != vm && Holds(d, g);
    }
    if d :| d in s.domains && d.id != vm && Holds(d, g) {
      assert d in s'.domains;
    }
  }

  /** As long as that machine runs, no look of any deployment finds a GPU that shares an address. */
  lemma {:induction false} HeldGpuIsNotFound(gpus: seq<Gpu>, domains: seq<Domain>, d: Domain, g: Gpu)
    requires d in domains && HoldsAll(d, g)
    ensures var found := FirstFree(gpus, domains);
      found.Some? ==> forall a :: a in g.group ==> a !in found.value.group
  {
    var found := FirstFree(gpus, domains);
    if found.Some? {
      forall a | a in g.group
        ensures a !in found.value.group
      {
        assert !Holds(d, found.value);
      }
    }
  }

  /** A deployment whose machine was refused, or was deleted after it never answered, leaves the
      machines as they were; one that was lost or could not be deleted leaves its machine behind. */
  lemma {:induction false} FailedDeployMachines(site: Site, s: State, os: Path, env: Env)
    requires Launching(site, s, os, env) && NewNames(s, env) && env.creation != Up
    ensures var s' := Deployed(site, s, os, env);
      var left := env.creation == Lost || (env.creation == Unreachable && !env.deleteOk);
      && (left <==> exists d :: d in s'.domains && d.id == env.vmName)
      && (forall d: Domain :: d.id != env.vmName ==> (d in s'.domains <==> d in s.domains))
  {
    var s' := Deployed(site, s, os, env);
    if env.creation == Lost || (env.creation == Unreachable && !env.deleteOk) {
      assert s'.domains[|s'.domains| - 1] in s'.domains;
    }
  }

  predicate Disposes(layer: Layer, p: Path) { layer.disposable && layer.chain != [] && layer.chain[0] == p }

  /** p is the top layer of a disposable disk of some model called vm. */
  ghost predicate Disposable(models: seq<Model>, vm: nat, p: Path) {
    exists m :: m in models && m.id == vm && (Disposes(m.os, p) || Disposes(m.app, p))
  }

  lemma {:induction false} DisposablesAre(models: seq<Model>, vm: nat, p: Path)
    ensures p in Disposables(models, vm) <==> Disposable(models, vm, p)
  {
    if models == [] {
    } else {
      DisposablesAre(models[1..], vm, p);
      assert models == [models[0]] + models[1..] && models[0] in models;
    }
  }

  /** A shutdown that succeeds leaves no machine of that name and every other one as it was, its
      GPU free again if no other running machine holds it, and takes away exactly its disposable
      top layers. */
  lemma {:induction false} ShutdownFrees(site: Site, s: State, vm: nat)
    requires exists d :: d in s.domains && d.id == vm && d.running
    ensures var s' := Step(site, s, Shutdown(vm, true));
      && (forall d :: d in s'.domains <==> d in s.domains && d.id != vm)
      && (forall g: Gpu :: Active(g, s'.domains) <==> exists d :: d in s.domains && d.id != vm && Holds(d, g))
      && (forall p :: p in s'.files <==> p in s.files && !Disposable(s.models, vm, p))
  {
    var s' := Step(site, s, Shutdown(vm, true));
    forall d
      ensures d in s'.domains <==> d in s.domains && d.id != vm
    {
      WithoutDomainIn(s.domains, vm, d);
    }
    forall p
      ensures p in Disposables(s.models, vm) <==> Disposable(s.models, vm, p)
    {
      DisposablesAre(s.models, vm, p);
    }
  }

  /** A machine of ours holds exactly the addresses of the GPU it was launched with. */
  ghost predicate HoldOwnGpus(s: State) {
    forall m, d :: m in s.models && d in s.domains && d.id == m.id ==> d.hostdevs == m.gpu.group
  }

  lemma DeployKeepsOwnGpus(site: Site, s: State, os: Path, env: Env)
    requires HoldOwnGpus(s) && NewNames(s, env)
    ensures HoldOwnGpus(Deployed(site, s, os, env))
  {
    if Launching(site, s, os, env) {
      LaunchKeepsOwnGpus(site, s, os, env, Deployed(site, s, os, env));
    }
  }

  lemma LaunchKeepsOwnGpus(site: Site, s: State, os: Path, env: Env, s': State)
    requires HoldOwnGpus(s) && NewName(s, env.vmName) && Launching(site, s, os, env)
    requires Launches(site, s, os, env, s')
    ensures HoldOwnGpus(s')
  {
  }

  lemma StepKeepsOwnGpus(site: Site, s: State, op: Op)
    requires HoldOwnGpus(s) && Allowed(site, s, op)
    ensures HoldOwnGpus(Step(site, s, op))
  {
    match op
    case DeployBase(env) => DeployKeepsOwnGpus(site, s, site.OsImage(), env);
    case DeployVolume(id, tree, env) =>
      if Find(site.ChildDir(), tree, id).Some? {
        DeployKeepsOwnGpus(site, s, Find(site.ChildDir(), tree, id).value, env);
      }
    case Shutdown(vm, deleteOk) =>
      forall d
        ensures d in WithoutDomain(s.domains, vm) <==> d in s.domains && d.id != vm
      {
        WithoutDomainIn(s.domains, vm, d);
      }
    case Exit(vm, gone) =>
      forall d
        ensures d in WithoutDomain(s.domains, vm) <==> d in s.domains && d.id != vm
        ensures d in Halted(s.domains, vm) ==> exists e :: e in s.domains && e.id == d.id && e.hostdevs == d.hostdevs
      {
        WithoutDomainIn(s.domains, vm, d);
        HaltedIn(s.domains, vm, d);
      }
    case Foreign(dom) =>
    case Allocate(path) =>
  }

  /** Over every serial run the machines of ours hold exactly their own GPU's addresses; with
      SerialRunsAreExclusive, no two running ones have been given GPUs that share one. */
  lemma {:induction false} SerialMachinesHoldTheirGpus(site: Site, s0: State, ops: seq<Op>)
    requires s0.models == [] && OneDomainPerId(s0) && Serial(site, s0, ops)
    ensures HoldOwnGpus(Run(site, s0, ops)) && GpusApart(Run(site, s0, ops))
  {
    SerialRunsAreExclusive(site, s0, ops);
    SerialRunHoldsOwnGpus(site, s0, ops);
    var s := Run(site, s0, ops);
    forall m, k | m in s.models && k in s.models && m != k && Running(s, m) && Running(s, k)
      ensures forall a :: a in m.gpu.group ==> a !in k.gpu.group
    {
      var d :| d in s.domains && d.id == m.id && d.running;
      var e :| e in s.domains && e.id == k.id && e.running;
      assert Ours(s, d) && Ours(s, e) && !Clash(s, d, e);
    }
  }

  ghost predicate Running(s: State, m: Model) {
    exists d :: d in s.domains && d.id == m.id && d.running
  }

  /** No two running machines of ours have been given GPUs that share an address. */
  ghost predicate GpusApart(s: State) {
    forall m, k :: m in s.models && k in s.models && m != k && Running(s, m) && Running(s, k) ==>
      forall a :: a in m.gpu.group ==> a !in k.gpu.group
  }

  lemma {:induction false} SerialRunHoldsOwnGpus(site: Site, s0: State, ops: seq<Op>)
    requires s0.models == [] && Serial(site, s0, ops)
    ensures HoldOwnGpus(Run(site, s0, ops))
  {
    if ops == [] {
      assert Run(site, s0, ops) == s0;
    } else {
      var front := ops[..|ops| - 1];
      forall k | 0 <= k < |front|
        ensures Allowed(site, Run(site, s0, front[..k]), front[k])
      {
        assert front[..k] == ops[..k];
      }
      SerialRunHoldsOwnGpus(site, s0, front);
      StepKeepsOwnGpus(site, Run(site, s0, front), ops[|ops| - 1]);
    }
  }
}
