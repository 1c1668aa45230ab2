/** The daemon's operations on one host, as loops over its lists and linked volumes. */
module VirtHost {
  import opened Seqs
  import opened Overlay
  import opened Directory
  import opened Host

  datatype Listed = Listed(gpu: Gpu, active: bool)

  /** The GPUs with a sane header, each marked active when a running domain holds it. */
  ghost function Marked(gpus: seq<Gpu>, domains: seq<Domain>): seq<Listed> {
    if gpus == [] then []
    else
      var front, g := gpus[..|gpus| - 1], gpus[|gpus| - 1];
      Marked(front, domains) + if g.headerOk then [Listed(g, Active(g, domains))] else []
  }

  method HoldsAny(d: Domain, group: seq<Addr>) returns (found: bool)
    ensures found <==> exists a :: a in d.hostdevs && a in group
  {
    found := false;
    for i := 0 to |d.hostdevs|
      invariant found <==> exists a :: a in d.hostdevs[..i] && a in group
    {
      var hd := d.hostdevs[i];
      assert d.hostdevs[..i + 1] == d.hostdevs[..i] + [hd];
      for j := 0 to |group|
        invariant found <==> (exists a :: a in d.hostdevs[..i] && a in group) || hd in group[..j]
      {
        assert group[..j + 1] == group[..j] + [group[j]];
        if group[j] == hd {
          found := true;
        }
      }
      assert group[..|group|] == group;
    }
    assert d.hostdevs[..|d.hostdevs|] == d.hostdevs;
  }

  method IsActive(g: Gpu, domains: seq<Domain>) returns (active: bool)
    ensures active <==> Active(g, domains)
  {
    active := false;
    for i := 0 to |domains|
      invariant active <==> Active(g, domains[..i])
    {
      assert domains[..i + 1] == domains[..i] + [domains[i]];
      assert Active(g, domains[..i + 1]) <==> Active(g, domains[..i]) || Holds(domains[i], g);
      if domains[i].running {
        var holds := HoldsAny(domains[i], g.group);
        active := active || holds;
      }
    }
    assert domains[..|domains|] == domains;
  }

  method ListGPUs(gpus: seq<Gpu>, domains: seq<Domain>) returns (result: seq<Listed>)
    ensures result == Marked(gpus, domains)
    ensures forall g :: g in gpus && g.headerOk ==> Listed(g, Active(g, domains)) in result
    ensures forall l :: l in result ==> l.gpu in gpus && l.gpu.headerOk && (l.active <==> Active(l.gpu, domains))
  {
    result := [];
    for i := 0 to |gpus|
      invariant result == Marked(gpus[..i], domains)
      invariant forall g :: g in gpus[..i] && g.headerOk ==> Listed(g, Active(g, domains)) in result
      invariant forall l :: l in result ==> l.gpu in gpus && l.gpu.headerOk && (l.active <==> Active(l.gpu, domains))
    {
      assert gpus[..i + 1][..i] == gpus[..i];
      if gpus[i].headerOk {
        var active := IsActive(gpus[i], domains);
        result := result + [Listed(gpus[i], active)];
      }
    }
    assert gpus[..|gpus|] == gpus;
  }

  ghost function FirstInactive(listed: seq<Listed>): Option<Gpu> {
    if listed == [] then None else if listed[0].active then FirstInactive(listed[1..]) else Some(listed[0].gpu)
  }

  lemma {:induction false} FirstInactivePlus(a: seq<Listed>, b: seq<Listed>)
    ensures FirstInactive(a + b) == if FirstInactive(a).Some? then FirstInactive(a) else FirstInactive(b)
  {
    if a == [] {
      assert a + b == b;
    } else {
      assert (a + b)[1..] == a[1..] + b;
      FirstInactivePlus(a[1..], b);
    }
  }

  lemma {:induction false} MarkedHead(g: Gpu, rest: seq<Gpu>, domains: seq<Domain>)
    ensures Marked([g] + rest, domains)
         == (if g.headerOk then [Listed(g, Active(g, domains))] else []) + Marked(rest, domains)
  {
    if rest == [] {
      assert ([g] + rest)[..0] == [];
    } else {
      MarkedHead(g, rest[..|rest| - 1], domains);
      assert ([g] + rest)[..|rest|] == [g] + rest[..|rest| - 1];
    }
  }

  lemma {:induction false} FirstInactiveIsFirstFree(gpus: seq<Gpu>, domains: seq<Domain>)
    ensures FirstInactive(Marked(gpus, domains)) == FirstFree(gpus, domains)
  {
    if gpus == [] {
    } else {
      var g, rest := gpus[0], gpus[1..];
      assert gpus == [g] + rest;
      MarkedHead(g, rest, domains);
      FirstInactivePlus(if g.headerOk then [Listed(g, Active(g, domains))] else [], Marked(rest, domains));
      FirstInactiveIsFirstFree(rest, domains);
    }
  }

  /** takeGPU: the first listed GPU that is not active. */
  method TakeGPU(gpus: seq<Gpu>, domains: seq<Domain>) returns (gpu: Option<Gpu>)
    ensures gpu == FirstFree(gpus, domains)
  {
    var listed := ListGPUs(gpus, domains);
    FirstInactiveIsFirstFree(gpus, domains);
    for i := 0 to |listed|
      invariant FirstInactive(listed[i..]) == FirstFree(gpus, domains)
    {
      assert listed[i..][1..] == listed[i + 1..];
      if !listed[i].active {
        return Some(listed[i].gpu);
      }
    }
    gpu := None;
  }

  /** The claim loop of waitForGPU over the answers of the GPU query while the host's domains stay
      as they are: the first one that is an error or shows a free GPU ends it. */
  datatype Claim = Claiming | QueryFailed | Claimed(gpus: seq<Gpu>)

  ghost function ClaimOver(looks: seq<Option<seq<Gpu>>>, domains: seq<Domain>): (c: Claim)
    ensures c.Claiming? <==> forall k :: 0 <= k < |looks| ==> Goes(looks[k], domains)
    ensures c.QueryFailed? ==> exists k :: 0 <= k < |looks| && FirstStop(looks, k, domains) && looks[k].None?
    ensures c.Claimed? ==> exists k :: 0 <= k < |looks| && FirstStop(looks, k, domains) && looks[k] == Some(c.gpus)
  {
    if looks == [] then Claiming
    else if !Goes(looks[0], domains) then
      assert FirstStop(looks, 0, domains);
      if looks[0].None? then QueryFailed else Claimed(looks[0].value)
    else
      var rest := ClaimOver(looks[1..], domains);
      assert forall k :: 0 < k < |looks| ==> looks[k] == looks[1..][k - 1];
      assert forall k :: 0 <= k < |looks| - 1 && FirstStop(looks[1..], k, domains) ==> FirstStop(looks, k + 1, domains);
      rest
  }

  /** The loop goes on after a look that finds no GPU free. */
  ghost predicate Goes(look: Option<seq<Gpu>>, domains: seq<Domain>) {
    look.Some? && FirstFree(look.value, domains).None?
  }

  ghost predicate FirstStop(looks: seq<Option<seq<Gpu>>>, k: nat, domains: seq<Domain>)
    requires k < |looks|
  {
    !Goes(looks[k], domains) && forall j :: 0 <= j < k ==> Goes(looks[j], domains)
  }

  /** The result is None on a failed query, and when the observed answers run out. */
  method WaitForGPU(looks: seq<Option<seq<Gpu>>>, domains: seq<Domain>) returns (gpus: seq<Gpu>, gpu: Option<Gpu>)
    ensures gpu.Some? <==> ClaimOver(looks, domains).Claimed?
    ensures gpu.Some? ==> gpus == ClaimOver(looks, domains).gpus && gpu == FirstFree(gpus, domains)
  {
    for i := 0 to |looks|
      invariant ClaimOver(looks[i..], domains) == ClaimOver(looks, domains)
    {
      assert looks[i..][1..] == looks[i + 1..];
      if looks[i].None? {
        return [], None;
      }
      gpu := TakeGPU(looks[i].value, domains);
      if gpu.Some? {
        return looks[i].value, gpu;
      }
    }
    gpus, gpu := [], None;
  }

  /** prepareVolume on linked volumes. */
  method PrepareVolume(site: Site, disk: Disk, os: Path, env: Env) returns (volumes: Option<(Volume, Volume)>)
    modifies disk
    ensures disk.files == Prepared(site, old(disk.files), os, env).files
    ensures volumes.Some? <==> Prepared(site, old(disk.files), os, env).layers.Some?
    ensures volumes.Some? ==>
      var (v, w) := volumes.value; var layers := Prepared(site, old(disk.files), os, env).layers.value;
      && v.Valid() && w.Valid() && v.repr !! w.repr && fresh(v.repr) && fresh(w.repr)
      && layers == (Layer(v.chain, v.disposable), Layer(w.chain, w.disposable))
      && |w.chain| == 2 && (os == site.OsImage() ==> |v.chain| == 2)
  {
    var chainApp := Volume.New(p => p, [site.AppImage()]);
    assert chainApp.View(disk) == AppStack(site, disk.files);
    var ok := chainApp.PushChain(Uuid(env.appName), disk, env.pushAppOk);
    if !ok {
      return None;
    }
    var chainOs := PrepareOs(disk, os, env);
    if chainOs == null {
      var popped := chainApp.PopChain(disk);
      return None;
    }
    volumes := Some((chainOs, chainApp));
  }

  /** The OS half of prepareVolume; null when it fails, and then the disk is as before. */
  method PrepareOs(disk: Disk, os: Path, env: Env) returns (chainOs: Volume?)
    modifies disk
    ensures chainOs != null ==> chainOs.Valid() && fresh(chainOs.repr) && !chainOs.disposable
    ensures env.info.NoInfo? ==> chainOs == null && disk.files == old(disk.files)
    ensures env.info.Info? && env.info.backing.Some? ==>
      chainOs != null && chainOs.chain == [os, env.info.backing.value] && disk.files == old(disk.files)
    ensures env.info.Info? && env.info.backing.None? ==>
      var s := Stack([os], false, old(disk.files));
      && (chainOs != null <==> PushSucceeds(s, env.pushOsOk))
      && disk.files == Pushed(s, Uuid(env.osName), env.pushOsOk).files
      && (chainOs != null ==> chainOs.chain == Pushed(s, Uuid(env.osName), env.pushOsOk).chain)
  {
    match env.info
    case NoInfo => chainOs := null;
    case Info(Some(backing)) =>
      chainOs := Volume.New(p => p, [os, backing]);
      chainOs.disposable := false;
      assert chainOs.chain == [os, backing];
    case Info(None) =>
      chainOs := Volume.New(p => p, [os]);
      chainOs.disposable := false;
      assert chainOs.View(disk) == Stack([os], false, disk.files);
      var ok := chainOs.PushChain(Uuid(env.osName), disk, env.pushOsOk);
      if !ok {
        chainOs := null;
      }
  }

  /** The listed ids that are not in use, in order. */
  method OfferVolumes(vols: seq<Name>, inUse: set<Name>) returns (available: seq<Name>)
    ensures available == Keep(vols, (set v | v in vols) - inUse)
    ensures forall id :: id in available <==> id in vols && id !in inUse
  {
    available := [];
    ghost var keep := (set v | v in vols) - inUse;
    for i := 0 to |vols|
      invariant available == Keep(vols[..i], keep)
    {
      assert vols[..i + 1] == vols[..i] + [vols[i]];
      KeepSnoc(vols[..i], vols[i], keep);
      assert vols[i] in vols;
      var found := vols[i] in inUse;
      if !found {
        available := available + [vols[i]];
      }
    }
    assert vols[..|vols|] == vols;
    forall id ensures id in available <==> id in vols && id in keep { KeepIn(vols, keep, id); }
  }

  /** Product names of the free GPUs. */
  method FreeProducts(gpus: seq<Gpu>, domains: seq<Domain>) returns (products: seq<string>)
    ensures forall p :: p in products <==> exists g :: g in gpus && Free(g, domains) && g.product == p
  {
    var listed := ListGPUs(gpus, domains);
    products := [];
    for i := 0 to |listed|
      invariant forall p :: p in products <==> exists l :: l in listed[..i] && !l.active && l.gpu.product == p
    {
      assert listed[..i + 1] == listed[..i] + [listed[i]];
      if !listed[i].active {
        products := products + [listed[i].gpu.product];
      }
    }
    assert listed[..|listed|] == listed;
    forall p
      ensures p in products <==> exists g :: g in gpus && Free(g, domains) && g.product == p
    {
      if g :| g in gpus && Free(g, domains) && g.product == p {
        assert Listed(g, false) in listed;
      }
      if l :| l in listed && !l.active && l.gpu.product == p {
        assert Free(l.gpu, domains);
      }
    }
  }

  /** The VM part of a session: its address and the volume it shows. */
  datatype VmInfo = VmInfo(ip: Option<string>, volumes: seq<Name>)

  /** The domain an address leads to: the last listed one that answers with it. */
  function NameOf(domains: seq<Domain>, ipOf: nat -> Option<string>, ip: string): Option<nat> {
    if domains == [] then None
    else
      var last := domains[|domains| - 1];
      if ipOf(last.id) == Some(ip) then Some(last.id) else NameOf(domains[..|domains| - 1], ipOf, ip)
  }

  /** The OS volume of the last launch request called `id`. */
  function TopOf(models: seq<Model>, id: nat): Option<Name> {
    if models == [] then None
    else
      var last := models[|models| - 1];
      if last.id == id && last.os.chain != [] then Some(last.os.chain[0].name) else TopOf(models[..|models| - 1], id)
  }

  lemma {:induction false} TopOfIs(models: seq<Model>, id: nat)
    ensures TopOf(models, id).Some? ==>
      exists m :: m in models && m.id == id && m.os.chain != [] && m.os.chain[0].name == TopOf(models, id).value
    ensures TopOf(models, id).None? ==> forall m :: m in models && m.id == id ==> m.os.chain == []
  {
    if models == [] {
    } else {
      var front, last := models[..|models| - 1], models[|models| - 1];
      TopOfIs(front, id);
      assert models == front + [last];
      if last.id == id && last.os.chain != [] {
        assert last in models;
      } else if TopOf(front, id).Some? {
        var m :| m in front && m.id == id && m.os.chain != [] && m.os.chain[0].name == TopOf(front, id).value;
        assert m in models;
      }
    }
  }

  /** What a query makes of one session's VM: if its address leads to a machine of ours it shows
      that machine's OS volume, otherwise it stays as it is. */
  function Refreshed(
      models: seq<Model>, domains: seq<Domain>, ipOf: nat -> Option<string>, ss: Option<VmInfo>): Option<VmInfo> {
    if ss.None? || ss.value.ip.None? then ss
    else
      var name := NameOf(domains, ipOf, ss.value.ip.value);
      if name.None? || TopOf(models, name.value).None? then ss
      else Some(ss.value.(volumes := [TopOf(models, name.value).value]))
  }

  lemma {:induction false} NameOfIsListed(domains: seq<Domain>, ipOf: nat -> Option<string>, ip: string)
    ensures NameOf(domains, ipOf, ip).Some? ==> exists d :: d in domains && d.id == NameOf(domains, ipOf, ip).value
  {
    if domains == [] {
    } else {
      var front, last := domains[..|domains| - 1], domains[|domains| - 1];
      NameOfIsListed(front, ipOf, ip);
      assert domains == front + [last] && last in domains;
    }
  }

  lemma {:induction false} NameOfOnly(domains: seq<Domain>, ipOf: nat -> Option<string>, ip: string, d: Domain)
    requires d in domains && ipOf(d.id) == Some(ip)
    requires forall e :: e in domains && ipOf(e.id) == Some(ip) ==> e.id == d.id
    ensures NameOf(domains, ipOf, ip) == Some(d.id)
  {
    var front, last := domains[..|domains| - 1], domains[|domains| - 1];
    assert domains == front + [last];
    if ipOf(last.id) != Some(ip) {
      NameOfOnly(front, ipOf, ip, d);
    } else {
      assert last in domains;
    }
  }

  /** After a query a session whose address only its own machine answers shows the OS volume that
      machine writes to. */
  lemma {:induction false} SessionShowsItsVolume(
      site: Site, s: State, ipOf: nat -> Option<string>, vm: VmInfo, m: Model, d: Domain)
    requires VolumesExclusive(site, s) && m in s.models && d in s.domains && d.id == m.id
    requires vm.ip.Some? && ipOf(d.id) == vm.ip && forall e :: e in s.domains && ipOf(e.id) == vm.ip ==> e.id == d.id
    ensures m.os.chain != []
    ensures Refreshed(s.models, s.domains, ipOf, Some(vm)) == Some(vm.(volumes := [m.os.chain[0].name]))
  {
    assert Placed(site, m);
    NameOfOnly(s.domains, ipOf, vm.ip.value, d);
    TopOfIs(s.models, m.id);
  }

  ghost predicate AnswersAt(d: Domain, ipOf: nat -> Option<string>, ip: string) {
    d.running && ipOf(d.id) == Some(ip)
  }

  ghost predicate FirstAnswer(domains: seq<Domain>, k: nat, ipOf: nat -> Option<string>, ip: string)
    requires k < |domains|
  {
    AnswersAt(domains[k], ipOf, ip) && forall j :: 0 <= j < k ==> !AnswersAt(domains[j], ipOf, ip)
  }

  /** The first running domain that answers with the address. */
  function RunningAt(domains: seq<Domain>, ipOf: nat -> Option<string>, ip: string): (vm: Option<nat>)
    ensures vm.Some? ==>
      exists k :: 0 <= k < |domains| && domains[k].id == vm.value && FirstAnswer(domains, k, ipOf, ip)
    ensures vm.None? <==> forall d :: d in domains ==> !AnswersAt(d, ipOf, ip)
  {
    if domains == [] then None
    else if domains[0].running && ipOf(domains[0].id) == Some(ip) then Some(domains[0].id)
    else RunningAt(domains[1..], ipOf, ip)
  }

  lemma MapIsInUse(site: Site, s: State, volumemap: map<nat, Name>)
    requires VolumesExclusive(site, s)
    requires forall id :: id in volumemap <==> TopOf(s.models, id).Some? && exists d :: d in s.domains && d.id == id
    requires forall id :: id in volumemap ==> TopOf(s.models, id) == Some(volumemap[id])
    ensures (set id | id in volumemap :: volumemap[id]) == InUse(s)
  {
    forall m | m in s.models && Live(s, m)
      ensures m.id in volumemap && volumemap[m.id] == m.os.chain[0].name
    {
      assert Placed(site, m);
      TopOfIs(s.models, m.id);
    }
    forall id | id in volumemap
      ensures volumemap[id] in InUse(s)
    {
      TopOfIs(s.models, id);
      var m :| m in s.models && m.id == id && m.os.chain != [] && m.os.chain[0].name == volumemap[id];
      assert Live(s, m);
    }
  }

  function Groups(gpus: seq<Gpu>): (r: seq<seq<Addr>>)
    ensures |r| == |gpus| && forall k :: 0 <= k < |r| ==> r[k] == gpus[k].group
  {
    seq(|gpus|, k requires 0 <= k < |gpus| => gpus[k].group)
  }

  datatype Placement = Local(up: bool) | OnNode(node: nat) | Nowhere

  predicate Offers(node: Option<seq<Name>>, id: Name) { node.Some? && id in node.value }

  class VirtDaemon {
    const site: Site
    const disk: Disk
    var models: seq<Model>
    var domains: seq<Domain>
    var volumes: seq<Name>
    var freeGpus: seq<string>
    var sessions: seq<Option<VmInfo>>

    ghost function View(): State
      reads this, disk
    {
      State(disk.files, models, domains)
    }

    constructor (site: Site, disk: Disk, domains: seq<Domain>)
      ensures this.site == site && this.disk == disk && View() == State(disk.files, [], domains)
      ensures volumes == [] && freeGpus == [] && sessions == []
    {
      this.site, this.disk, this.models, this.domains := site, disk, [], domains;
      this.volumes, this.freeGpus, this.sessions := [], [], [];
    }

    /** The inner loop: one machine against every launch request. */
    method RecordVolume(volumemap: map<nat, Name>, vm: nat) returns (recorded: map<nat, Name>)
      ensures recorded == if TopOf(models, vm).Some? then volumemap[vm := TopOf(models, vm).value] else volumemap
    {
      recorded := volumemap;
      for j := 0 to |models|
        invariant var top := TopOf(models[..j], vm);
          recorded == if top.Some? then volumemap[vm := top.value] else volumemap
      {
        assert models[..j + 1][..j] == models[..j];
        var chain := models[j].os.chain;
        if models[j].id == vm && chain != [] {
          recorded := recorded[vm := chain[0].name];
        }
      }
      assert models[..|models|] == models;
    }

    /** Which listed machine was launched with which OS volume. */
    method VolumeMap() returns (volumemap: map<nat, Name>)
      requires VolumesExclusive(site, View())
      ensures forall id :: id in volumemap <==> TopOf(models, id).Some? && exists d :: d in domains && d.id == id
      ensures forall id :: id in volumemap ==> TopOf(models, id) == Some(volumemap[id])
      ensures (set id | id in volumemap :: volumemap[id]) == InUse(View())
    {
      volumemap := map[];
      for i := 0 to |domains|
        invariant forall id ::
          id in volumemap <==> TopOf(models, id).Some? && exists d :: d in domains[..i] && d.id == id
        invariant forall id :: id in volumemap ==> TopOf(models, id) == Some(volumemap[id])
      {
        assert domains[..i + 1] == domains[..i] + [domains[i]];
        volumemap := RecordVolume(volumemap, domains[i].id);
      }
      assert domains[..|domains|] == domains;
      MapIsInUse(site, View(), volumemap);
    }

    /** Addresses of the listed machines. */
    method AddressMap(ipOf: nat -> Option<string>) returns (ipmap: map<string, nat>)
      ensures forall ip :: ip in ipmap <==> NameOf(domains, ipOf, ip).Some?
      ensures forall ip :: ip in ipmap ==> NameOf(domains, ipOf, ip) == Some(ipmap[ip])
    {
      ipmap := map[];
      for i := 0 to |domains|
        invariant forall ip :: ip in ipmap <==> NameOf(domains[..i], ipOf, ip).Some?
        invariant forall ip :: ip in ipmap ==> NameOf(domains[..i], ipOf, ip) == Some(ipmap[ip])
      {
        assert domains[..i + 1][..i] == domains[..i];
        var ip := ipOf(domains[i].id);
        if ip.Some? {
          ipmap := ipmap[ip.value := domains[i].id];
        }
      }
      assert domains[..|domains|] == domains;
    }

    /** What the query shows for one session. */
    method Refresh(
        ipmap: map<string, nat>, volumemap: map<nat, Name>, ss: Option<VmInfo>, ghost ipOf: nat -> Option<string>)
        returns (after: Option<VmInfo>)
      requires forall ip :: ip in ipmap <==> NameOf(domains, ipOf, ip).Some?
      requires forall ip :: ip in ipmap ==> NameOf(domains, ipOf, ip) == Some(ipmap[ip])
      requires forall id :: id in volumemap <==> TopOf(models, id).Some? && exists d :: d in domains && d.id == id
      requires forall id :: id in volumemap ==> TopOf(models, id) == Some(volumemap[id])
      ensures after == Refreshed(models, domains, ipOf, ss)
    {
      after := ss;
      if ss.Some? && ss.value.ip.Some? && ss.value.ip.value in ipmap {
        var name := ipmap[ss.value.ip.value];
        NameOfIsListed(domains, ipOf, ss.value.ip.value);
        if name in volumemap {
          after := Some(ss.value.(volumes := [volumemap[name]]));
        }
      }
    }

    /** queryLocal. On success the offered volumes are exactly the listed ids, in order, that are
        not the OS top layer of a live machine, and every session shows its machine's volume. On a
        failure of any of the three queries nothing changes. */
    method QueryLocal(vmsOk: bool, gpus: Option<seq<Gpu>>, tree: Dir, ipOf: nat -> Option<string>) returns (ok: bool)
      requires VolumesExclusive(site, View())
      modifies this`volumes, this`freeGpus, this`sessions
      ensures ok <==> vmsOk && gpus.Some? && Listing(tree).Some?
      ensures ok ==> volumes == Keep(Listing(tree).value, (set v | v in Listing(tree).value) - InUse(View()))
      ensures ok ==> forall id :: id in volumes <==> Available(View(), tree, id)
      ensures ok ==> forall p :: p in freeGpus <==> exists g :: g in gpus.value && Free(g, domains) && g.product == p
      ensures ok ==> |sessions| == |old(sessions)|
      ensures ok ==> forall k :: 0 <= k < |sessions| ==>
        sessions[k] == Refreshed(models, domains, ipOf, old(sessions[k]))
      ensures !ok ==> volumes == old(volumes) && freeGpus == old(freeGpus) && sessions == old(sessions)
    {
      if !vmsOk || gpus.None? {
        return false;
      }
      var ipmap := AddressMap(ipOf);
      var volumemap := VolumeMap();
      var vols := ListVolumesInDir(tree);
      if vols.None? {
        return false;
      }
      var inUse := set id | id in volumemap :: volumemap[id];
      assert inUse == InUse(View());
      var available := OfferVolumes(vols.value, inUse);
      var products := FreeProducts(gpus.value, domains);
      volumes, freeGpus, ok := available, products, true;
      RefreshAll(ipmap, volumemap, ipOf);
    }

    method RefreshAll(ipmap: map<string, nat>, volumemap: map<nat, Name>, ghost ipOf: nat -> Option<string>)
      requires forall ip :: ip in ipmap <==> NameOf(domains, ipOf, ip).Some?
      requires forall ip :: ip in ipmap ==> NameOf(domains, ipOf, ip) == Some(ipmap[ip])
      requires forall id :: id in volumemap <==> TopOf(models, id).Some? && exists d :: d in domains && d.id == id
      requires forall id :: id in volumemap ==> TopOf(models, id) == Some(volumemap[id])
      modifies this`sessions
      ensures |sessions| == |old(sessions)|
      ensures forall k :: 0 <= k < |sessions| ==> sessions[k] == Refreshed(models, domains, ipOf, old(sessions[k]))
    {
      for i := 0 to |sessions|
        invariant |sessions| == |old(sessions)|
        invariant forall k :: 0 <= k < i ==> sessions[k] == Refreshed(models, domains, ipOf, old(sessions[k]))
        invariant forall k :: i <= k < |sessions| ==> sessions[k] == old(sessions[k])
      {
        var after := Refresh(ipmap, volumemap, sessions[i], ipOf);
        sessions := sessions[i := after];
      }
    }

    /** The deployment's environment once the claim loop has ended. */
    ghost function Granted(looks: seq<Option<seq<Gpu>>>, env: Env): Env
      reads this
    {
      var claim := ClaimOver(looks, domains);
      env.(gpus := if claim.Claimed? then claim.gpus else [])
    }

    /** DeployVM from the claim loop to the machine being up, or to the clean-up. Without a claim,
        because the query failed or no GPU has become free yet, nothing changes. */
    method DeployVM(os: Path, looks: seq<Option<seq<Gpu>>>, env: Env) returns (up: bool)
      modifies this`models, this`domains, disk
      ensures View() == Deployed(site, old(View()), os, old(Granted(looks, env)))
      ensures !old(ClaimOver(looks, domains)).Claimed? ==> !up && View() == old(View())
      ensures up ==>
        var gpus := old(Granted(looks, env)).gpus;
        var gpu := FirstFree(gpus, old(domains));
        gpu.Some? && exists d :: d in domains && d.id == env.vmName && HoldsAll(d, gpu.value)
    {
      var gpus, gpu := WaitForGPU(looks, domains);
      var granted := env.(gpus := gpus);
      if gpu.None? || !env.ifaceOk {
        return false;
      }
      var prepared := PrepareVolume(site, disk, os, granted);
      if prepared.None? {
        return false;
      }
      var (chainOs, chainApp) := prepared.value;
      up := Launch(os, chainOs, chainApp, gpu.value, granted);
    }

    /** CreateVM's loop over the GPUs and the addresses of their groups. */
    method CreateVM(vm: nat, gpus: seq<Gpu>) returns (dom: Domain)
      ensures dom.id == vm && dom.running
      ensures dom.hostdevs == Concat(Groups(gpus))
      ensures forall g, a :: g in gpus && a in g.group ==> a in dom.hostdevs
    {
      var hostdevs: seq<Addr> := [];
      for i := 0 to |gpus|
        invariant hostdevs == Concat(Groups(gpus[..i]))
        invariant forall g, a :: g in gpus[..i] && a in g.group ==> a in hostdevs
      {
        assert Groups(gpus[..i + 1]) == Groups(gpus[..i]) + [gpus[i].group];
        ConcatSnoc(Groups(gpus[..i]), gpus[i].group);
        ghost var before := hostdevs;
        for j := 0 to |gpus[i].group|
          invariant hostdevs == before + gpus[i].group[..j]
        {
          hostdevs := hostdevs + [gpus[i].group[j]];
        }
        assert gpus[i].group[..|gpus[i].group|] == gpus[i].group;
        assert gpus[..i + 1] == gpus[..i] + [gpus[i]];
      }
      assert gpus[..|gpus|] == gpus;
      dom := Domain(vm, true, hostdevs);
    }

    method Launch(os: Path, v: Volume, w: Volume, gpu: Gpu, env: Env) returns (up: bool)
      requires v.Valid() && w.Valid() && v.repr !! w.repr
      requires (v.disposable || os == site.OsImage()) ==> |v.chain| >= 2
      requires |w.chain| >= 2
      modifies this`models, this`domains, disk, v, w
      ensures View() == Launched(site, old(View()), os,
        (Layer(old(v.chain), old(v.disposable)), Layer(old(w.chain), old(w.disposable))), gpu, env)
      ensures up <==> env.creation == Up
      ensures up ==> exists d :: d in domains && d.id == env.vmName && HoldsAll(d, gpu)
    {
      var osLayer := Layer(StoreFiles(BackingChain(v)), v.disposable);
      var appLayer := Layer(StoreFiles(BackingChain(w)), w.disposable);
      models := models + [Model(env.vmName, osLayer, appLayer, gpu)];
      var dom := CreateVM(env.vmName, [gpu]);
      assert Groups([gpu]) == [] + [gpu.group];
      ConcatSnoc([], gpu.group);
      assert dom.hostdevs == gpu.group;
      up := env.creation == Up;
      if up || env.creation == Lost || (env.creation == Unreachable && !env.deleteOk) {
        domains := domains + [dom];
        assert domains[|domains| - 1] == dom;
      }
      if !up {
        Dispose(os, v, w);
      }
    }

    method Dispose(os: Path, v: Volume, w: Volume)
      requires v.Valid() && w.Valid() && v.repr !! w.repr
      requires (v.disposable || os == site.OsImage()) ==> |v.chain| >= 2
      requires |w.chain| >= 2
      modifies disk, v, w
      ensures disk.files == Disposed(site, old(disk.files), os,
        (Layer(old(v.chain), old(v.disposable)), Layer(old(w.chain), old(w.disposable))))
    {
      assert w.Valid() && w !in v.repr;
      if v.disposable || os == site.OsImage() {
        var popped := v.PopChain(disk);
      }
      assert w.Valid();
      if w.disposable || os == site.OsImage() {
        var popped := w.PopChain(disk);
      }
    }

    /** DeployVMwithVolume: here when the last query offered the volume, else on the first node
        that answers and offers it. A node entry is None when its cache reports an error. */
    method DeployVMwithVolume(
        id: Name, tree: Dir, looks: seq<Option<seq<Gpu>>>, env: Env, nodes: seq<Option<seq<Name>>>)
        returns (where: Placement)
      modifies this`models, this`domains, disk
      ensures id in volumes ==>
        where.Local? && View() == Step(site, old(View()), DeployVolume(id, tree, old(Granted(looks, env))))
      ensures id !in volumes ==> View() == old(View()) && !where.Local?
      ensures where.OnNode? ==> where.node < |nodes| && Offers(nodes[where.node], id)
      ensures where.OnNode? ==> forall k :: 0 <= k < where.node && k < |nodes| ==> !Offers(nodes[k], id)
      ensures where.Nowhere? ==> forall k :: 0 <= k < |nodes| ==> !Offers(nodes[k], id)
    {
      if id in volumes {
        var os := FindVolumesInDir(site.ChildDir(), tree, id);
        if os.None? {
          return Local(false);
        }
        var up := DeployVM(os.value, looks, env);
        return Local(up);
      }
      for n := 0 to |nodes|
        invariant View() == old(View())
        invariant forall k :: 0 <= k < n ==> !Offers(nodes[k], id)
      {
        if nodes[n].Some? && id in nodes[n].value {
          return OnNode(n);
        }
      }
      where := Nowhere;
    }

    /** The first running machine that answers with the caller's address is removed; an error when
        the machines cannot be listed or none does. */
    method ShutdownVM(listOk: bool, ip: Option<string>, ipOf: nat -> Option<string>, deleteOk: bool) returns (err: bool)
      modifies this`domains, disk
      ensures err <==> !listOk || ip.None? || RunningAt(old(domains), ipOf, ip.value).None?
      ensures err ==> View() == old(View())
      ensures !err ==>
        View() == Step(site, old(View()), Shutdown(RunningAt(old(domains), ipOf, ip.value).value, deleteOk))
    {
      if !listOk || ip.None? {
        return true;
      }
      for i := 0 to |domains|
        invariant View() == old(View())
        invariant RunningAt(domains[i..], ipOf, ip.value) == RunningAt(domains, ipOf, ip.value)
      {
        assert domains[i..][1..] == domains[i + 1..];
        if domains[i].running && ipOf(domains[i].id) == ip {
          RemoveVM(domains[i].id, deleteOk);
          return false;
        }
      }
      err := true;
    }

    method RemoveVM(vm: nat, deleteOk: bool)
      requires exists d :: d in domains && d.id == vm && d.running
      modifies this`domains, disk
      ensures View() == Step(site, old(View()), Shutdown(vm, deleteOk))
    {
      if deleteOk {
        domains := WithoutDomain(domains, vm);
      }
      ghost var removed: set<Path> := {};
      ghost var remaining := domains;
      for i := 0 to |models|
        invariant domains == remaining
        invariant disk.files == old(disk.files) - removed
        invariant removed + Disposables(models[i..], vm) == Disposables(models, vm)
      {
        assert models[i..][1..] == models[i + 1..];
        var m := models[i];
        if m.id == vm {
          if m.os.disposable && m.os.chain != [] {
            var ok := disk.Remove(m.os.chain[0]);
            removed := removed + {m.os.chain[0]};
          }
          if m.app.disposable && m.app.chain != [] {
            var ok := disk.Remove(m.app.chain[0]);
            removed := removed + {m.app.chain[0]};
          }
        }
      }
      assert models[|models|..] == [];
      assert removed == Disposables(models, vm);
    }
  }
}
