/** Overlay chains: a disk image and the images it is backed by, as linked objects. */
module Overlay {
  import opened Seqs

  /** The part of an image's file name before ".qcow2". */
  datatype Name = Uuid(n: nat) | Plain(text: string)

  /** dir/name.qcow2 */
  datatype Path = Path(dir: seq<string>, name: Name)

  // ---------------------------------------------------------------- specification

  /** A volume's images, topmost first, together with the files on disk. */
  datatype Stack = Stack(chain: seq<Path>, disposable: bool, files: set<Path>)

  /** Overlays go to a directory beside the image they are backed by. */
  function OverlayPath(top: Path, disposable: bool, id: Name): Path {
    Path(top.dir + [if disposable then "temp" else "child"], id)
  }

  /** A push fails when the top image is missing or qemu-img fails, and then changes nothing. */
  predicate PushSucceeds(s: Stack, qemuOk: bool)
    requires s.chain != []
  {
    s.chain[0] in s.files && qemuOk
  }

  function Pushed(s: Stack, id: Name, qemuOk: bool): Stack
    requires s.chain != []
  {
    var path := OverlayPath(s.chain[0], s.disposable, id);
    if PushSucceeds(s, qemuOk) then s.(chain := [path] + s.chain, files := s.files + {path}) else s
  }

  function Popped(s: Stack): Stack
    requires s.chain != []
  {
    s.(chain := s.chain[1..], files := s.files - {s.chain[0]})
  }

  /** Bottommost image first. */
  function Reversed(chain: seq<Path>): seq<Path> {
    if chain == [] then [] else Reversed(chain[1..]) + [chain[0]]
  }

  lemma {:induction false} ReversedAt(chain: seq<Path>, k: nat)
    requires k < |chain|
    ensures |Reversed(chain)| == |chain| && Reversed(chain)[k] == chain[|chain| - 1 - k]
  {
    if |chain| > 1 {
      ReversedAt(chain[1..], if k < |chain| - 1 then k else 0);
    }
  }

  /** Popping undoes a successful push (images and files) if and only if the overlay's file did
      not exist before: a reused id would overwrite and then delete somebody's image. */
  lemma {:induction false} PopUndoesPush(s: Stack, id: Name)
    requires s.chain != [] && PushSucceeds(s, true)
    ensures var s' := Pushed(s, id, true);
      && Reversed(s'.chain) == Reversed(s.chain) + [OverlayPath(s.chain[0], s.disposable, id)]
      && (Popped(s') == s <==> OverlayPath(s.chain[0], s.disposable, id) !in s.files)
  {
    var path := OverlayPath(s.chain[0], s.disposable, id);
    var s' := Pushed(s, id, true);
    assert s'.chain[1..] == s.chain;
    if path !in s.files {
      assert s'.files - {path} == s.files;
    } else {
      assert path !in Popped(s').files;
    }
  }

  datatype Op = Push(id: Name, qemuOk: bool) | Pop

  /** A balanced sequence: every pop answers an earlier successful push, every successful push
      is answered, and overlays get names that are not on disk. */
  ghost predicate Balanced(s: Stack, pushed: nat, ops: seq<Op>)
    requires |s.chain| > pushed
    decreases |ops|
  {
    if ops == [] then pushed == 0
    else match ops[0]
      case Push(id, qemuOk) =>
        if PushSucceeds(s, qemuOk) then
          && OverlayPath(s.chain[0], s.disposable, id) !in s.files
          && Balanced(Pushed(s, id, qemuOk), pushed + 1, ops[1..])
        else Balanced(s, pushed, ops[1..])
      case Pop => pushed > 0 && Balanced(Popped(s), pushed - 1, ops[1..])
  }

  ghost function Exec(s: Stack, pushed: nat, ops: seq<Op>): Stack
    requires |s.chain| > pushed && Balanced(s, pushed, ops)
    decreases |ops|
  {
    if ops == [] then s
    else match ops[0]
      case Push(id, qemuOk) =>
        Exec(Pushed(s, id, qemuOk), if PushSucceeds(s, qemuOk) then pushed + 1 else pushed, ops[1..])
      case Pop => Exec(Popped(s), pushed - 1, ops[1..])
  }

  /** s is base with the overlays `extra` on top, none of which was on disk before. */
  ghost predicate Above(s: Stack, extra: seq<Path>, base: Stack) {
    && s.chain == extra + base.chain && s.disposable == base.disposable
    && NoDup(extra)
    && (forall p :: p in extra ==> p !in base.files)
    && s.files == base.files + (set p | p in extra)
  }

  lemma PushedAbove(s: Stack, extra: seq<Path>, base: Stack, id: Name)
    requires Above(s, extra, base) && base.chain != [] && PushSucceeds(s, true)
    requires OverlayPath(s.chain[0], s.disposable, id) !in s.files
    ensures Above(Pushed(s, id, true), [OverlayPath(s.chain[0], s.disposable, id)] + extra, base)
  {
  }

  lemma PoppedAbove(s: Stack, extra: seq<Path>, base: Stack)
    requires Above(s, extra, base) && extra != []
    ensures Above(Popped(s), extra[1..], base)
  {
    assert extra == [extra[0]] + extra[1..];
    assert extra[0] !in extra[1..];
    assert Popped(s).chain == extra[1..] + base.chain;
  }

  lemma {:induction false} ExecReturnsToBase(s: Stack, extra: seq<Path>, base: Stack, ops: seq<Op>)
    requires base.chain != [] && Above(s, extra, base) && Balanced(s, |extra|, ops)
    ensures Exec(s, |extra|, ops) == base
    decreases |ops|
  {
    if ops == [] {
      assert extra == [] && s.chain == base.chain && s.files == base.files;
    } else {
      match ops[0]
      case Push(id, qemuOk) =>
        if PushSucceeds(s, qemuOk) {
          PushedAbove(s, extra, base, id);
          ExecReturnsToBase(Pushed(s, id, qemuOk), [OverlayPath(s.chain[0], s.disposable, id)] + extra, base, ops[1..]);
        } else {
          ExecReturnsToBase(s, extra, base, ops[1..]);
        }
      case Pop =>
        PoppedAbove(s, extra, base);
        ExecReturnsToBase(Popped(s), extra[1..], base, ops[1..]);
    }
  }

  /** Any balanced sequence of pushes and pops, failing pushes included, is the identity on the
      images and on the disk. */
  lemma BalancedIsIdentity(s: Stack, ops: seq<Op>)
    requires s.chain != [] && Balanced(s, 0, ops)
    ensures Exec(s, 0, ops) == s
  {
    assert Above(s, [], s);
    ExecReturnsToBase(s, [], s, ops);
  }

  // ---------------------------------------------------------------- linked objects

  class Disk {
    var files: set<Path>

    constructor (files: set<Path>)
      ensures this.files == files
    {
      this.files := files;
    }

    /** os.Remove */
    method Remove(path: Path) returns (ok: bool)
      modifies this
      ensures ok <==> path in old(files)
      ensures files == old(files) - {path}
    {
      ok := path in files;
      files := files - {path};
    }
  }

  /** The libvirt description of the images behind a disk. */
  datatype BackingStore = NoStore | Store(file: Path, backing: BackingStore)

  function StoreFiles(store: BackingStore): seq<Path> {
    if store.NoStore? then [] else [store.file] + StoreFiles(store.backing)
  }

  class Volume {
    var disposable: bool
    var path: Path
    var backing: Volume?
    ghost var chain: seq<Path>
    ghost var repr: set<Volume>

    /** The links form a finite list, and `chain` is its contents. */
    ghost predicate Valid()
      reads this, repr
      decreases repr
    {
      && this in repr
      && chain != [] && chain[0] == path
      && (backing == null ==> chain == [path])
      && (backing != null ==>
            && backing in repr && backing.repr <= repr && this !in backing.repr
            && chain[1..] == backing.chain
            && backing.Valid())
    }

    ghost function View(disk: Disk): Stack
      reads this, disk
    {
      Stack(chain, disposable, disk.files)
    }

    constructor Init(path: Path, backing: Volume?, disposable: bool)
      requires backing != null ==> backing.Valid()
      ensures Valid() && this.disposable == disposable && this.path == path && this.backing == backing
      ensures chain == [path] + if backing == null then [] else backing.chain
      ensures repr == {this} + if backing == null then {} else backing.repr
    {
      this.path, this.backing, this.disposable := path, backing, disposable;
      this.chain := [path] + if backing == null then [] else backing.chain;
      this.repr := {this} + if backing == null then {} else backing.repr;
    }

    /** NewVolume for at least one path. `abs` makes a path absolute. */
    static method New(abs: Path -> Path, paths: seq<Path>) returns (v: Volume)
      requires paths != []
      ensures v.Valid() && fresh(v.repr) && v.disposable
      ensures |v.chain| == |paths| && forall k :: 0 <= k < |paths| ==> v.chain[k] == abs(paths[k])
    {
      var child: Volume? := null;
      if |paths| > 1 {
        child := New(abs, paths[1..]);
      }
      v := new Volume.Init(abs(paths[0]), child, true);
    }

    /** PushChainID; PushChain is the same with a new uuid as id. */
    method PushChain(id: Name, disk: Disk, qemuOk: bool) returns (ok: bool)
      requires Valid()
      modifies this, disk
      ensures Valid() && fresh(repr - old(repr))
      ensures ok <==> PushSucceeds(old(View(disk)), qemuOk)
      ensures ok <==> old(path) in old(disk.files) && qemuOk
      ensures ok ==> chain == [path] + old(chain) && path.name == id && disk.files == old(disk.files) + {path}
      ensures !ok ==> chain == old(chain) && disk.files == old(disk.files)
      ensures View(disk) == Pushed(old(View(disk)), id, qemuOk)
    {
      if path !in disk.files {
        return false;
      }
      var overlay := OverlayPath(path, disposable, id);
      if !qemuOk {
        return false;
      }
      disk.files := disk.files + {overlay};
      var copy := new Volume.Init(path, backing, disposable);
      ghost var before := chain;
      assert copy.chain == before;
      path, backing := overlay, copy;
      chain := [overlay] + before;
      repr := {this} + copy.repr;
      ok := true;
    }

    method PopChain(disk: Disk) returns (ok: bool)
      requires Valid() && backing != null
      modifies this, disk
      ensures Valid() && repr <= old(repr)
      ensures View(disk) == Popped(old(View(disk)))
      ensures chain == old(chain)[1..] && disk.files == old(disk.files) - {old(path)}
      ensures ok <==> old(path) in old(disk.files)
    {
      var current := path;
      assert chain[1..] == backing.chain;
      var next := backing.backing;
      assert next != null ==> next.Valid() && next in next.repr && this !in next.repr;
      path, chain, backing := backing.path, backing.chain, next;
      repr := {this} + if next == null then {} else next.repr;
      ok := disk.Remove(current);
    }
  }

  /** Bottommost file first. */
  function AllFiles(v: Volume?): (files: seq<Path>)
    requires v != null ==> v.Valid()
    reads if v == null then {} else v.repr
    ensures files == if v == null then [] else Reversed(v.chain)
    decreases if v == null then {} else v.repr
  {
    if v == null then []
    else
      assert v.backing == null ==> v.chain[1..] == [];
      AllFiles(v.backing) + [v.path]
  }

  function BackingChain(v: Volume?): (store: BackingStore)
    requires v != null ==> v.Valid()
    reads if v == null then {} else v.repr
    ensures StoreFiles(store) == if v == null then [] else v.chain
    decreases if v == null then {} else v.repr
  {
    if v == null then NoStore
    else
      assert v.backing == null ==> v.chain[1..] == [];
      assert v.chain == [v.path] + v.chain[1..];
      Store(v.path, BackingChain(v.backing))
  }

  /** The libvirt description lists a volume's images in the opposite order of AllFiles. */
  lemma BackingChainIsReversedAllFiles(v: Volume, k: nat)
    requires v.Valid() && k < |v.chain|
    ensures |AllFiles(v)| == |StoreFiles(BackingChain(v))| == |v.chain|
    ensures StoreFiles(BackingChain(v))[k] == AllFiles(v)[|v.chain| - 1 - k]
  {
    var chain := v.chain;
    assert AllFiles(v) == Reversed(chain);
    assert StoreFiles(BackingChain(v)) == chain;
    ReversedAt(chain, |chain| - 1 - k);
  }
}
