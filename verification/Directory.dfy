/** The recursive searches for volumes below the child directory. */
module Directory {
  import opened Seqs
  import opened Overlay

  /** A directory as the operating system lists it; reading it may fail. */
  datatype Dir = Unreadable | Dir(entries: seq<Entry>)

  /** `volume` is the uuid a name parses to: the name contains "qcow2" and the part before
      ".qcow2" is a valid uuid. Directories are parsed like files. `exact`: nothing follows
      ".qcow2" in the name. */
  datatype Entry = Entry(file: string, volume: Option<Name>, exact: bool, sub: Option<Dir>)

  /** The entry is the disk image its name parses to, and not a backup of it or a directory. */
  predicate IsImage(e: Entry) { e.volume.Some? && e.exact && e.sub.None? }

  /** Ids below d from entry k on, in the order of the walk; an unreadable directory anywhere
      fails the whole listing. */
  function ListFrom(d: Dir, k: nat): Option<seq<Name>>
    requires d.Dir? && k <= |d.entries|
    decreases d, |d.entries| - k
  {
    if k == |d.entries| then Some([])
    else
      var e := d.entries[k];
      var below := if e.sub.Some? then Listing(e.sub.value) else Some([]);
      var rest := ListFrom(d, k + 1);
      if below.None? || rest.None? then None
      else Some(below.value + (if e.volume.Some? then [e.volume.value] else []) + rest.value)
  }

  function Listing(d: Dir): Option<seq<Name>>
    decreases d
  {
    if d.Unreadable? then None else ListFrom(d, 0)
  }

  /** First match of the walk, subdirectories before the entry itself; unreadable
      subdirectories are passed over. */
  function FindFrom(at: seq<string>, d: Dir, id: Name, k: nat): Option<Path>
    requires d.Dir? && k <= |d.entries|
    decreases d, |d.entries| - k
  {
    if k == |d.entries| then None
    else
      var e := d.entries[k];
      var below := if e.sub.Some? then Find(at + [e.file], e.sub.value, id) else None;
      if below.Some? then below
      else if e.volume == Some(id) then Some(Path(at, id))
      else FindFrom(at, d, id, k + 1)
  }

  function Find(at: seq<string>, d: Dir, id: Name): Option<Path>
    decreases d
  {
    if d.Unreadable? then None else FindFrom(at, d, id, 0)
  }

  lemma {:induction false} FindFromAgrees(at: seq<string>, d: Dir, id: Name, k: nat)
    requires d.Dir? && k <= |d.entries|
    ensures ListFrom(d, k).Some? ==> (FindFrom(at, d, id, k).Some? <==> id in ListFrom(d, k).value)
    ensures FindFrom(at, d, id, k).Some? ==>
      FindFrom(at, d, id, k).value.name == id && at <= FindFrom(at, d, id, k).value.dir
    decreases d, |d.entries| - k
  {
    if k < |d.entries| {
      var e := d.entries[k];
      if e.sub.Some? {
        FindAgrees(at + [e.file], e.sub.value, id);
      }
      FindFromAgrees(at, d, id, k + 1);
    }
  }

  /** When the listing succeeds, an id is listed exactly when the search finds it, and what it
      finds is an image of that id somewhere below the directory searched. */
  lemma {:induction false} FindAgrees(at: seq<string>, d: Dir, id: Name)
    ensures Listing(d).Some? ==> (Find(at, d, id).Some? <==> id in Listing(d).value)
    ensures Find(at, d, id).Some? ==> Find(at, d, id).value.name == id && at <= Find(at, d, id).value.dir
    decreases d
  {
    if d.Dir? {
      FindFromAgrees(at, d, id, 0);
    }
  }

  /** The images below d from entry k on; an unreadable directory shows none. */
  function FilesFrom(at: seq<string>, d: Dir, k: nat): set<Path>
    requires d.Dir? && k <= |d.entries|
    decreases d, |d.entries| - k
  {
    if k == |d.entries| then {}
    else
      var e := d.entries[k];
      (if e.sub.Some? then FilesOf(at + [e.file], e.sub.value) else {})
      + (if IsImage(e) then {Path(at, e.volume.value)} else {})
      + FilesFrom(at, d, k + 1)
  }

  function FilesOf(at: seq<string>, d: Dir): set<Path>
    decreases d
  {
    if d.Unreadable? then {} else FilesFrom(at, d, 0)
  }

  /** Ids that some name parses to without being that image. */
  function StraysFrom(d: Dir, k: nat): set<Name>
    requires d.Dir? && k <= |d.entries|
    decreases d, |d.entries| - k
  {
    if k == |d.entries| then {}
    else
      var e := d.entries[k];
      (if e.sub.Some? then Strays(e.sub.value) else {})
      + (if e.volume.Some? && !IsImage(e) then {e.volume.value} else {})
      + StraysFrom(d, k + 1)
  }

  function Strays(d: Dir): set<Name>
    decreases d
  {
    if d.Unreadable? then {} else StraysFrom(d, 0)
  }

  ghost predicate Names(files: set<Path>, id: Name) {
    exists p :: p in files && p.name == id
  }

  lemma NamesPlus(a: set<Path>, b: set<Path>, id: Name)
    ensures Names(a + b, id) <==> Names(a, id) || Names(b, id)
  {
    if Names(a, id) {
      var p :| p in a && p.name == id;
      assert p in a + b;
    }
    if Names(b, id) {
      var p :| p in b && p.name == id;
      assert p in a + b;
    }
  }

  lemma {:induction false} ListFromNamesFiles(at: seq<string>, d: Dir, id: Name, k: nat)
    requires d.Dir? && k <= |d.entries| && ListFrom(d, k).Some?
    ensures id in ListFrom(d, k).value <==> Names(FilesFrom(at, d, k), id) || id in StraysFrom(d, k)
    decreases d, |d.entries| - k
  {
    if k == |d.entries| {
    } else {
      var e := d.entries[k];
      var below := if e.sub.Some? then FilesOf(at + [e.file], e.sub.value) else {};
      var own := if IsImage(e) then {Path(at, e.volume.value)} else {};
      if e.sub.Some? {
        ListingNamesFiles(at + [e.file], e.sub.value, id);
      }
      ListFromNamesFiles(at, d, id, k + 1);
      NamesPlus(below, own, id);
      NamesPlus(below + own, FilesFrom(at, d, k + 1), id);
      assert Names(own, id) <==> IsImage(e) && e.volume == Some(id) by {
        assert IsImage(e) && e.volume == Some(id) ==> Path(at, id) in own;
      }
    }
  }

  /** A successful listing names exactly the images below the directory and the strays; so it names
      just the images if and only if every stray id is also an image's. */
  lemma {:induction false} ListingNamesFiles(at: seq<string>, d: Dir, id: Name)
    requires Listing(d).Some?
    ensures id in Listing(d).value <==> Names(FilesOf(at, d), id) || id in Strays(d)
    decreases d
  {
    ListFromNamesFiles(at, d, id, 0);
  }

  lemma {:induction false} FindFromIsFile(at: seq<string>, d: Dir, id: Name, k: nat)
    requires d.Dir? && k <= |d.entries| && id !in StraysFrom(d, k)
    ensures FindFrom(at, d, id, k).Some? ==> FindFrom(at, d, id, k).value in FilesFrom(at, d, k)
    decreases d, |d.entries| - k
  {
    if k == |d.entries| {
    } else {
      var e := d.entries[k];
      if e.sub.Some? {
        FindIsFile(at + [e.file], e.sub.value, id);
      }
      FindFromIsFile(at, d, id, k + 1);
    }
  }

  /** What the search returns for an id without strays is one of the images. */
  lemma {:induction false} FindIsFile(at: seq<string>, d: Dir, id: Name)
    requires id !in Strays(d)
    ensures Find(at, d, id).Some? ==> Find(at, d, id).value in FilesOf(at, d)
    decreases d
  {
    if d.Unreadable? {
    } else {
      FindFromIsFile(at, d, id, 0);
    }
  }

  /** The failing input: a lone backup file offers, and the search returns, an image that does not
      exist. */
  lemma StrayIsOffered(at: seq<string>, id: Name)
    ensures var d := Dir([Entry("backup", Some(id), false, None)]);
      Listing(d) == Some([id]) && Find(at, d, id) == Some(Path(at, id)) && FilesOf(at, d) == {}
  {
    var d := Dir([Entry("backup", Some(id), false, None)]);
    assert ListFrom(d, 1) == Some([]);
    assert [] + [id] + [] == [id];
    assert FilesFrom(at, d, 1) == {};
  }

  /** Every directory of the tree can be read. */
  ghost predicate Readable(d: Dir)
    decreases d
  {
    d.Dir? && forall k :: 0 <= k < |d.entries| && d.entries[k].sub.Some? ==> Readable(d.entries[k].sub.value)
  }

  lemma {:induction false} ListFromIff(d: Dir, k: nat)
    requires d.Dir? && k <= |d.entries|
    ensures ListFrom(d, k).Some? <==>
      forall j :: k <= j < |d.entries| && d.entries[j].sub.Some? ==> Readable(d.entries[j].sub.value)
    decreases d, |d.entries| - k
  {
    if k == |d.entries| {
    } else {
      if d.entries[k].sub.Some? {
        ListingIffReadable(d.entries[k].sub.value);
      }
      ListFromIff(d, k + 1);
    }
  }

  /** The listing fails if and only if some directory of the tree cannot be read. */
  lemma {:induction false} ListingIffReadable(d: Dir)
    ensures Listing(d).Some? <==> Readable(d)
    decreases d
  {
    if d.Unreadable? {
    } else {
      ListFromIff(d, 0);
    }
  }

  lemma {:induction false} FindFromIff(at: seq<string>, d: Dir, id: Name, k: nat)
    requires d.Dir? && k <= |d.entries|
    ensures FindFrom(at, d, id, k).Some? <==> Names(FilesFrom(at, d, k), id) || id in StraysFrom(d, k)
    decreases d, |d.entries| - k
  {
    if k == |d.entries| {
    } else {
      var e := d.entries[k];
      var below := if e.sub.Some? then FilesOf(at + [e.file], e.sub.value) else {};
      var own := if IsImage(e) then {Path(at, e.volume.value)} else {};
      if e.sub.Some? {
        FindIff(at + [e.file], e.sub.value, id);
      }
      FindFromIff(at, d, id, k + 1);
      NamesPlus(below, own, id);
      NamesPlus(below + own, FilesFrom(at, d, k + 1), id);
      assert Names(own, id) <==> IsImage(e) && e.volume == Some(id) by {
        assert IsImage(e) && e.volume == Some(id) ==> Path(at, id) in own;
      }
    }
  }

  /** The search succeeds if and only if an image or a stray in some readable directory has the id;
      unreadable directories are passed over. */
  lemma {:induction false} FindIff(at: seq<string>, d: Dir, id: Name)
    ensures Find(at, d, id).Some? <==> Names(FilesOf(at, d), id) || id in Strays(d)
    decreases d
  {
    if d.Unreadable? {
    } else {
      FindFromIff(at, d, id, 0);
    }
  }

  // ---- the order of the walk

  /** Every entry that parses to a volume, subdirectories before the entry itself. */
  function WalkFrom(at: seq<string>, d: Dir, k: nat): seq<Path>
    requires d.Dir? && k <= |d.entries|
    decreases d, |d.entries| - k
  {
    if k == |d.entries| then []
    else
      var e := d.entries[k];
      (if e.sub.Some? then Walk(at + [e.file], e.sub.value) else [])
      + (if e.volume.Some? then [Path(at, e.volume.value)] else [])
      + WalkFrom(at, d, k + 1)
  }

  function Walk(at: seq<string>, d: Dir): seq<Path>
    decreases d
  {
    if d.Unreadable? then [] else WalkFrom(at, d, 0)
  }

  function FirstNamed(paths: seq<Path>, id: Name): Option<Path> {
    if paths == [] then None else if paths[0].name == id then Some(paths[0]) else FirstNamed(paths[1..], id)
  }

  lemma {:induction false} FirstNamedPlus(a: seq<Path>, b: seq<Path>, id: Name)
    ensures FirstNamed(a + b, id) == if FirstNamed(a, id).Some? then FirstNamed(a, id) else FirstNamed(b, id)
  {
    if a == [] {
      assert a + b == b;
    } else {
      assert (a + b)[1..] == a[1..] + b;
      FirstNamedPlus(a[1..], b, id);
    }
  }

  lemma {:induction false} FindFromIsFirst(at: seq<string>, d: Dir, id: Name, k: nat)
    requires d.Dir? && k <= |d.entries|
    ensures FindFrom(at, d, id, k) == FirstNamed(WalkFrom(at, d, k), id)
    decreases d, |d.entries| - k
  {
    if k == |d.entries| {
    } else {
      var e := d.entries[k];
      var below := if e.sub.Some? then Walk(at + [e.file], e.sub.value) else [];
      var own := if e.volume.Some? then [Path(at, e.volume.value)] else [];
      if e.sub.Some? {
        FindIsFirst(at + [e.file], e.sub.value, id);
      }
      FindFromIsFirst(at, d, id, k + 1);
      FirstNamedPlus(below, own, id);
      FirstNamedPlus(below + own, WalkFrom(at, d, k + 1), id);
    }
  }

  /** The search returns the first entry of the walk with that id. */
  lemma {:induction false} FindIsFirst(at: seq<string>, d: Dir, id: Name)
    ensures Find(at, d, id) == FirstNamed(Walk(at, d), id)
    decreases d
  {
    if d.Unreadable? {
    } else {
      FindFromIsFirst(at, d, id, 0);
    }
  }

  function NamesOf(paths: seq<Path>): (r: seq<Name>)
    ensures |r| == |paths| && forall k :: 0 <= k < |r| ==> r[k] == paths[k].name
  {
    seq(|paths|, k requires 0 <= k < |paths| => paths[k].name)
  }

  lemma {:induction false} ListFromIsWalk(at: seq<string>, d: Dir, k: nat)
    requires d.Dir? && k <= |d.entries| && ListFrom(d, k).Some?
    ensures ListFrom(d, k).value == NamesOf(WalkFrom(at, d, k))
    decreases d, |d.entries| - k
  {
    if k == |d.entries| {
    } else {
      var e := d.entries[k];
      if e.sub.Some? {
        ListingIsWalk(at + [e.file], e.sub.value);
      }
      ListFromIsWalk(at, d, k + 1);
    }
  }

  /** A successful listing gives the ids of the walk, in its order. */
  lemma {:induction false} ListingIsWalk(at: seq<string>, d: Dir)
    requires Listing(d).Some?
    ensures Listing(d).value == NamesOf(Walk(at, d))
    decreases d
  {
    ListFromIsWalk(at, d, 0);
  }

  function Own(e: Entry): seq<Name> { if e.volume.Some? then [e.volume.value] else [] }

  lemma ListNext(d: Dir, k: nat, found: seq<Name>, below: seq<Name>)
    requires d.Dir? && k < |d.entries|
    requires Some(below) == if d.entries[k].sub.Some? then Listing(d.entries[k].sub.value) else Some([])
    ensures ListFrom(d, k).Some? <==> ListFrom(d, k + 1).Some?
    ensures ListFrom(d, k).Some? ==>
      found + ListFrom(d, k).value == found + below + Own(d.entries[k]) + ListFrom(d, k + 1).value
  {
    if ListFrom(d, k + 1).Some? {
      var rest := ListFrom(d, k + 1).value;
      PlusAssoc(found, below, Own(d.entries[k]));
      PlusAssoc(found, below + Own(d.entries[k]), rest);
    }
  }

  method ListVolumesInDir(d: Dir) returns (vols: Option<seq<Name>>)
    ensures vols == Listing(d)
    decreases d
  {
    if d.Unreadable? {
      return None;
    }
    var found: seq<Name> := [];
    for k := 0 to |d.entries|
      invariant ListFrom(d, k).None? ==> Listing(d).None?
      invariant ListFrom(d, k).Some? ==> Listing(d).Some? && Listing(d).value == found + ListFrom(d, k).value
    {
      var e := d.entries[k];
      var below := Some([]);
      if e.sub.Some? {
        below := ListVolumesInDir(e.sub.value);
        if below.None? {
          return None;
        }
      }
      ListNext(d, k, found, below.value);
      found := found + below.value + Own(e);
    }
    assert found + [] == found;
    vols := Some(found);
  }

  method FindVolumesInDir(at: seq<string>, d: Dir, id: Name) returns (path: Option<Path>)
    ensures path == Find(at, d, id)
    decreases d
  {
    if d.Unreadable? {
      return None;
    }
    for k := 0 to |d.entries|
      invariant FindFrom(at, d, id, k) == Find(at, d, id)
    {
      var e := d.entries[k];
      if e.sub.Some? {
        var below := FindVolumesInDir(at + [e.file], e.sub.value, id);
        if below.Some? {
          return below;
        }
      }
      if e.volume == Some(id) {
        return Some(Path(at, id));
      }
    }
    path := None;
  }
}
