/** Cluster reconciliation: one pass moves the running members towards the manifest. */
module Reconcile {
  import opened Seqs

  type Address = string

  /** A cluster node or peer; identity matters, the address never changes. */
  class Member {
    const ip: Address
    var active: bool

    constructor (ip: Address)
      ensures this.ip == ip && active
    {
      this.ip, active := ip, true;
    }

    method Deinit()
      modifies this`active
      ensures !active
    {
      active := false;
    }
  }

  ghost function Addresses(members: seq<Member>): (r: seq<Address>)
    ensures |r| == |members|
    ensures forall k :: 0 <= k < |r| ==> r[k] == members[k].ip
  {
    seq(|members|, k requires 0 <= k < |members| => members[k].ip)
  }

  /** Manifest entries no current member serves, in manifest order. */
  function Missing(desired: seq<Address>, current: set<Address>): seq<Address> {
    if desired == [] then []
    else
      var front, last := desired[..|desired| - 1], desired[|desired| - 1];
      Missing(front, current) + if last in current then [] else [last]
  }

  /** Members the manifest still wants: the same objects in the same order. */
  ghost function Wanted(members: seq<Member>, desired: seq<Address>): seq<Member> {
    if members == [] then []
    else
      var front, last := members[..|members| - 1], members[|members| - 1];
      Wanted(front, desired) + if last.ip in desired then [last] else []
  }

  /** Addresses of the creations that succeed; creation k is the k-th attempt of the pass. */
  function Succeeded(attempts: seq<Address>, comesUp: nat -> bool): seq<Address> {
    if attempts == [] then []
    else
      var front, last := attempts[..|attempts| - 1], attempts[|attempts| - 1];
      Succeeded(front, comesUp) + if comesUp(|front|) then [last] else []
  }

  function Failed(attempts: seq<Address>, comesUp: nat -> bool): seq<Address> {
    if attempts == [] then []
    else
      var front, last := attempts[..|attempts| - 1], attempts[|attempts| - 1];
      Failed(front, comesUp) + if comesUp(|front|) then [] else [last]
  }

  ghost function Served(members: seq<Member>): set<Address> {
    set a | a in Addresses(members)
  }

  lemma {:induction false} MissingIn(desired: seq<Address>, current: set<Address>, a: Address)
    ensures a in Missing(desired, current) <==> a in desired && a !in current
  {
    if desired == [] {
    } else {
      MissingIn(desired[..|desired| - 1], current, a);
      assert desired == desired[..|desired| - 1] + [desired[|desired| - 1]];
    }
  }

  /** The manifest's own order. */
  lemma {:induction false} MissingIsKept(desired: seq<Address>, current: set<Address>, keep: set<Address>)
    requires forall a :: a in desired ==> (a in keep <==> a !in current)
    ensures Missing(desired, current) == Keep(desired, keep)
  {
    if desired == [] {
    } else {
      assert desired[|desired| - 1] in desired;
      MissingIsKept(desired[..|desired| - 1], current, keep);
    }
  }

  lemma {:induction false} WantedIn(members: seq<Member>, desired: seq<Address>, m: Member)
    ensures m in Wanted(members, desired) <==> m in members && m.ip in desired
  {
    if members == [] {
    } else {
      WantedIn(members[..|members| - 1], desired, m);
      assert members == members[..|members| - 1] + [members[|members| - 1]];
    }
  }

  lemma {:induction false} AttemptsSplit(attempts: seq<Address>, comesUp: nat -> bool, a: Address)
    ensures a in attempts <==> a in Succeeded(attempts, comesUp) || a in Failed(attempts, comesUp)
    ensures NoDup(attempts) ==> !(a in Succeeded(attempts, comesUp) && a in Failed(attempts, comesUp))
  {
    if attempts == [] {
    } else {
      var front, last := attempts[..|attempts| - 1], attempts[|attempts| - 1];
      AttemptsSplit(front, comesUp, a);
      assert attempts == front + [last];
      if NoDup(attempts) {
        assert last !in front;
        AttemptsSplit(front, comesUp, last);
      }
    }
  }

  lemma {:induction false} AllUp(attempts: seq<Address>, comesUp: nat -> bool)
    requires forall k :: 0 <= k < |attempts| ==> comesUp(k)
    ensures Succeeded(attempts, comesUp) == attempts && Failed(attempts, comesUp) == []
  {
    if attempts == [] {
    } else {
      AllUp(attempts[..|attempts| - 1], comesUp);
    }
  }

  lemma {:induction false} MissingNoDup(desired: seq<Address>, current: set<Address>)
    requires NoDup(desired)
    ensures NoDup(Missing(desired, current))
  {
    if desired == [] {
    } else {
      var front, last := desired[..|desired| - 1], desired[|desired| - 1];
      MissingNoDup(front, current);
      MissingIn(front, current, last);
      assert last !in front;
    }
  }

  /** The state after a pass, given the state before: survivors, then the new members. */
  ghost predicate Synced(desired: seq<Address>, before: seq<Member>, comesUp: nat -> bool, after: seq<Member>) {
    var survivors := Wanted(before, desired);
    var created := Succeeded(Missing(desired, Served(before)), comesUp);
    && |after| == |survivors| + |created|
    && after[..|survivors|] == survivors
    && Addresses(after[|survivors|..]) == created
  }

  lemma ServedAt(members: seq<Member>, k: nat)
    requires k < |members|
    ensures members[k].ip in Served(members)
  {
    assert Addresses(members)[k] == members[k].ip;
  }

  lemma ServedBy(members: seq<Member>, a: Address) returns (k: nat)
    requires a in Served(members)
    ensures k < |members| && members[k].ip == a
  {
    k :| 0 <= k < |members| && Addresses(members)[k] == a;
  }

  lemma SurvivorServed(desired: seq<Address>, before: seq<Member>, a: Address)
    ensures a in Served(Wanted(before, desired)) <==> a in desired && a in Served(before)
  {
    var survivors := Wanted(before, desired);
    if a in Served(survivors) {
      var k := ServedBy(survivors, a);
      WantedIn(before, desired, survivors[k]);
      var j :| 0 <= j < |before| && before[j] == survivors[k];
      ServedAt(before, j);
    }
    if a in desired && a in Served(before) {
      var j := ServedBy(before, a);
      WantedIn(before, desired, before[j]);
      var k :| 0 <= k < |survivors| && survivors[k] == before[j];
      ServedAt(survivors, k);
    }
  }

  lemma ServedPlus(x: seq<Member>, y: seq<Member>, a: Address)
    ensures a in Served(x + y) <==> a in Served(x) || a in Served(y)
  {
    assert Addresses(x + y) == Addresses(x) + Addresses(y);
  }

  lemma SyncedServes(desired: seq<Address>, before: seq<Member>, comesUp: nat -> bool, after: seq<Member>, a: Address)
    requires Synced(desired, before, comesUp, after)
    ensures a in Served(after) <==>
      (a in desired && a in Served(before)) || a in Succeeded(Missing(desired, Served(before)), comesUp)
  {
    var n := |Wanted(before, desired)|;
    SurvivorServed(desired, before, a);
    ServedPlus(after[..n], after[n..], a);
    assert after == after[..n] + after[n..];
  }

  /** One pass never goes outside the manifest, and reaches it when every creation succeeds. */
  lemma {:induction false} SyncConverges(
      desired: seq<Address>, before: seq<Member>, comesUp: nat -> bool, after: seq<Member>)
    requires Synced(desired, before, comesUp, after)
    ensures Served(after) <= set a | a in desired
    ensures (forall k :: 0 <= k < |Missing(desired, Served(before))| ==> comesUp(k)) ==>
      Served(after) == set a | a in desired
  {
    var attempts := Missing(desired, Served(before));
    forall a
      ensures a in Served(after) ==> a in desired
      ensures (forall k :: 0 <= k < |attempts| ==> comesUp(k)) && a in desired ==> a in Served(after)
    {
      SyncedServes(desired, before, comesUp, after, a);
      MissingIn(desired, Served(before), a);
      AttemptsSplit(attempts, comesUp, a);
      if forall k :: 0 <= k < |attempts| ==> comesUp(k) {
        AllUp(attempts, comesUp);
      }
    }
  }

  lemma {:induction false} NothingMissing(desired: seq<Address>, current: set<Address>)
    requires forall a :: a in desired ==> a in current
    ensures Missing(desired, current) == []
  {
    if desired == [] {
    } else {
      NothingMissing(desired[..|desired| - 1], current);
    }
  }

  lemma {:induction false} AllWanted(members: seq<Member>, desired: seq<Address>)
    requires forall m :: m in members ==> m.ip in desired
    ensures Wanted(members, desired) == members
  {
    if members == [] {
    } else {
      AllWanted(members[..|members| - 1], desired);
    }
  }

  /** A state that serves exactly the manifest is a fixed point: the very same objects stay. */
  lemma {:induction false} EqualStateIsFixed(
      desired: seq<Address>, before: seq<Member>, comesUp: nat -> bool, after: seq<Member>)
    requires Synced(desired, before, comesUp, after)
    requires Served(before) == set a | a in desired
    ensures Missing(desired, Served(before)) == [] && after == before
  {
    NothingMissing(desired, Served(before));
    forall m | m in before
      ensures m.ip in desired
    {
      var k :| 0 <= k < |before| && before[k] == m;
      assert Addresses(before)[k] == m.ip;
      assert m.ip in Served(before);
    }
    AllWanted(before, desired);
  }

  /** The addresses served after a pass, as far as the manifest wants them. */
  ghost function ServedNext(desired: seq<Address>, before: set<Address>, comesUp: nat -> bool): set<Address> {
    (set a | a in desired && a in before) + set a | a in Succeeded(Missing(desired, before), comesUp)
  }

  lemma {:induction false} MissingSame(desired: seq<Address>, x: set<Address>, y: set<Address>)
    requires forall a :: a in desired ==> (a in x <==> a in y)
    ensures Missing(desired, x) == Missing(desired, y)
  {
    if desired == [] {
    } else {
      MissingSame(desired[..|desired| - 1], x, y);
      assert desired[|desired| - 1] in desired;
    }
  }

  lemma {:induction false} MissingTwice(desired: seq<Address>, x: set<Address>, y: set<Address>)
    ensures Missing(Missing(desired, x), y) == Missing(desired, x + y)
  {
    if desired == [] {
    } else {
      var front, last := desired[..|desired| - 1], desired[|desired| - 1];
      MissingTwice(front, x, y);
      if last !in x {
        assert (Missing(front, x) + [last])[..|Missing(front, x)|] == Missing(front, x);
      } else {
        assert Missing(desired, x) == Missing(front, x);
      }
    }
  }

  /** Dropping the addresses that came up leaves the failed attempts, when none of those came up. */
  lemma {:induction false} MissingIsFailed(attempts: seq<Address>, comesUp: nat -> bool, up: set<Address>)
    requires forall a :: a in Succeeded(attempts, comesUp) ==> a in up
    requires forall a :: a in Failed(attempts, comesUp) ==> a !in up
    ensures Missing(attempts, up) == Failed(attempts, comesUp)
  {
    if attempts == [] {
    } else {
      var front, last := attempts[..|attempts| - 1], attempts[|attempts| - 1];
      MissingIsFailed(front, comesUp, up);
      if comesUp(|front|) {
        assert last in Succeeded(attempts, comesUp);
      } else {
        assert last in Failed(attempts, comesUp);
      }
    }
  }

  ghost predicate NoneBoth(attempts: seq<Address>, comesUp: nat -> bool) {
    forall a :: a in Failed(attempts, comesUp) ==> a !in Succeeded(attempts, comesUp)
  }

  lemma {:induction false} RetriesIff(desired: seq<Address>, before: set<Address>, comesUp: nat -> bool)
    ensures var attempts := Missing(desired, before);
      Missing(desired, ServedNext(desired, before, comesUp)) == Failed(attempts, comesUp) <==>
        NoneBoth(attempts, comesUp)
  {
    var attempts := Missing(desired, before);
    var up := set a | a in Succeeded(attempts, comesUp);
    MissingTwice(desired, before, up);
    MissingSame(desired, before + up, ServedNext(desired, before, comesUp));
    if NoneBoth(attempts, comesUp) {
      MissingIsFailed(attempts, comesUp, up);
    } else {
      var a :| a in Failed(attempts, comesUp) && a in up;
      MissingIn(attempts, up, a);
    }
  }

  /** The next pass attempts exactly the creations that failed if and only if no address both
      failed and came up in this one. Any manifest, repeated entries included. */
  lemma {:induction false} SecondPassRetriesFailures(
      desired: seq<Address>, before: seq<Member>, comesUp: nat -> bool, after: seq<Member>)
    requires Synced(desired, before, comesUp, after)
    ensures var attempts := Missing(desired, Served(before));
      Missing(desired, Served(after)) == Failed(attempts, comesUp) <==> NoneBoth(attempts, comesUp)
  {
    forall a | a in desired
      ensures a in Served(after) <==> a in ServedNext(desired, Served(before), comesUp)
    {
      SyncedServes(desired, before, comesUp, after, a);
    }
    MissingSame(desired, Served(after), ServedNext(desired, Served(before), comesUp));
    RetriesIff(desired, Served(before), comesUp);
  }

  /** Of the creations all but the k-th succeed: a repeated entry then fails and comes up. */
  lemma {:induction false} OneFails(attempts: seq<Address>, k: nat, j: nat)
    requires k < |attempts| && j < |attempts| && j != k
    ensures attempts[k] in Failed(attempts, AllBut(k)) && attempts[j] in Succeeded(attempts, AllBut(k))
  {
    var front, last := attempts[..|attempts| - 1], attempts[|attempts| - 1];
    if k < |front| && j < |front| {
      OneFails(front, k, j);
    } else if k == |front| {
      SucceedsAt(front, k, j);
    } else {
      FailsAt(front, k);
    }
  }

  ghost function AllBut(k: nat): nat -> bool { i => i != k }

  lemma {:induction false} SucceedsAt(attempts: seq<Address>, k: nat, j: nat)
    requires j < |attempts| && j != k
    ensures attempts[j] in Succeeded(attempts, AllBut(k))
  {
    if j < |attempts| - 1 {
      SucceedsAt(attempts[..|attempts| - 1], k, j);
    }
  }

  lemma {:induction false} FailsAt(attempts: seq<Address>, k: nat)
    requires k < |attempts|
    ensures attempts[k] in Failed(attempts, AllBut(k))
  {
    if k < |attempts| - 1 {
      FailsAt(attempts[..|attempts| - 1], k);
    }
  }

  /** What a caller can check beforehand: the failures are retried whichever creations fail if and
      only if the manifest entries that nobody serves yet are distinct. */
  lemma {:induction false} AlwaysRetriesIffDistinct(desired: seq<Address>, before: set<Address>)
    ensures var attempts := Missing(desired, before);
      (forall comesUp :: Missing(desired, ServedNext(desired, before, comesUp)) == Failed(attempts, comesUp)) <==>
        NoDup(attempts)
    ensures NoDup(desired) ==> NoDup(Missing(desired, before))
  {
    var attempts := Missing(desired, before);
    if NoDup(desired) {
      MissingNoDup(desired, before);
    }
    if NoDup(attempts) {
      forall comesUp
        ensures Missing(desired, ServedNext(desired, before, comesUp)) == Failed(attempts, comesUp)
      {
        forall a | a in Failed(attempts, comesUp)
          ensures a !in Succeeded(attempts, comesUp)
        {
          AttemptsSplit(attempts, comesUp, a);
        }
        RetriesIff(desired, before, comesUp);
      }
    } else {
      var i, j :| 0 <= i < j < |attempts| && attempts[i] == attempts[j];
      OneFails(attempts, j, i);
      assert !NoneBoth(attempts, AllBut(j));
      RetriesIff(desired, before, AllBut(j));
    }
  }

  /** The failing input: a repeated entry that fails once and comes up once is not retried. */
  lemma RepeatedEntryIsNotRetried()
    ensures var desired := ["n", "n"]; var comesUp := (k: nat) => k == 0;
      && Failed(Missing(desired, {}), comesUp) == ["n"]
      && Missing(desired, set a | a in Succeeded(Missing(desired, {}), comesUp)) == []
  {
    var desired := ["n", "n"];
    var comesUp := (k: nat) => k == 0;
    assert desired[..1] == ["n"] && desired[..1][..0] == [];
    assert Missing(["n"], {}) == ["n"];
    assert Missing(desired, {}) == ["n", "n"];
    assert Succeeded(["n"], comesUp) == ["n"] && Failed(["n"], comesUp) == [];
    assert Succeeded(desired, comesUp) == ["n"];
    NothingMissing(desired, set a | a in Succeeded(desired, comesUp));
  }

  // ---------------------------------------------------------------- the cluster object

  class ClusterConfig {
    var nodes: seq<Member>
    var peers: seq<Member>

    constructor ()
      ensures nodes == [] && peers == []
    {
      nodes, peers := [], [];
    }

    method SyncNodes(desired: seq<Address>, comesUp: nat -> bool) returns (attempts: seq<Address>)
      modifies this`nodes, nodes
      ensures Synced(desired, old(nodes), comesUp, nodes)
      ensures attempts == Missing(desired, Served(old(nodes)))
      ensures forall m :: m in old(nodes) ==> m.active == (old(m.active) && m.ip in desired)
      ensures fresh(set m | m in nodes && m !in old(nodes)) && forall m :: m in nodes ==> m in old(nodes) || m.active
    {
      nodes, attempts := Pass(desired, nodes, comesUp);
    }

    method SyncPeers(desired: seq<Address>, comesUp: nat -> bool) returns (attempts: seq<Address>)
      modifies this`peers, peers
      ensures Synced(desired, old(peers), comesUp, peers)
      ensures attempts == Missing(desired, Served(old(peers)))
      ensures forall m :: m in old(peers) ==> m.active == (old(m.active) && m.ip in desired)
      ensures fresh(set m | m in peers && m !in old(peers)) && forall m :: m in peers ==> m in old(peers) || m.active
    {
      peers, attempts := Pass(desired, peers, comesUp);
    }
  }

  method IsServed(members: seq<Member>, ip: Address) returns (found: bool)
    ensures found <==> ip in Served(members)
  {
    found := false;
    for i := 0 to |members|
      invariant found <==> exists k :: 0 <= k < i && members[k].ip == ip
    {
      if members[i].ip == ip {
        found := true;
      }
    }
    assert forall k :: 0 <= k < |members| ==> Addresses(members)[k] == members[k].ip;
  }

  method IsDesired(desired: seq<Address>, ip: Address) returns (found: bool)
    ensures found <==> ip in desired
  {
    found := false;
    for i := 0 to |desired|
      invariant found <==> ip in desired[..i]
    {
      if desired[i] == ip {
        found := true;
      }
    }
    assert desired[..|desired|] == desired;
  }

  /** Removal by name of every member called like `rm`. */
  method Drop(members: seq<Member>, rm: Address) returns (replace: seq<Member>)
    ensures replace == Outside(members, {rm})
  {
    replace := [];
    for i := 0 to |members|
      invariant replace == Outside(members[..i], {rm})
    {
      assert members[..i + 1][..i] == members[..i];
      if members[i].ip != rm {
        replace := replace + [members[i]];
      }
    }
    assert members[..|members|] == members;
  }

  /** The members whose name is not among `names`. */
  ghost function Outside(members: seq<Member>, names: set<Address>): seq<Member> {
    if members == [] then []
    else
      var front, last := members[..|members| - 1], members[|members| - 1];
      Outside(front, names) + if last.ip in names then [] else [last]
  }

  lemma {:induction false} OutsideOne(members: seq<Member>, names: set<Address>, rm: Address)
    ensures Outside(Outside(members, names), {rm}) == Outside(members, names + {rm})
  {
    if members == [] {
    } else {
      var front, last := members[..|members| - 1], members[|members| - 1];
      OutsideOne(front, names, rm);
      if last.ip !in names {
        assert (Outside(front, names) + [last])[..|Outside(front, names)|] == Outside(front, names);
      } else {
        assert Outside(members, names) == Outside(front, names);
      }
    }
  }

  lemma {:induction false} OutsideNone(members: seq<Member>)
    ensures Outside(members, {}) == members
  {
    if members == [] {
    } else {
      OutsideNone(members[..|members| - 1]);
    }
  }

  lemma {:induction false} OutsideIsWanted(members: seq<Member>, names: set<Address>, desired: seq<Address>)
    requires forall m :: m in members ==> (m.ip in names <==> m.ip !in desired)
    ensures Outside(members, names) == Wanted(members, desired)
  {
    if members == [] {
    } else {
      OutsideIsWanted(members[..|members| - 1], names, desired);
    }
  }

  lemma {:induction false} OutsidePlus(a: seq<Member>, b: seq<Member>, names: set<Address>)
    ensures Outside(a + b, names) == Outside(a, names) + Outside(b, names)
  {
    if b == [] {
      assert a + b == a;
    } else {
      OutsidePlus(a, b[..|b| - 1], names);
      assert (a + b)[..|a + b| - 1] == a + b[..|b| - 1];
    }
  }

  method FindMissing(desired: seq<Address>, current: seq<Member>) returns (attempts: seq<Address>)
    ensures attempts == Missing(desired, Served(current))
  {
    attempts := [];
    for i := 0 to |desired|
      invariant attempts == Missing(desired[..i], Served(current))
    {
      assert desired[..i + 1][..i] == desired[..i];
      var found := IsServed(current, desired[i]);
      if !found {
        attempts := attempts + [desired[i]];
      }
    }
    assert desired[..|desired|] == desired;
  }

  method CreateAll(attempts: seq<Address>, comesUp: nat -> bool) returns (created: seq<Member>)
    ensures Addresses(created) == Succeeded(attempts, comesUp)
    ensures fresh(created) && forall m :: m in created ==> m.active
  {
    created := [];
    for i := 0 to |attempts|
      invariant Addresses(created) == Succeeded(attempts[..i], comesUp)
      invariant fresh(created) && forall m :: m in created ==> m.active
    {
      assert attempts[..i + 1][..i] == attempts[..i];
      if comesUp(i) {
        var node := new Member(attempts[i]);
        assert Addresses(created + [node]) == Addresses(created) + [node.ip];
        created := created + [node];
      }
    }
    assert attempts[..|attempts|] == attempts;
  }

  ghost function Unwanted(current: seq<Member>, desired: seq<Address>): set<Address> {
    set k | 0 <= k < |current| && current[k].ip !in desired :: current[k].ip
  }

  method RemoveUnwanted(desired: seq<Address>, current: seq<Member>, all: seq<Member>) returns (members: seq<Member>)
    modifies current
    ensures members == Outside(all, Unwanted(current, desired))
    ensures forall m :: m in current ==> m.active == (old(m.active) && m.ip in desired)
  {
    members := all;
    ghost var names: set<Address> := {};
    OutsideNone(all);
    for i := 0 to |current|
      invariant names == Unwanted(current[..i], desired)
      invariant members == Outside(all, names)
      invariant forall m :: m in current ==> m.active == (old(m.active) && (m.ip in desired || m !in current[..i]))
    {
      assert current[..i + 1] == current[..i] + [current[i]];
      var wanted := IsDesired(desired, current[i].ip);
      if !wanted {
        current[i].Deinit();
        OutsideOne(all, names, current[i].ip);
        members := Drop(members, current[i].ip);
        names := names + {current[i].ip};
      }
    }
    assert current[..|current|] == current;
  }

  /** The body shared by sync_nodes and sync_peers. */
  method Pass(desired: seq<Address>, current: seq<Member>, comesUp: nat -> bool)
      returns (members: seq<Member>, attempts: seq<Address>)
    modifies current
    ensures Synced(desired, current, comesUp, members)
    ensures attempts == Missing(desired, Served(current))
    ensures forall m :: m in current ==> m.active == (old(m.active) && m.ip in desired)
    ensures fresh(set m | m in members && m !in current) && forall m :: m in members ==> m in current || m.active
  {
    attempts := FindMissing(desired, current);
    var created := CreateAll(attempts, comesUp);
    members := RemoveUnwanted(desired, current, current + created);
    SurvivorsThenCreated(desired, current, created, comesUp);
    forall m | m in members && m !in current
      ensures m in created
    {
      WantedIn(current, desired, m);
    }
  }

  lemma SurvivorsThenCreated(desired: seq<Address>, current: seq<Member>, created: seq<Member>, comesUp: nat -> bool)
    requires Addresses(created) == Succeeded(Missing(desired, Served(current)), comesUp)
    ensures Outside(current + created, Unwanted(current, desired)) == Wanted(current, desired) + created
    ensures Synced(desired, current, comesUp, Outside(current + created, Unwanted(current, desired)))
  {
    var names := Unwanted(current, desired);
    OutsidePlus(current, created, names);
    forall m | m in current
      ensures m.ip in names <==> m.ip !in desired
    {
    }
    OutsideIsWanted(current, names, desired);
    forall m | m in created
      ensures m.ip !in names && m.ip in desired
    {
      var k :| 0 <= k < |created| && created[k] == m;
      assert Addresses(created)[k] == m.ip;
      AttemptsSplit(Missing(desired, Served(current)), comesUp, m.ip);
      MissingIn(desired, Served(current), m.ip);
    }
    OutsideIsWanted(created, names, desired);
    AllWanted(created, desired);
    var survivors := Wanted(current, desired);
    assert (survivors + created)[..|survivors|] == survivors;
    assert (survivors + created)[|survivors|..] == created;
  }
}
