/** Session routing, signaling and closing over a tree of daemons. */
module Sessions {
  import opened Seqs

  type Id = string

  datatype Vm = Vm(ip: Option<string>)

  datatype Session = Session(id: Id, vm: Option<Vm>)

  /** A daemon with its own sessions and its cluster nodes. `online` is how its parent sees it:
      the last query succeeded, the cached view is fresh and posts are answered. */
  datatype Daemon = Daemon(online: bool, sessions: seq<Session>, nodes: seq<Daemon>)

  // ---------------------------------------------------------------- aggregated view

  /** infoTransform: own sessions, then every reachable node's view. */
  function View(d: Daemon): seq<Session>
    decreases d, 1
  {
    d.sessions + ViewAll(d.nodes)
  }

  function ViewAll(nodes: seq<Daemon>): seq<Session>
    decreases nodes, 0
  {
    if nodes == [] then []
    else (if nodes[0].online then View(nodes[0]) else []) + ViewAll(nodes[1..])
  }

  /** The part of the view a targeted command can reach: it gives up at the first node that is
      offline instead of passing it over. */
  function Reach(d: Daemon): seq<Session>
    decreases d, 1
  {
    d.sessions + ReachAll(d.nodes)
  }

  function ReachAll(nodes: seq<Daemon>): seq<Session>
    decreases nodes, 0
  {
    if nodes == [] || !nodes[0].online then [] else Reach(nodes[0]) + ReachAll(nodes[1..])
  }

  ghost predicate AllOnline(d: Daemon)
    decreases d
  {
    forall k :: 0 <= k < |d.nodes| ==> d.nodes[k].online && AllOnline(d.nodes[k])
  }

  lemma {:induction false} ReachIsView(d: Daemon)
    requires AllOnline(d)
    ensures Reach(d) == View(d)
    decreases d, 1
  {
    ReachAllIsView(d.nodes);
  }

  lemma {:induction false} ReachAllIsView(nodes: seq<Daemon>)
    requires forall k :: 0 <= k < |nodes| ==> nodes[k].online && AllOnline(nodes[k])
    ensures ReachAll(nodes) == ViewAll(nodes)
    decreases nodes, 0
  {
    if nodes == [] {
    } else {
      ReachIsView(nodes[0]);
      ReachAllIsView(nodes[1..]);
    }
  }

  lemma {:induction false} ReachWithinView(d: Daemon, s: Session)
    ensures s in Reach(d) ==> s in View(d)
    decreases d, 1
  {
    ReachAllWithinView(d.nodes, s);
  }

  lemma {:induction false} ReachAllWithinView(nodes: seq<Daemon>, s: Session)
    ensures s in ReachAll(nodes) ==> s in ViewAll(nodes)
    decreases nodes, 0
  {
    if nodes == [] {
    } else {
      ReachWithinView(nodes[0], s);
      ReachAllWithinView(nodes[1..], s);
    }
  }

  // ---------------------------------------------------------------- targeted commands

  predicate Routable(s: Session, target: Id) {
    s.id == target && s.vm.Some? && s.vm.value.ip.Some?
  }

  /** The daemon reached (node indices from the root), which of its sessions answered, and the
      Target field of each post on the way. */
  datatype Delivery = Delivery(path: seq<nat>, index: nat, targets: seq<Option<Id>>)

  /** First routable session whose VM answers, or the length. */
  function FirstMatch(sessions: seq<Session>, target: Id, answers: Session -> bool): (k: nat)
    ensures k <= |sessions|
    ensures k < |sessions| ==> Routable(sessions[k], target) && answers(sessions[k])
    ensures forall j :: 0 <= j < k ==> !(Routable(sessions[j], target) && answers(sessions[j]))
  {
    if sessions == [] || (Routable(sessions[0], target) && answers(sessions[0])) then 0
    else 1 + FirstMatch(sessions[1..], target, answers)
  }

  /** The same delivery seen one hop further up, through node `at`. */
  function OneHop(r: Delivery, at: nat, target: Id): Delivery {
    Delivery([at] + r.path, r.index, [Some(target)] + r.targets)
  }

  /** HandleSessionForward with a target: own sessions first, then node by node; a node's
      error makes the loop go on, an offline node ends it. */
  function Route(d: Daemon, target: Id, answers: Session -> bool): Option<Delivery>
    decreases d, 1
  {
    var k := FirstMatch(d.sessions, target, answers);
    if k < |d.sessions| then Some(Delivery([], k, [None]))
    else RouteNodes(d.nodes, 0, target, answers)
  }

  function RouteNodes(nodes: seq<Daemon>, at: nat, target: Id, answers: Session -> bool): Option<Delivery>
    decreases nodes, 0
  {
    if nodes == [] || !nodes[0].online then None
    else
      var r := if Lists(View(nodes[0]), target) then Route(nodes[0], target, answers) else None;
      if r.Some? then Some(OneHop(r.value, at, target))
      else RouteNodes(nodes[1..], at + 1, target, answers)
  }

  predicate Lists(view: seq<Session>, target: Id) {
    exists k :: 0 <= k < |view| && Routable(view[k], target)
  }

  /** Who owns entry n of the reachable view: node indices from the root, and the entry's
      place among that daemon's own sessions. */
  function Owner(d: Daemon, n: nat): (seq<nat>, nat)
    requires n < |Reach(d)|
    decreases d, 1
  {
    if n < |d.sessions| then ([], n) else OwnerIn(d.nodes, 0, n - |d.sessions|)
  }

  function OwnerIn(nodes: seq<Daemon>, at: nat, n: nat): (seq<nat>, nat)
    requires n < |ReachAll(nodes)|
    decreases nodes, 0
  {
    if n < |Reach(nodes[0])| then
      var (path, k) := Owner(nodes[0], n);
      ([at] + path, k)
    else OwnerIn(nodes[1..], at + 1, n - |Reach(nodes[0])|)
  }

  function Height(d: Daemon): nat
    decreases d, 1
  {
    HeightAll(d.nodes)
  }

  function HeightAll(nodes: seq<Daemon>): nat
    decreases nodes, 0
  {
    if nodes == [] then 0
    else
      var here, others := 1 + Height(nodes[0]), HeightAll(nodes[1..]);
      if here > others then here else others
  }

  function At(d: Daemon, path: seq<nat>): Option<Daemon> {
    if path == [] then Some(d)
    else if path[0] < |d.nodes| then At(d.nodes[path[0]], path[1..])
    else None
  }

  lemma {:induction false} FirstMatchPlus(a: seq<Session>, b: seq<Session>, target: Id, answers: Session -> bool)
    ensures FirstMatch(a + b, target, answers) ==
      (if FirstMatch(a, target, answers) < |a| then FirstMatch(a, target, answers)
       else |a| + FirstMatch(b, target, answers))
  {
    if a == [] {
      assert a + b == b;
    } else {
      assert (a + b)[1..] == a[1..] + b;
      FirstMatchPlus(a[1..], b, target, answers);
    }
  }

  /** A delivery that carries the target unchanged up to the last post, which clears it. */
  ghost predicate ClearsLast(r: Delivery, target: Id) {
    && |r.targets| == |r.path| + 1
    && (forall k :: 0 <= k < |r.path| ==> r.targets[k] == Some(target))
    && r.targets[|r.path|] == None
  }

  lemma {:induction false} RouteIsFirst(d: Daemon, target: Id, answers: Session -> bool)
    ensures var n := FirstMatch(Reach(d), target, answers); var r := Route(d, target, answers);
      && (r.Some? <==> n < |Reach(d)|)
      && (r.Some? ==>
            EndsAt(r, Owner(d, n)) && |r.value.path| <= Height(d) && ClearsLast(r.value, target))
    decreases d, 1
  {
    FirstMatchPlus(d.sessions, ReachAll(d.nodes), target, answers);
    RouteNodesIsFirst(d.nodes, 0, target, answers);
  }

  lemma ClearsOneMore(r: Delivery, at: nat, target: Id)
    requires ClearsLast(r, target)
    ensures ClearsLast(OneHop(r, at, target), target)
  {
  }

  lemma {:induction false} RouteNodesIsFirst(nodes: seq<Daemon>, at: nat, target: Id, answers: Session -> bool)
    ensures var n := FirstMatch(ReachAll(nodes), target, answers); var r := RouteNodes(nodes, at, target, answers);
      && (r.Some? <==> n < |ReachAll(nodes)|)
      && (r.Some? ==>
            EndsAt(r, OwnerIn(nodes, at, n)) && |r.value.path| <= HeightAll(nodes) && ClearsLast(r.value, target))
    decreases nodes, 0
  {
    if nodes != [] && nodes[0].online {
      var here := Reach(nodes[0]);
      var n := FirstMatch(here, target, answers);
      FirstMatchPlus(here, ReachAll(nodes[1..]), target, answers);
      RouteIsFirst(nodes[0], target, answers);
      if n < |here| {
        assert here[n] in here;
        ReachWithinView(nodes[0], here[n]);
        assert Lists(View(nodes[0]), target);
        ClearsOneMore(Route(nodes[0], target, answers).value, at, target);
      } else {
        RouteNodesIsFirst(nodes[1..], at + 1, target, answers);
        assert RouteNodes(nodes, at, target, answers) == RouteNodes(nodes[1..], at + 1, target, answers);
      }
    }
  }

  lemma {:induction false} OwnerOwns(d: Daemon, n: nat)
    requires n < |Reach(d)|
    ensures var (path, k) := Owner(d, n); var owner := At(d, path);
      owner.Some? && k < |owner.value.sessions| && owner.value.sessions[k] == Reach(d)[n]
    decreases d, 1
  {
    if n >= |d.sessions| {
      OwnerInOwns(d, 0, n - |d.sessions|);
      assert d.nodes[0..] == d.nodes;
    }
  }

  lemma {:induction false} OwnerInOwns(d: Daemon, at: nat, n: nat)
    requires at <= |d.nodes| && n < |ReachAll(d.nodes[at..])|
    ensures var (path, k) := OwnerIn(d.nodes[at..], at, n); var owner := At(d, path);
      owner.Some? && k < |owner.value.sessions| && owner.value.sessions[k] == ReachAll(d.nodes[at..])[n]
    decreases d, 0, |d.nodes| - at
  {
    var nodes := d.nodes[at..];
    assert nodes[0] == d.nodes[at] && nodes[1..] == d.nodes[at + 1..];
    if n < |Reach(nodes[0])| {
      OwnerOwns(d.nodes[at], n);
      var (path, k) := Owner(nodes[0], n);
      assert ([at] + path)[1..] == path;
    } else {
      OwnerInOwns(d, at + 1, n - |Reach(nodes[0])|);
    }
  }

  /** A targeted command ends at the daemon that locally owns the first session of the
      reachable view that is routable and whose VM answers; it fails only when there is none.
      It takes at most tree-height node hops and clears Target on the final hop only. */
  lemma {:induction false} TargetedCommandReachesOwner(d: Daemon, target: Id, answers: Session -> bool)
    ensures var r := Route(d, target, answers);
      && (r.None? <==> forall s :: s in Reach(d) ==>
            !(s.id == target && s.vm.Some? && s.vm.value.ip.Some? && answers(s)))
      && (r.Some? ==>
            var owner := At(d, r.value.path); var n := FirstMatch(Reach(d), target, answers);
            && owner.Some? && n < |Reach(d)| && r.value.index < |owner.value.sessions|
            && owner.value.sessions[r.value.index] == Reach(d)[n]
            && |r.value.path| <= Height(d) && ClearsLast(r.value, target))
  {
    RouteIsFirst(d, target, answers);
    var n := FirstMatch(Reach(d), target, answers);
    if n < |Reach(d)| {
      OwnerOwns(d, n);
      assert Reach(d)[n] in Reach(d);
    }
  }

  /** With every node online and answering, that is the first routable entry of the view. */
  lemma {:induction false} FreshTreeRoutesByView(d: Daemon, target: Id, answers: Session -> bool)
    requires AllOnline(d) && forall s :: answers(s)
    ensures var r := Route(d, target, answers); var n := FirstMatch(View(d), target, answers);
      && (r.Some? <==> Lists(View(d), target))
      && (r.Some? ==>
            var owner := At(d, r.value.path);
            owner.Some? && r.value.index < |owner.value.sessions| && owner.value.sessions[r.value.index] == View(d)[n])
  {
    ReachIsView(d);
    TargetedCommandReachesOwner(d, target, answers);
    assert forall s :: s in View(d) <==> exists k :: 0 <= k < |View(d)| && View(d)[k] == s;
  }

  // ---- what an offline node hides

  /** Who owns entry n of the view: node indices from the root, and the place in that daemon's list. */
  function ViewOwner(d: Daemon, n: nat): (seq<nat>, nat)
    requires n < |View(d)|
    decreases d, 1
  {
    if n < |d.sessions| then ([], n) else ViewOwnerIn(d.nodes, 0, n - |d.sessions|)
  }

  function ViewOwnerIn(nodes: seq<Daemon>, at: nat, n: nat): (seq<nat>, nat)
    requires n < |ViewAll(nodes)|
    decreases nodes, 0
  {
    var here := if nodes[0].online then View(nodes[0]) else [];
    if n < |here| then
      var (path, k) := ViewOwner(nodes[0], n);
      ([at] + path, k)
    else ViewOwnerIn(nodes[1..], at + 1, n - |here|)
  }

  lemma {:induction false} ViewOwnerOwns(d: Daemon, n: nat)
    requires n < |View(d)|
    ensures var (path, k) := ViewOwner(d, n); var owner := At(d, path);
      owner.Some? && k < |owner.value.sessions| && owner.value.sessions[k] == View(d)[n]
    decreases d, 1
  {
    if n >= |d.sessions| {
      ViewOwnerInOwns(d, 0, n - |d.sessions|);
      assert d.nodes[0..] == d.nodes;
    }
  }

  lemma {:induction false} ViewOwnerInOwns(d: Daemon, at: nat, n: nat)
    requires at <= |d.nodes| && n < |ViewAll(d.nodes[at..])|
    ensures var (path, k) := ViewOwnerIn(d.nodes[at..], at, n); var owner := At(d, path);
      owner.Some? && k < |owner.value.sessions| && owner.value.sessions[k] == ViewAll(d.nodes[at..])[n]
    decreases d, 0, |d.nodes| - at
  {
    var nodes := d.nodes[at..];
    assert nodes[0] == d.nodes[at] && nodes[1..] == d.nodes[at + 1..];
    var here := if nodes[0].online then View(nodes[0]) else [];
    if n < |here| {
      ViewOwnerOwns(d.nodes[at], n);
      var (path, k) := ViewOwner(nodes[0], n);
      assert ([at] + path)[1..] == path;
    } else {
      ViewOwnerInOwns(d, at + 1, n - |here|);
    }
  }

  /** On the way from the root to the owner of entry n, every node before the one taken is online. */
  predicate Unhidden(d: Daemon, n: nat)
    requires n < |View(d)|
    decreases d, 1
  {
    n < |d.sessions| || UnhiddenIn(d.nodes, n - |d.sessions|)
  }

  predicate UnhiddenIn(nodes: seq<Daemon>, n: nat)
    requires n < |ViewAll(nodes)|
    decreases nodes, 0
  {
    nodes[0].online &&
    if n < |View(nodes[0])| then Unhidden(nodes[0], n) else UnhiddenIn(nodes[1..], n - |View(nodes[0])|)
  }

  predicate EndsAt(r: Option<Delivery>, owner: (seq<nat>, nat)) {
    r.Some? && (r.value.path, r.value.index) == owner
  }

  lemma {:induction false} NoMatchNoRoute(d: Daemon, target: Id, answers: Session -> bool)
    requires FirstMatch(View(d), target, answers) == |View(d)|
    ensures Route(d, target, answers).None?
  {
    TargetedCommandReachesOwner(d, target, answers);
    forall s | s in Reach(d)
      ensures !(Routable(s, target) && answers(s))
    {
      ReachWithinView(d, s);
    }
  }

  lemma {:induction false} PathsStartAt(nodes: seq<Daemon>, at: nat, target: Id, answers: Session -> bool, n: nat)
    ensures var r := RouteNodes(nodes, at, target, answers); r.Some? ==> r.value.path != [] && r.value.path[0] >= at
    ensures n < |ViewAll(nodes)| ==> ViewOwnerIn(nodes, at, n).0 != [] && ViewOwnerIn(nodes, at, n).0[0] >= at
    decreases |nodes|
  {
    if nodes == [] {
    } else {
      var here := if nodes[0].online then View(nodes[0]) else [];
      PathsStartAt(nodes[1..], at + 1, target, answers, if n < |here| then 0 else n - |here|);
    }
  }

  /** A targeted command ends at the first routable answering session of the view if and only if
      no offline node stands before it on the way; otherwise it ends elsewhere or fails. */
  lemma {:induction false} RoutesByViewIff(d: Daemon, target: Id, answers: Session -> bool)
    requires FirstMatch(View(d), target, answers) < |View(d)|
    ensures var n := FirstMatch(View(d), target, answers); var r := Route(d, target, answers);
      EndsAt(r, ViewOwner(d, n)) <==> Unhidden(d, n)
    decreases d, 1
  {
    FirstMatchPlus(d.sessions, ViewAll(d.nodes), target, answers);
    if FirstMatch(d.sessions, target, answers) == |d.sessions| {
      RoutesNodesByViewIff(d.nodes, 0, target, answers);
    }
  }

  lemma {:induction false} RoutesNodesByViewIff(nodes: seq<Daemon>, at: nat, target: Id, answers: Session -> bool)
    requires FirstMatch(ViewAll(nodes), target, answers) < |ViewAll(nodes)|
    ensures var n := FirstMatch(ViewAll(nodes), target, answers); var r := RouteNodes(nodes, at, target, answers);
      EndsAt(r, ViewOwnerIn(nodes, at, n)) <==> UnhiddenIn(nodes, n)
    decreases nodes, 0
  {
    var node, rest := nodes[0], nodes[1..];
    var n := FirstMatch(ViewAll(nodes), target, answers);
    if node.online {
      var here := View(node);
      FirstMatchPlus(here, ViewAll(rest), target, answers);
      if n < |here| {
        assert Routable(here[n], target);
        RoutesByViewIff(node, target, answers);
        PathsStartAt(rest, at + 1, target, answers, 0);
        var later := RouteNodes(rest, at + 1, target, answers);
        HitsHere(at, Route(node, target, answers), later, ViewOwner(node, n), target);
      } else {
        NoMatchNoRoute(node, target, answers);
        RoutesNodesByViewIff(rest, at + 1, target, answers);
      }
    }
  }

  lemma HitsHere(at: nat, r: Option<Delivery>, later: Option<Delivery>, owner: (seq<nat>, nat), target: Id)
    requires later.Some? ==> later.value.path != [] && later.value.path[0] > at
    ensures var above := if r.Some? then Some(OneHop(r.value, at, target)) else later;
      EndsAt(above, ([at] + owner.0, owner.1)) <==> EndsAt(r, owner)
  {
    if r.Some? {
      assert ([at] + r.value.path)[1..] == r.value.path && ([at] + owner.0)[1..] == owner.0;
    }
  }

  /** An offline node hides the sessions of the nodes after it from targeted commands, though
      the view still lists them. */
  lemma OfflineNodeBlocksRouting(target: Id, ip: string)
    ensures var s := Session(target, Some(Vm(Some(ip))));
      var d := Daemon(true, [], [Daemon(false, [], []), Daemon(true, [s], [])]);
      Lists(View(d), target) && Route(d, target, s => true).None?
  {
    var s := Session(target, Some(Vm(Some(ip))));
    var last := Daemon(true, [s], []);
    var d := Daemon(true, [], [Daemon(false, [], []), last]);
    assert d.nodes[1..] == [last] && [last][1..] == [];
    assert View(last) == [s];
    assert ViewAll([last]) == [s];
    assert ViewAll(d.nodes) == [s];
    assert View(d)[0] == s;
  }

  /** The searching and forwarding loops; the recursive call is the post to a node. */
  method HandleSessionForward(d: Daemon, target: Id, answers: Session -> bool) returns (r: Option<Delivery>)
    ensures r == Route(d, target, answers)
    decreases d
  {
    var i := 0;
    while i < |d.sessions|
      invariant 0 <= i <= |d.sessions|
      invariant FirstMatch(d.sessions, target, answers) == i + FirstMatch(d.sessions[i..], target, answers)
    {
      assert d.sessions[i..][1..] == d.sessions[i + 1..];
      if Routable(d.sessions[i], target) && answers(d.sessions[i]) {
        return Some(Delivery([], i, [None]));
      }
      i := i + 1;
    }
    for n := 0 to |d.nodes|
      invariant RouteNodes(d.nodes[n..], n, target, answers) == RouteNodes(d.nodes, 0, target, answers)
    {
      var node := d.nodes[n];
      assert d.nodes[n..][0] == node && d.nodes[n..][1..] == d.nodes[n + 1..];
      if !node.online {
        return None;
      }
      var sessions := View(node);
      var matched := false;
      for k := 0 to |sessions|
        invariant matched <==> exists j :: 0 <= j < k && Routable(sessions[j], target)
        invariant matched ==> Route(node, target, answers).None?
      {
        if Routable(sessions[k], target) {
          matched := true;
          var reply := HandleSessionForward(node, target, answers);
          if reply.Some? {
            assert Lists(sessions, target);
            return Some(Delivery([n] + reply.value.path, reply.value.index, [Some(target)] + reply.value.targets));
          }
        }
      }
      assert matched <==> Lists(sessions, target);
    }
    r := None;
  }

  // ---------------------------------------------------------------- signaling

  predicate Signals(s: Session, token: Id) { s.id == token && s.vm.Some? }

  function FirstSignal(sessions: seq<Session>, token: Id): (k: nat)
    ensures k <= |sessions|
    ensures k < |sessions| ==> Signals(sessions[k], token)
    ensures forall j :: 0 <= j < k ==> !Signals(sessions[j], token)
  {
    if sessions == [] || Signals(sessions[0], token) then 0 else 1 + FirstSignal(sessions[1..], token)
  }

  /** The daemons HandleSignaling passes a token through, and the session it ends at; here
      offline nodes are passed over. */
  function SignalRoute(d: Daemon, token: Id): Option<(seq<nat>, nat)>
    decreases d, 1
  {
    var k := FirstSignal(d.sessions, token);
    if k < |d.sessions| then Some(([], k)) else SignalNodes(d.nodes, 0, token)
  }

  function SignalNodes(nodes: seq<Daemon>, at: nat, token: Id): Option<(seq<nat>, nat)>
    decreases nodes, 0
  {
    if nodes == [] then None
    else if nodes[0].online && FirstSignal(View(nodes[0]), token) < |View(nodes[0])| then
      var r := SignalRoute(nodes[0], token);
      if r.None? then None else Some(([at] + r.value.0, r.value.1))
    else SignalNodes(nodes[1..], at + 1, token)
  }

  lemma {:induction false} FirstSignalPlus(a: seq<Session>, b: seq<Session>, token: Id)
    ensures FirstSignal(a + b, token) ==
      (if FirstSignal(a, token) < |a| then FirstSignal(a, token) else |a| + FirstSignal(b, token))
  {
    if a == [] {
      assert a + b == b;
    } else {
      assert (a + b)[1..] == a[1..] + b;
      FirstSignalPlus(a[1..], b, token);
    }
  }

  /** In every tree signaling ends at the first VM session of the view with that id, offline nodes or
      not, and fails only when the view has none. */
  lemma {:induction false} SignalFindsFirst(d: Daemon, token: Id)
    ensures var n := FirstSignal(View(d), token);
      SignalRoute(d, token) == if n < |View(d)| then Some(ViewOwner(d, n)) else None
    decreases d, 1
  {
    FirstSignalPlus(d.sessions, ViewAll(d.nodes), token);
    SignalNodesFindFirst(d.nodes, 0, token);
  }

  ghost predicate NodesSignalFirst(nodes: seq<Daemon>, at: nat, token: Id) {
    var n := FirstSignal(ViewAll(nodes), token);
    SignalNodes(nodes, at, token) == if n < |ViewAll(nodes)| then Some(ViewOwnerIn(nodes, at, n)) else None
  }

  lemma {:induction false} SignalNodesFindFirst(nodes: seq<Daemon>, at: nat, token: Id)
    ensures NodesSignalFirst(nodes, at, token)
    decreases nodes, 0
  {
    if nodes == [] {
    } else {
      var here := if nodes[0].online then View(nodes[0]) else [];
      if FirstSignal(here, token) < |here| {
        SignalFindsFirst(nodes[0], token);
        SignalHere(nodes, at, token);
      } else {
        SignalNodesFindFirst(nodes[1..], at + 1, token);
        SignalLater(nodes, at, token);
      }
    }
  }

  lemma SignalHere(nodes: seq<Daemon>, at: nat, token: Id)
    requires nodes != [] && nodes[0].online
    requires var n := FirstSignal(View(nodes[0]), token);
      n < |View(nodes[0])| && SignalRoute(nodes[0], token) == Some(ViewOwner(nodes[0], n))
    ensures NodesSignalFirst(nodes, at, token)
  {
    FirstSignalPlus(View(nodes[0]), ViewAll(nodes[1..]), token);
  }

  lemma SignalLater(nodes: seq<Daemon>, at: nat, token: Id)
    requires nodes != [] && (nodes[0].online ==> FirstSignal(View(nodes[0]), token) == |View(nodes[0])|)
    requires NodesSignalFirst(nodes[1..], at + 1, token)
    ensures NodesSignalFirst(nodes, at, token)
  {
    var here := if nodes[0].online then View(nodes[0]) else [];
    FirstSignalPlus(here, ViewAll(nodes[1..]), token);
    assert SignalNodes(nodes, at, token) == SignalNodes(nodes[1..], at + 1, token);
  }

  /** HandleSignaling's loops; the recursive call is the request that follows the returned address. */
  method HandleSignaling(d: Daemon, token: Id) returns (r: Option<(seq<nat>, nat)>)
    ensures r == SignalRoute(d, token)
    ensures r.None? <==> forall s :: s in View(d) ==> !(s.id == token && s.vm.Some?)
    decreases d
  {
    SignalFindsFirst(d, token);
    ViewSignals(d, token);
    for i := 0 to |d.sessions|
      invariant forall j :: 0 <= j < i ==> !Signals(d.sessions[j], token)
    {
      if Signals(d.sessions[i], token) {
        return Some(([], i));
      }
    }
    for n := 0 to |d.nodes|
      invariant SignalRoute(d, token) == SignalNodes(d.nodes[n..], n, token)
    {
      assert d.nodes[n..][0] == d.nodes[n] && d.nodes[n..][1..] == d.nodes[n + 1..];
      if d.nodes[n].online && FirstSignal(View(d.nodes[n]), token) < |View(d.nodes[n])| {
        var rest := HandleSignaling(d.nodes[n], token);
        return if rest.None? then None else Some(([n] + rest.value.0, rest.value.1));
      }
    }
    r := None;
  }

  lemma ViewSignals(d: Daemon, token: Id)
    ensures FirstSignal(View(d), token) == |View(d)| <==> forall s :: s in View(d) ==> !Signals(s, token)
  {
    if FirstSignal(View(d), token) < |View(d)| {
      assert View(d)[FirstSignal(View(d), token)] in View(d);
    }
  }

  /** In a fresh tree whose VMs all have addresses, a signaling token and a targeted command
      for the same session id end at the same session of the same daemon. */
  lemma {:induction false} SignalingAgreesWithRouting(d: Daemon, token: Id, answers: Session -> bool)
    requires AllOnline(d) && forall s :: answers(s)
    requires forall s :: s in View(d) && s.vm.Some? ==> s.vm.value.ip.Some?
    ensures var r := Route(d, token, answers);
      SignalRoute(d, token) == if r.None? then None else Some((r.value.path, r.value.index))
    decreases d, 1
  {
    SameFirst(d.sessions, token, answers);
    SignalNodesAgree(d.nodes, 0, token, answers);
  }

  lemma {:induction false} SameFirst(sessions: seq<Session>, token: Id, answers: Session -> bool)
    requires forall s :: answers(s)
    requires forall s :: s in sessions && s.vm.Some? ==> s.vm.value.ip.Some?
    ensures FirstSignal(sessions, token) == FirstMatch(sessions, token, answers)
    ensures FirstSignal(sessions, token) < |sessions| <==> Lists(sessions, token)
  {
    var a, b := FirstSignal(sessions, token), FirstMatch(sessions, token, answers);
    assert forall k :: 0 <= k < |sessions| ==> (Signals(sessions[k], token) <==> Routable(sessions[k], token));
    assert a < |sessions| ==> Routable(sessions[a], token);
    assert b < |sessions| ==> Signals(sessions[b], token);
  }

  lemma {:induction false} SignalNodesAgree(nodes: seq<Daemon>, at: nat, token: Id, answers: Session -> bool)
    requires forall k :: 0 <= k < |nodes| ==> nodes[k].online && AllOnline(nodes[k])
    requires forall s :: answers(s)
    requires forall s :: s in ViewAll(nodes) && s.vm.Some? ==> s.vm.value.ip.Some?
    ensures var r := RouteNodes(nodes, at, token, answers);
      SignalNodes(nodes, at, token) == if r.None? then None else Some((r.value.path, r.value.index))
    decreases nodes, 0
  {
    if nodes == [] {
    } else {
      SameFirst(View(nodes[0]), token, answers);
      SignalingAgreesWithRouting(nodes[0], token, answers);
      FreshTreeRoutesByView(nodes[0], token, answers);
      SignalNodesAgree(nodes[1..], at + 1, token, answers);
    }
  }

  // ---------------------------------------------------------------- closing

  function IdOf(s: Session): Id { s.id }

  predicate Has(sessions: seq<Session>, id: Id) {
    exists k :: 0 <= k < |sessions| && sessions[k].id == id
  }

  /** CloseSession: the first reachable node whose view lists the id closes it; otherwise the
      daemon closes it itself. */
  function Close(d: Daemon, id: Id): Daemon
    decreases d, 1
  {
    if Has(ViewAll(d.nodes), id) then d.(nodes := CloseIn(d.nodes, id))
    else d.(sessions := WithoutKey(d.sessions, IdOf, id))
  }

  function CloseIn(nodes: seq<Daemon>, id: Id): seq<Daemon>
    decreases nodes, 0
  {
    if nodes == [] then []
    else if nodes[0].online && Has(View(nodes[0]), id) then [Close(nodes[0], id)] + nodes[1..]
    else [nodes[0]] + CloseIn(nodes[1..], id)
  }

  /** The tree with the id removed from every daemon. */
  function Erased(d: Daemon, id: Id): Daemon
    decreases d, 1
  {
    Daemon(d.online, WithoutKey(d.sessions, IdOf, id), ErasedAll(d.nodes, id))
  }

  function ErasedAll(nodes: seq<Daemon>, id: Id): seq<Daemon>
    decreases nodes, 0
  {
    if nodes == [] then [] else [Erased(nodes[0], id)] + ErasedAll(nodes[1..], id)
  }

  /** How many daemons of the view hold a session with this id. */
  function Holders(d: Daemon, id: Id): nat
    decreases d, 1
  {
    (if Has(d.sessions, id) then 1 else 0) + HoldersAll(d.nodes, id)
  }

  function HoldersAll(nodes: seq<Daemon>, id: Id): nat
    decreases nodes, 0
  {
    if nodes == [] then 0
    else (if nodes[0].online then Holders(nodes[0], id) else 0) + HoldersAll(nodes[1..], id)
  }

  lemma HasPlus(a: seq<Session>, b: seq<Session>, id: Id)
    ensures Has(a + b, id) <==> Has(a, id) || Has(b, id)
  {
    if Has(a + b, id) {
      var k :| 0 <= k < |a + b| && (a + b)[k].id == id;
      assert if k < |a| then a[k].id == id else b[k - |a|].id == id;
    }
    if Has(a, id) {
      var k :| 0 <= k < |a| && a[k].id == id;
      assert (a + b)[k].id == id;
    }
    if Has(b, id) {
      var k :| 0 <= k < |b| && b[k].id == id;
      assert (a + b)[|a| + k].id == id;
    }
  }

  lemma {:induction false} WithoutIdHas(sessions: seq<Session>, id: Id)
    ensures !Has(WithoutKey(sessions, IdOf, id), id)
    ensures WithoutKey(WithoutKey(sessions, IdOf, id), IdOf, id) == WithoutKey(sessions, IdOf, id)
    ensures !Has(sessions, id) <==> WithoutKey(sessions, IdOf, id) == sessions
  {
    var rest := WithoutKey(sessions, IdOf, id);
    forall s | s in rest
      ensures s.id != id
    {
      WithoutKeyIn(sessions, IdOf, id, s);
    }
    WithoutKeyAbsent(rest, IdOf, id);
    if !Has(sessions, id) {
      WithoutKeyAbsent(sessions, IdOf, id);
    }
  }

  lemma {:induction false} ViewErased(d: Daemon, id: Id)
    ensures View(Erased(d, id)) == WithoutKey(View(d), IdOf, id)
    ensures Has(View(d), id) <==> Holders(d, id) > 0
    decreases d, 1
  {
    ViewErasedAll(d.nodes, id);
    WithoutKeyPlus(d.sessions, ViewAll(d.nodes), IdOf, id);
    HasPlus(d.sessions, ViewAll(d.nodes), id);
  }

  lemma {:induction false} ViewErasedAll(nodes: seq<Daemon>, id: Id)
    ensures ViewAll(ErasedAll(nodes, id)) == WithoutKey(ViewAll(nodes), IdOf, id)
    ensures Has(ViewAll(nodes), id) <==> HoldersAll(nodes, id) > 0
    decreases nodes, 0
  {
    if nodes == [] {
    } else {
      var here := if nodes[0].online then View(nodes[0]) else [];
      ViewErased(nodes[0], id);
      ViewErasedAll(nodes[1..], id);
      WithoutKeyPlus(here, ViewAll(nodes[1..]), IdOf, id);
      HasPlus(here, ViewAll(nodes[1..]), id);
      assert ErasedAll(nodes, id)[1..] == ErasedAll(nodes[1..], id);
    }
  }

  /** Closing takes the id away from exactly one daemon and changes nothing else anywhere. */
  lemma {:induction false} CloseRemovesOneHolder(d: Daemon, id: Id)
    ensures Erased(Close(d, id), id) == Erased(d, id) && Close(d, id).online == d.online
    ensures Holders(Close(d, id), id) == if Holders(d, id) == 0 then 0 else Holders(d, id) - 1
    decreases d, 1
  {
    ViewErasedAll(d.nodes, id);
    WithoutIdHas(d.sessions, id);
    CloseInRemovesOneHolder(d.nodes, id);
  }

  lemma {:induction false} CloseInRemovesOneHolder(nodes: seq<Daemon>, id: Id)
    ensures ErasedAll(CloseIn(nodes, id), id) == ErasedAll(nodes, id)
    ensures HoldersAll(CloseIn(nodes, id), id) == if HoldersAll(nodes, id) == 0 then 0 else HoldersAll(nodes, id) - 1
    decreases nodes, 0
  {
    if nodes == [] {
    } else {
      ViewErased(nodes[0], id);
      CloseRemovesOneHolder(nodes[0], id);
      CloseInRemovesOneHolder(nodes[1..], id);
      var closed := CloseIn(nodes, id);
      assert closed[1..] == if nodes[0].online && Has(View(nodes[0]), id) then nodes[1..] else CloseIn(nodes[1..], id);
    }
  }

  /** After CloseSession at the root the refreshed view is the old view without the id if and
      only if at most one daemon held it; in any case every other session stays where it was. */
  lemma {:induction false} CloseIsExact(d: Daemon, id: Id)
    ensures View(Close(d, id)) == WithoutKey(View(d), IdOf, id) <==> Holders(d, id) <= 1
    ensures Erased(Close(d, id), id) == Erased(d, id)
  {
    CloseRemovesOneHolder(d, id);
    ViewErased(d, id);
    ViewErased(Close(d, id), id);
    WithoutIdHas(View(d), id);
    WithoutIdHas(View(Close(d, id)), id);
  }

  lemma UniquePlus(a: seq<Session>, b: seq<Session>, id: Id)
    requires UniqueKeys(a + b, IdOf)
    ensures UniqueKeys(a, IdOf) && UniqueKeys(b, IdOf) && !(Has(a, id) && Has(b, id))
  {
    forall i, j | 0 <= i < j < |a|
      ensures a[i].id != a[j].id
    {
      assert (a + b)[i] == a[i] && (a + b)[j] == a[j];
    }
    forall i, j | 0 <= i < j < |b|
      ensures b[i].id != b[j].id
    {
      assert (a + b)[|a| + i] == b[i] && (a + b)[|a| + j] == b[j];
    }
    forall i, j | 0 <= i < |a| && 0 <= j < |b|
      ensures a[i].id != b[j].id
    {
      assert (a + b)[i] == a[i] && (a + b)[|a| + j] == b[j];
    }
  }

  lemma {:induction false} UniqueMeansOneHolder(d: Daemon, id: Id)
    requires UniqueKeys(View(d), IdOf)
    ensures Holders(d, id) <= 1
    decreases d, 1
  {
    UniquePlus(d.sessions, ViewAll(d.nodes), id);
    ViewErasedAll(d.nodes, id);
    UniqueMeansOneHolderIn(d.nodes, id);
  }

  lemma {:induction false} UniqueMeansOneHolderIn(nodes: seq<Daemon>, id: Id)
    requires UniqueKeys(ViewAll(nodes), IdOf)
    ensures HoldersAll(nodes, id) <= 1
    decreases nodes, 0
  {
    if nodes == [] {
    } else {
      var here := if nodes[0].online then View(nodes[0]) else [];
      UniquePlus(here, ViewAll(nodes[1..]), id);
      ViewErased(nodes[0], id);
      ViewErasedAll(nodes[1..], id);
      if nodes[0].online {
        UniqueMeansOneHolder(nodes[0], id);
      }
      UniqueMeansOneHolderIn(nodes[1..], id);
    }
  }

  /** With unique ids, closing at the root removes that id from the view and nothing else. */
  lemma {:induction false} CloseSessionUpdatesView(d: Daemon, id: Id)
    requires UniqueKeys(View(d), IdOf)
    ensures View(Close(d, id)) == WithoutKey(View(d), IdOf, id)
    ensures Erased(Close(d, id), id) == Erased(d, id)
  {
    UniqueMeansOneHolder(d, id);
    CloseIsExact(d, id);
  }
}
