/** What the ticket queue does not give: GPUs handed out by interleaved deployments. */
module GpuClaims {
  import opened Seqs
  import Host
  import GpuQueue

  type Ticket = GpuQueue.Ticket
  type Gpu = Host.Gpu
  type Domain = Host.Domain
  type Addr = Host.Addr

  /** A GPU handed to a deployment; `vm` is its machine once that runs. */
  datatype Claim = Claim(gpu: Gpu, vm: Option<nat>)

  /** `claims` are the deployments between the return of waitForGPU and their end. */
  datatype State = State(queue: GpuQueue.State, domains: seq<Domain>, claims: map<Ticket, Claim>)

  datatype Event =
    | Queue(e: GpuQueue.Event)                   // enqueue, head check, wake-up, removal
    | Look(w: Ticket, gpus: Option<seq<Gpu>>)    // one takeGPU; None: the query fails
    | Launch(w: Ticket, vm: nat)                 // the machine is created
    | Drop(w: Ticket)                            // the deployment fails before that
    | Stop(vm: nat)                              // a machine ends
    | Foreign(dom: Domain)                       // somebody else's machine appears

  ghost function Result(gpus: Option<seq<Gpu>>, domains: seq<Domain>): GpuQueue.TakeResult {
    if gpus.None? then GpuQueue.Failed
    else if Host.FirstFree(gpus.value, domains).None? then GpuQueue.NoneFree
    else GpuQueue.Found
  }

  ghost predicate Named(domains: seq<Domain>, vm: nat) {
    exists d :: d in domains && d.id == vm
  }

  /** A step that is not enabled leaves the state alone; machine names are fresh. */
  ghost function Step(s: State, e: Event): State {
    match e
    case Queue(q) => if q.TryTake? then s else s.(queue := GpuQueue.Step(s.queue, q))
    case Look(w, gpus) =>
      var result := Result(gpus, s.domains);
      var s' := s.(queue := GpuQueue.Step(s.queue, GpuQueue.TryTake(w, result)));
      if GpuQueue.At(s.queue, w) != Some(GpuQueue.Claiming) || !result.Found? then s'
      else s'.(claims := s.claims[w := Claim(Host.FirstFree(gpus.value, s.domains).value, None)])
    case Launch(w, vm) =>
      if w !in s.claims || s.claims[w].vm.Some? || Named(s.domains, vm) then s
      else
        var gpu := s.claims[w].gpu;
        s.(domains := s.domains + [Host.Domain(vm, true, gpu.group)], claims := s.claims[w := Claim(gpu, Some(vm))])
    case Drop(w) => if w in s.claims && s.claims[w].vm.None? then s.(claims := s.claims - {w}) else s
    case Stop(vm) =>
      var claims := map w | w in s.claims && s.claims[w].vm != Some(vm) :: s.claims[w];
      s.(domains := Host.WithoutDomain(s.domains, vm), claims := claims)
    case Foreign(dom) => if Named(s.domains, dom.id) then s else s.(domains := s.domains + [dom])
  }

  ghost const EMPTY := State(GpuQueue.EMPTY, [], map[])

  ghost function Run(events: seq<Event>): State {
    if events == [] then EMPTY else Step(Run(events[..|events| - 1]), events[|events| - 1])
  }

  ghost predicate Backed(s: State, c: Claim) {
    c.vm.Some? ==> Host.Domain(c.vm.value, true, c.gpu.group) in s.domains
  }

  ghost predicate Inv(s: State) {
    && GpuQueue.Inv(s.queue)
    && (forall w :: w in s.claims ==> w in s.queue.arrivals)
    && (forall w :: w in s.claims && w in s.queue.phase ==> s.queue.phase[w] == GpuQueue.Leaving(GpuQueue.Took))
    && (forall w :: w in s.claims ==> Backed(s, s.claims[w]))
  }

  lemma TookStays(q: GpuQueue.State, w: Ticket, e: GpuQueue.Event)
    requires w in q.arrivals && (w in q.phase ==> q.phase[w] == GpuQueue.Leaving(GpuQueue.Took)) && !e.TryTake?
    ensures var q' := GpuQueue.Step(q, e);
      w in q'.arrivals && (w in q'.phase ==> q'.phase[w] == GpuQueue.Leaving(GpuQueue.Took))
  {
  }

  lemma QueueKeepsInv(s: State, q: GpuQueue.Event)
    requires Inv(s) && !q.TryTake?
    ensures Inv(Step(s, Queue(q)))
  {
    GpuQueue.StepKeepsInv(s.queue, q);
    forall w | w in s.claims
      ensures var q' := GpuQueue.Step(s.queue, q);
        w in q'.arrivals && (w in q'.phase ==> q'.phase[w] == GpuQueue.Leaving(GpuQueue.Took))
    {
      TookStays(s.queue, w, q);
    }
  }

  lemma TookStaysOnLook(q: GpuQueue.State, v: Ticket, w: Ticket, result: GpuQueue.TakeResult)
    requires v in q.arrivals && (v in q.phase ==> q.phase[v] == GpuQueue.Leaving(GpuQueue.Took))
    ensures var q' := GpuQueue.Step(q, GpuQueue.TryTake(w, result));
      v in q'.arrivals && (v in q'.phase ==> q'.phase[v] == GpuQueue.Leaving(GpuQueue.Took))
  {
  }

  lemma LookKeepsInv(s: State, w: Ticket, gpus: Option<seq<Gpu>>)
    requires Inv(s)
    ensures Inv(Step(s, Look(w, gpus)))
  {
    var result := Result(gpus, s.domains);
    var q' := GpuQueue.Step(s.queue, GpuQueue.TryTake(w, result));
    GpuQueue.StepKeepsInv(s.queue, GpuQueue.TryTake(w, result));
    forall v | v in s.claims
      ensures v in q'.arrivals && (v in q'.phase ==> q'.phase[v] == GpuQueue.Leaving(GpuQueue.Took))
    {
      TookStaysOnLook(s.queue, v, w, result);
    }
    if GpuQueue.At(s.queue, w) == Some(GpuQueue.Claiming) && result.Found? {
      assert w in s.queue.line && w in q'.arrivals && q'.phase[w] == GpuQueue.Leaving(GpuQueue.Took);
    } else {
      assert Step(s, Look(w, gpus)) == s.(queue := q');
    }
  }

  lemma {:induction false} StepKeepsInv(s: State, e: Event)
    requires Inv(s)
    ensures Inv(Step(s, e))
  {
    match e
    case Queue(q) =>
      if !q.TryTake? {
        QueueKeepsInv(s, q);
      }
    case Look(w, gpus) => LookKeepsInv(s, w, gpus);
    case Stop(vm) =>
      forall w | w in Step(s, e).claims
        ensures Backed(Step(s, e), s.claims[w])
      {
        var c := s.claims[w];
        if c.vm.Some? {
          Host.WithoutDomainIn(s.domains, vm, Host.Domain(c.vm.value, true, c.gpu.group));
        }
      }
    case _ =>
  }

  lemma {:induction false} RunKeepsInv(events: seq<Event>)
    ensures Inv(Run(events))
  {
    if events == [] {
    } else {
      RunKeepsInv(events[..|events| - 1]);
      StepKeepsInv(Run(events[..|events| - 1]), events[|events| - 1]);
    }
  }

  // ---- what the events accomplish

  /** A look of whoever has the turn claims the first free GPU and nothing else. */
  lemma LookClaimsFirstFree(s: State, w: Ticket, gpus: seq<Gpu>)
    requires GpuQueue.At(s.queue, w) == Some(GpuQueue.Claiming)
    ensures var s' := Step(s, Look(w, Some(gpus))); var first := Host.FirstFree(gpus, s.domains);
      && s'.claims == (if first.Some? then s.claims[w := Claim(first.value, None)] else s.claims)
      && s'.domains == s.domains
      && GpuQueue.At(s'.queue, w) == Some(if first.Some? then GpuQueue.Leaving(GpuQueue.Took) else GpuQueue.Claiming)
  {
  }

  /** A launched claim is backed by a running machine that holds its GPU, which no look finds while it
      runs. */
  lemma LaunchBacks(s: State, w: Ticket, vm: nat)
    requires w in s.claims && s.claims[w].vm.None? && !Named(s.domains, vm)
    ensures var s' := Step(s, Launch(w, vm)); var g := s.claims[w].gpu;
      && s'.domains == s.domains + [Host.Domain(vm, true, g.group)]
      && s'.claims == s.claims[w := Claim(g, Some(vm))] && s'.queue == s.queue
      && forall gpus: seq<Gpu>, a :: Host.FirstFree(gpus, s'.domains).Some? && a in g.group ==>
           a !in Host.FirstFree(gpus, s'.domains).value.group
  {
    var s', g := Step(s, Launch(w, vm)), s.claims[w].gpu;
    var dom := Host.Domain(vm, true, g.group);
    assert dom in s'.domains;
    forall gpus: seq<Gpu>
      ensures Host.FirstFree(gpus, s'.domains).Some? ==>
        forall a :: a in g.group ==> a !in Host.FirstFree(gpus, s'.domains).value.group
    {
      Host.HeldGpuIsNotFound(gpus, s'.domains, dom, g);
    }
  }

  /** When the machine stops, the claim is over and nobody else's is touched. */
  lemma StopEnds(s: State, vm: nat)
    ensures var s' := Step(s, Stop(vm));
      && !Named(s'.domains, vm) && s'.queue == s.queue
      && (forall d: Domain :: d.id != vm ==> (d in s'.domains <==> d in s.domains))
      && (forall w :: w in s'.claims <==> w in s.claims && s.claims[w].vm != Some(vm))
      && (forall w :: w in s'.claims ==> s'.claims[w] == s.claims[w])
  {
    forall d ensures d in Host.WithoutDomain(s.domains, vm) <==> d in s.domains && d.id != vm {
      Host.WithoutDomainIn(s.domains, vm, d);
    }
  }

  /** A deployment that fails before its machine exists gives its GPU up. */
  lemma DropGivesUp(s: State, w: Ticket)
    requires w in s.claims && s.claims[w].vm.None?
    ensures Step(s, Drop(w)) == s.(claims := s.claims - {w})
  {
  }

  // ---------------------------------------------------------------- exclusivity

  ghost predicate Apart(a: Gpu, b: Gpu) {
    forall x :: x in a.group ==> x !in b.group
  }

  /** No two unfinished deployments have been given GPUs that share an address. */
  ghost predicate Exclusive(s: State) {
    forall v, w :: v in s.claims && w in s.claims && v != w ==> Apart(s.claims[v].gpu, s.claims[w].gpu)
  }

  ghost predicate InUse(a: Addr, domains: seq<Domain>) {
    exists d :: d in domains && d.running && a in d.hostdevs
  }

  /** Every address handed out is already held by a running machine: all claims have launched. */
  ghost predicate HandedOver(s: State) {
    forall v, a :: v in s.claims && s.claims[v].vm.None? && a in s.claims[v].gpu.group ==> InUse(a, s.domains)
  }

  /** A free GPU avoids every claim whose machine runs, and every other one once it is held. */
  lemma FreeAvoidsHeld(s: State, v: Ticket, g: Gpu)
    requires Inv(s) && v in s.claims && Host.Free(g, s.domains)
    requires forall a :: s.claims[v].vm.None? && a in s.claims[v].gpu.group ==> InUse(a, s.domains)
    ensures Apart(s.claims[v].gpu, g) && Apart(g, s.claims[v].gpu)
  {
    var c := s.claims[v];
    forall a | a in c.gpu.group
      ensures a !in g.group
    {
      if c.vm.Some? {
        var dom := Host.Domain(c.vm.value, true, c.gpu.group);
        assert dom in s.domains && !Host.Holds(dom, g);
      } else {
        var d :| d in s.domains && d.running && a in d.hostdevs;
        assert !Host.Holds(d, g);
      }
    }
  }

  lemma LookKeepsExclusive(s: State, w: Ticket, gpus: Option<seq<Gpu>>)
    requires Inv(s) && Exclusive(s) && HandedOver(s)
    ensures Exclusive(Step(s, Look(w, gpus)))
  {
    if GpuQueue.At(s.queue, w) == Some(GpuQueue.Claiming) && Result(gpus, s.domains).Found? {
      var g := Host.FirstFree(gpus.value, s.domains).value;
      forall v | v in s.claims
        ensures Apart(s.claims[v].gpu, g) && Apart(g, s.claims[v].gpu)
      {
        FreeAvoidsHeld(s, v, g);
      }
    }
  }

  /** The next claim is sure to be exclusive, whatever the GPU query lists, if and only if every
      earlier claim has launched its machine (or its addresses are held some other way). */
  lemma {:induction false} LookIsSafeIff(s: State, w: Ticket)
    requires Inv(s) && Exclusive(s) && GpuQueue.At(s.queue, w) == Some(GpuQueue.Claiming)
    ensures (forall gpus :: Exclusive(Step(s, Look(w, gpus)))) <==> HandedOver(s)
  {
    if HandedOver(s) {
      forall gpus
        ensures Exclusive(Step(s, Look(w, gpus)))
      {
        LookKeepsExclusive(s, w, gpus);
      }
    } else {
      var v, a :| v in s.claims && s.claims[v].vm.None? && a in s.claims[v].gpu.group && !InUse(a, s.domains);
      var g := Host.Gpu("", [a], true);
      assert Host.Free(g, s.domains);
      assert Host.FirstFree([g], s.domains) == Some(g);
      var s' := Step(s, Look(w, Some([g])));
      assert s'.claims[v] == s.claims[v] && s'.claims[w].gpu == g && a in g.group;
      assert !Apart(s'.claims[v].gpu, s'.claims[w].gpu);
    }
  }

  // ---- one inventory

  /** The GPUs of a host: they share no address, and each has one. */
  ghost predicate Inventory(gpus: seq<Gpu>) {
    && (forall g :: g in gpus ==> g.group != [])
    && (forall g, h :: g in gpus && h in gpus && g != h ==> Apart(g, h))
  }

  /** Every claim is of a GPU of the inventory. */
  ghost predicate ClaimsWithin(s: State, gpus: seq<Gpu>) {
    forall w :: w in s.claims ==> s.claims[w].gpu in gpus
  }

  lemma {:induction false} InventoryRun(events: seq<Event>, gpus: seq<Gpu>)
    requires forall e :: e in events && e.Look? && e.gpus.Some? ==> e.gpus.value == gpus
    ensures ClaimsWithin(Run(events), gpus)
  {
    if events == [] {
    } else {
      assert events[|events| - 1] in events;
      InventoryRun(events[..|events| - 1], gpus);
    }
  }

  lemma LaunchedIsActive(s: State, c: Claim)
    requires Backed(s, c) && c.vm.Some? && c.gpu.group != []
    ensures Host.Active(c.gpu, s.domains)
  {
    var dom := Host.Domain(c.vm.value, true, c.gpu.group);
    assert c.gpu.group[0] in dom.hostdevs;
    assert dom in s.domains && Host.Holds(dom, c.gpu);
  }

  /** With an inventory the next look collides with an earlier claim if and only if the first free
      GPU has been claimed by a deployment that has not launched its machine. */
  lemma {:induction false} LookCollidesIff(s: State, w: Ticket, gpus: seq<Gpu>)
    requires Inv(s) && Exclusive(s) && Inventory(gpus) && ClaimsWithin(s, gpus)
    requires GpuQueue.At(s.queue, w) == Some(GpuQueue.Claiming) && Host.FirstFree(gpus, s.domains).Some?
    ensures var first := Host.FirstFree(gpus, s.domains).value;
      !Exclusive(Step(s, Look(w, Some(gpus)))) <==>
        exists v :: v in s.claims && s.claims[v].vm.None? && s.claims[v].gpu == first
  {
    var first := Host.FirstFree(gpus, s.domains).value;
    var s' := Step(s, Look(w, Some(gpus)));
    assert s'.claims == s.claims[w := Claim(first, None)];
    assert w !in s.claims;
    if v :| v in s.claims && s.claims[v].vm.None? && s.claims[v].gpu == first {
      assert first.group[0] in first.group;
      assert !Apart(s'.claims[v].gpu, s'.claims[w].gpu);
    } else {
      forall v | v in s.claims
        ensures Apart(s.claims[v].gpu, first) && Apart(first, s.claims[v].gpu)
      {
        if s.claims[v].vm.Some? {
          LaunchedIsActive(s, s.claims[v]);
        }
        assert s.claims[v].gpu != first;
      }
    }
  }

  lemma StepKeepsExclusive(s: State, e: Event)
    requires Inv(s) && Exclusive(s) && (e.Look? ==> HandedOver(s))
    ensures Exclusive(Step(s, e))
  {
    if e.Look? {
      LookKeepsExclusive(s, e.w, e.gpus);
    }
  }

  /** Over every interleaving of queue, launches, failures and other machines: as long as no GPU is
      looked for while a claim waits for its machine, no two unfinished deployments share an
      address. The queue keeps its own promises in any case. */
  lemma {:induction false} ClaimsAreExclusive(events: seq<Event>)
    ensures GpuQueue.Inv(Run(events).queue)
    ensures (forall k :: 0 <= k < |events| && events[k].Look? ==> HandedOver(Run(events[..k]))) ==>
      Exclusive(Run(events))
  {
    RunKeepsInv(events);
    if events == [] {
    } else {
      var front := events[..|events| - 1];
      ClaimsAreExclusive(front);
      RunKeepsInv(front);
      if forall k :: 0 <= k < |events| && events[k].Look? ==> HandedOver(Run(events[..k])) {
        forall k | 0 <= k < |front| && front[k].Look?
          ensures HandedOver(Run(front[..k]))
        {
          assert front[..k] == events[..k] && events[k].Look?;
        }
        StepKeepsExclusive(Run(front), events[|events| - 1]);
      }
    }
  }

  const ONLY := Host.Gpu("gpu", [Host.Addr("0000", "01", "00", "0")], true)

  /** Ticket w is queued, reaches the head, and its owner looks for a GPU. */
  function Claims(w: Ticket): seq<Event> {
    [Queue(GpuQueue.Enqueue(w)), Queue(GpuQueue.CheckHead(w)), Look(w, Some([ONLY]))]
  }

  lemma {:induction false} RunClaims(events: seq<Event>, w: Ticket)
    requires var s := Run(events); s.queue.line == [] && w !in s.queue.arrivals && s.domains == []
    ensures var s := Run(events); var t := Run(events + Claims(w));
      && t.claims == s.claims[w := Claim(ONLY, None)] && t.domains == []
      && t.queue.line == [w] && t.queue.phase == s.queue.phase[w := GpuQueue.Leaving(GpuQueue.Took)]
      && t.queue.arrivals == s.queue.arrivals + [w]
  {
    var s, c := Run(events), Claims(w);
    assert c == [c[0]] + [c[1]] + [c[2]];
    RunSnoc(events, c[0]);
    RunSnoc(events + [c[0]], c[1]);
    RunSnoc(events + [c[0]] + [c[1]], c[2]);
    assert events + c == events + [c[0]] + [c[1]] + [c[2]];
    assert Host.Free(ONLY, []);
    assert Host.FirstFree([ONLY], []) == Some(ONLY);
  }

  lemma RunSnoc(events: seq<Event>, e: Event)
    ensures Run(events + [e]) == Step(Run(events), e)
  {
    assert (events + [e])[..|events|] == events;
  }

  /** The failing run: the first ticket is passed on before its machine exists, and the second is
      given the very same GPU. */
  lemma OverlappingClaims()
    ensures var s := Run([] + Claims(1) + [Queue(GpuQueue.Remove(1))] + Claims(2));
      s.claims == map[1 := Claim(ONLY, None), 2 := Claim(ONLY, None)] && !Exclusive(s)
  {
    RunClaims([], 1);
    var e := [] + Claims(1);
    RunSnoc(e, Queue(GpuQueue.Remove(1)));
    assert GpuQueue.EMPTY.phase[1 := GpuQueue.Leaving(GpuQueue.Took)] - {1} == map[];
    assert [1][..0] == [];
    RunClaims(e + [Queue(GpuQueue.Remove(1))], 2);
    var s := Run(e + [Queue(GpuQueue.Remove(1))] + Claims(2));
    assert !Apart(s.claims[1].gpu, s.claims[2].gpu) by {
      assert ONLY.group[0] in ONLY.group;
    }
  }
}
