/** The cut detector object (cut_detector.rs): each call does to the fields what `After`, `Cut`
    and the closed form of implicit invalidation say, and keeps the invariant. */
module CutDetector {
  import opened Types
  import opened Listings
  import opened DetectorState
  import opened DetectorSweep
  import opened Membership
  import opened MembershipView

  /** `pb::AlertMessage`, as far as the detector reads it; absent fields are `None`. */
  datatype Alert = Alert(src: Option<Endpoint>, dst: Option<Endpoint>, down: bool, rings: seq<int>)

  /** `*ring_number as u8`. */
  function AsByte(ring: int): nat { ring % 256 }

  /** The reports one alert unfolds into. */
  function ReportsOf(a: Alert): seq<Report> {
    if a.src.None? || a.dst.None? then []
    else seq(|a.rings|, i requires 0 <= i < |a.rings| => Report(a.src.value, a.dst.value, a.down, AsByte(a.rings[i])))
  }

  // ---------------------------------------------------------------- what an alert does

  predicate Complete(a: Alert) { a.src.Some? && a.dst.Some? }

  /** The rings of an alert as the detector counts them. */
  function ByteRingsOf(a: Alert): set<nat> { set i | 0 <= i < |a.rings| :: a.rings[i] % 256 }

  /** What an alert with both ends adds to the rings on which `n` is reported. */
  function RingsFrom(a: Alert, n: Endpoint): set<nat> {
    if Complete(a) && a.dst.value == n then ByteRingsOf(a) else {}
  }

  /** The reports of an alert are about its destination, by its source, on its rings. */
  lemma ReportsAreOfAlert(a: Alert)
    ensures ByteRings(ReportsOf(a)) && |ReportsOf(a)| == if Complete(a) then |a.rings| else 0
    ensures forall n {:trigger RingsIn(ReportsOf(a), n)} :: RingsIn(ReportsOf(a), n) == RingsFrom(a, n)
    ensures forall r :: r in ReportsOf(a) ==> r.src == a.src.value && r.dst == a.dst.value && r.down == a.down
  {
    var reports := ReportsOf(a);
    forall n ensures RingsIn(reports, n) == RingsFrom(a, n) {
      if Complete(a) && a.dst.value == n {
        forall i | i in ByteRingsOf(a) ensures i in RingsIn(reports, n) {
          var j :| 0 <= j < |a.rings| && a.rings[j] % 256 == i;
          assert reports[j] in reports && reports[j].ring == i;
        }
        forall i | i in RingsIn(reports, n) ensures i in ByteRingsOf(a) {
          var r :| r in reports && r.dst == n && r.ring == i;
          var j :| 0 <= j < |reports| && reports[j] == r;
          assert a.rings[j] % 256 == i;
        }
      }
    }
  }

  /** What an alert leaves of everything but the progress of its host: its rings are added to its
      destination's as reported by its source, no other host's change, and a failure was seen if it
      reports one on any ring. */
  ghost predicate Registered(before: Detector, a: Alert, after: Detector) {
    && (forall n {:trigger Rings(after, n)} :: Rings(after, n) == Rings(before, n) + RingsFrom(a, n))
    && (forall n, i {:trigger Reporter(after, n, i)} :: i in Rings(after, n) ==>
          Reporter(after, n, i) == if i in Rings(before, n) then Reporter(before, n, i) else a.src.value)
    && (after.seenLinkDown <==> before.seenLinkDown || (Complete(a) && a.down && a.rings != []))
    && after.k == before.k && after.h == before.h && after.l == before.l
  }

  lemma AlertRegisters(d: Detector, a: Alert)
    ensures Registered(d, a, AfterAll(d, ReportsOf(a)))
  {
    var reports := ReportsOf(a);
    ReportsAreOfAlert(a);
    RunFrame(d, reports);
    RunDown(d, reports);
    forall n ensures Rings(AfterAll(d, reports), n) == Rings(d, n) + RingsFrom(a, n) {
      RunRings(d, reports, n);
    }
    forall n, i | i in Rings(AfterAll(d, reports), n)
      ensures Reporter(AfterAll(d, reports), n, i) == if i in Rings(d, n) then Reporter(d, n, i) else a.src.value
    {
      RunReporters(d, reports, n, i);
    }
    if reports != [] {
      assert reports[0] in reports;
    }
  }

  /** An alert emits exactly when it takes its host to `h` and no other host is in flux, and then all
      hosts at `h` or above that were not emitted before. */
  ghost predicate Announced(before: Detector, emitted: set<Endpoint>, a: Alert, after: Detector, cut: set<Endpoint>) {
    && (cut != {} <==>
          && Complete(a) && Tally(before, a.dst.value) < before.h <= Tally(after, a.dst.value)
          && before.preProposal <= {a.dst.value})
    && (cut != {} ==> forall n {:trigger Stable(after, n)} :: n in cut <==> n !in emitted && Stable(after, n))
  }

  lemma AlertAnnounces(d: Detector, emitted: set<Endpoint>, a: Alert)
    requires Inv(d, emitted)
    ensures Announced(d, emitted, a, AfterAll(d, ReportsOf(a)), Emitted(d, ReportsOf(a)))
  {
    if Complete(a) {
      ReportsAreOfAlert(a);
      OneHostRun(d, emitted, ReportsOf(a), a.dst.value);
    }
  }

  lemma ElementsListed(q: seq<Endpoint>, s: set<Endpoint>)
    requires Lists(q, s)
    ensures (set e | e in q) == s
  {
  }

  class MultiNodeCutDetector {
    const k: nat
    const h: nat
    const l: nat
    var proposalCount: nat
    var updatesInProgress: int
    var reportsPerHost: map<Endpoint, map<nat, Endpoint>>
    var proposal: set<Endpoint>
    var preProposal: set<Endpoint>
    var seenLinkDown: bool
    var endpointObjs: set<Endpoint>
    /** Everything emitted since the detector was created or cleared. */
    ghost var emitted: set<Endpoint>

    function State(): Detector
      reads this
    {
      Detector(k, h, l, proposalCount, updatesInProgress, reportsPerHost, proposal, preProposal, seenLinkDown,
               endpointObjs)
    }

    ghost predicate Valid()
      reads this
    {
      Inv(State(), emitted)
    }

    /** `new` after its check of the watermarks. */
    constructor (k: nat, h: nat, l: nat)
      requires Watermarks(k, h, l)
      ensures Valid() && State() == Fresh(k, h, l) && emitted == {}
    {
      this.k, this.h, this.l := k, h, l;
      proposalCount, updatesInProgress, reportsPerHost := 0, 0, map[];
      proposal, preProposal, seenLinkDown, endpointObjs := {}, {}, false, {};
      emitted := {};
      new;
      FreshInv(k, h, l);
    }

    /** `new`: an error for watermarks out of order; they are bytes. */
    static method New(k: nat, h: nat, l: nat) returns (d: MultiNodeCutDetector?)
      requires k < 256 && h < 256 && l < 256
      ensures d == null <==> h > k || l > h || k < K_MIN || l == 0 || h == 0
      ensures d != null ==> fresh(d) && d.Valid() && d.State() == Fresh(k, h, l) && d.emitted == {}
    {
      if h > k || l > h || k < K_MIN || l == 0 || h == 0 { return null; }
      d := new MultiNodeCutDetector(k, h, l);
    }

    /** `aggregate_one`. */
    method AggregateOne(src: Endpoint, dst: Endpoint, down: bool, ring: nat) returns (out: seq<Endpoint>)
      requires Valid() && ring < 256
      modifies this
      ensures Valid()
      ensures State() == After(old(State()), Report(src, dst, down, ring))
      ensures Lists(out, Cut(old(State()), Report(src, dst, down, ring)))
      ensures emitted == old(emitted) + Cut(old(State()), Report(src, dst, down, ring))
      ensures Cut(old(State()), Report(src, dst, down, ring)) !! old(emitted)
    {
      ghost var r := Report(src, dst, down, ring);
      ReportKeeps(State(), emitted, r);
      emitted := emitted + Cut(State(), r);
      var added := Record(src, dst, down, ring);
      out := [];
      if added {
        var num := CountAsByte(reportsPerHost[dst]);
        out := CrossWatermarks(dst, num);
      }
    }

    /** The report maps with one report more; whether it was new. */
    method Record(src: Endpoint, dst: Endpoint, down: bool, ring: nat) returns (added: bool)
      modifies this`seenLinkDown, this`endpointObjs, this`reportsPerHost
      ensures State() == Recorded(old(State()), Report(src, dst, down, ring))
      ensures added <==> ring !in Rings(old(State()), dst)
    {
      if down { seenLinkDown := true; }
      endpointObjs := endpointObjs + {dst};
      var reports := if dst in reportsPerHost then reportsPerHost[dst] else map[];
      added := ring !in reports;
      if added { reports := reports[ring := src]; }
      reportsPerHost := reportsPerHost[dst := reports];
    }

    /** What follows from `num` reports about `dst`. */
    method CrossWatermarks(dst: Endpoint, num: nat) returns (out: seq<Endpoint>)
      modifies this`updatesInProgress, this`preProposal, this`proposal, this`proposalCount
      ensures State() == Released(Cross(old(State()), dst, num), num)
      ensures Lists(out, Emission(Cross(old(State()), dst, num), num))
    {
      out := [];
      if num == l {
        updatesInProgress := updatesInProgress + 1;
        preProposal := preProposal + {dst};
      }
      if num == h {
        preProposal := preProposal - {dst};
        proposal := proposal + {dst};
        updatesInProgress := updatesInProgress - 1;
        if updatesInProgress == 0 {
          proposalCount := proposalCount + 1;
          out := SomeOrder(proposal);
          proposal := {};
        }
      }
    }

    /** `aggregate`: the rings of one alert, one after another. */
    method Aggregate(msg: Alert) returns (out: seq<Endpoint>)
      requires Valid()
      modifies this
      ensures Valid()
      ensures State() == AfterAll(old(State()), ReportsOf(msg))
      ensures Lists(out, Emitted(old(State()), ReportsOf(msg)))
      ensures emitted == old(emitted) + Emitted(old(State()), ReportsOf(msg))
      ensures Emitted(old(State()), ReportsOf(msg)) !! old(emitted)
      ensures !Complete(msg) ==> State() == old(State()) && out == []
      ensures Registered(old(State()), msg, State())
      ensures Announced(old(State()), old(emitted), msg, State(), set e | e in out)
    {
      out := [];
      AlertRegisters(State(), msg);
      AlertAnnounces(State(), emitted, msg);
      ReportsAreOfAlert(msg);
      if msg.src.None? || msg.dst.None? { return; }
      out := AggregateAll(ReportsOf(msg));
      ElementsListed(out, Emitted(old(State()), ReportsOf(msg)));
    }

    /** The loop of `aggregate`. */
    method AggregateAll(reports: seq<Report>) returns (out: seq<Endpoint>)
      requires Valid() && ByteRings(reports)
      modifies this
      ensures Valid()
      ensures State() == AfterAll(old(State()), reports)
      ensures Lists(out, Emitted(old(State()), reports))
      ensures emitted == old(emitted) + Emitted(old(State()), reports)
      ensures Emitted(old(State()), reports) !! old(emitted)
    {
      out := [];
      ghost var first, start, got := State(), emitted, {};
      NothingDone(first, reports);
      for i := 0 to |reports|
        invariant Valid() && Underway(first, reports, i, start, got, out)
      {
        out, got := AggregateNext(first, reports, i, start, got, out);
      }
      AllDone(first, reports, State(), got);
    }

    /** The reports before `i` are done: they emitted `got`, listed in `out`, on top of `start`. */
    ghost predicate Underway(first: Detector, reports: seq<Report>, i: nat, start: set<Endpoint>,
                             got: set<Endpoint>, out: seq<Endpoint>)
      reads this
      requires i <= |reports|
    {
      Remaining(first, reports, i, State(), got) && emitted == start + got && got !! start && Lists(out, got)
    }

    lemma UnderwayStep(first: Detector, reports: seq<Report>, i: nat, start: set<Endpoint>, got: set<Endpoint>,
                       out: seq<Endpoint>)
      requires i < |reports| && Underway(first, reports, i, start, got, out)
      ensures Remaining(first, reports, i + 1, After(State(), reports[i]), got + Cut(State(), reports[i]))
    {
      RunStep(State(), reports, i);
      UnionAssociates(got, Cut(State(), reports[i]), Emitted(After(State(), reports[i]), reports[i + 1..]));
    }

    /** One report more. */
    method AggregateNext(ghost first: Detector, reports: seq<Report>, i: nat, ghost start: set<Endpoint>,
                         ghost got: set<Endpoint>, out: seq<Endpoint>)
      returns (all: seq<Endpoint>, ghost now: set<Endpoint>)
      requires Valid() && i < |reports| && ByteRings(reports) && Underway(first, reports, i, start, got, out)
      modifies this
      ensures Valid() && Underway(first, reports, i + 1, start, now, all)
    {
      var r := reports[i];
      ghost var cut := Cut(State(), r);
      UnderwayStep(first, reports, i, start, got, out);
      var one := AggregateOne(r.src, r.dst, r.down, r.ring);
      all := Joined(out, got, one, cut);
      UnionAssociates(start, got, cut);
      now := got + cut;
    }

    /** The inner loop of `invalidate_failing_edges` for one host. */
    method VisitOne(node: Endpoint, observers: seq<Endpoint>, down: bool) returns (out: seq<Endpoint>)
      requires Valid() && |observers| < 256
      modifies this
      ensures Valid()
      ensures State() == VisitHost(old(State()), node, observers, down, 0)
      ensures Lists(out, VisitCut(old(State()), node, observers, down, 0))
      ensures emitted == old(emitted) + VisitCut(old(State()), node, observers, down, 0)
      ensures VisitCut(old(State()), node, observers, down, 0) !! old(emitted)
    {
      out := [];
      ghost var start, got := emitted, {};
      for i := 0 to |observers|
        invariant Valid()
        invariant VisitHost(State(), node, observers, down, i) == VisitHost(old(State()), node, observers, down, 0)
        invariant got + VisitCut(State(), node, observers, down, i)
                  == VisitCut(old(State()), node, observers, down, 0)
        invariant emitted == start + got && got !! start && Lists(out, got)
      {
        if observers[i] in proposal || observers[i] in preProposal {
          ghost var r := Report(observers[i], node, down, i);
          ghost var cut, later := Cut(State(), r), VisitCut(After(State(), r), node, observers, down, i + 1);
          var one := AggregateOne(observers[i], node, down, i);
          out := Joined(out, got, one, cut);
          UnionAssociates(got, cut, later);
          UnionAssociates(start, got, cut);
          got := got + cut;
        }
      }
    }

    /** The observers of one host in flux, as the loop asks for them. */
    method ObserversFor(view: View, node: Endpoint) returns (observers: seq<Endpoint>)
      requires view.Valid()
      modifies view`cachedObservers
      ensures view.Valid() && observers == old(view.Answer(node))
      ensures forall n :: view.Answer(n) == old(view.Answer(n))
    {
      var present := view.IsHostPresent(node);
      if !present {
        observers := view.GetExpectedObserversOf(node);
        return;
      }
      var answer := view.GetObserversOf(node);
      return if answer.Answered? then answer.value else [];
    }

    /** `invalidate_failing_edges`: what it emits does not depend on the order of its hash set. */
    method InvalidateFailingEdges(view: View) returns (out: seq<Endpoint>, ghost order: seq<Endpoint>)
      requires Valid() && view.Valid()
      modifies this, view`cachedObservers
      ensures Valid() && view.Valid()
      ensures Lists(order, old(preProposal)) && Covers(old(Around(view, preProposal)), old(preProposal))
      ensures State() == Invalidated(old(State()), order, old(Around(view, preProposal)))
      ensures Lists(out, ImplicitCut(old(State()), old(Around(view, preProposal))))
      ensures emitted == old(emitted) + ImplicitCut(old(State()), old(Around(view, preProposal)))
      ensures ImplicitCut(old(State()), old(Around(view, preProposal))) !! old(emitted)
    {
      ghost var w := Around(view, preProposal);
      AroundCovers(view, preProposal);
      var hosts := SomeOrder(preProposal);
      order := hosts;
      InvalidationClosedForm(State(), emitted, hosts, w);
      InvalidationKeeps(State(), emitted, hosts, w);
      out := [];
      if !seenLinkDown { return; }
      out := VisitHosts(view, hosts, w);
    }

    /** The outer loop. */
    method VisitHosts(view: View, hosts: seq<Endpoint>, ghost w: Surroundings) returns (out: seq<Endpoint>)
      requires Valid() && Answers(view, hosts, w)
      modifies this, view`cachedObservers
      ensures Valid() && Answers(view, hosts, w)
      ensures State() == VisitAll(old(State()), hosts, w)
      ensures Lists(out, VisitAllCut(old(State()), hosts, w))
      ensures emitted == old(emitted) + VisitAllCut(old(State()), hosts, w)
    {
      ghost var start, got := emitted, {};
      out := [];
      for i := 0 to |hosts|
        invariant Valid() && Answers(view, hosts, w)
        invariant VisitAll(State(), hosts[i..], w) == VisitAll(old(State()), hosts, w)
        invariant got + VisitAllCut(State(), hosts[i..], w) == VisitAllCut(old(State()), hosts, w)
        invariant emitted == start + got && got !! start && Lists(out, got)
      {
        SweepStep(State(), hosts, w, i);
        ghost var cut, d1 := HostCut(State(), hosts[i], w), HostVisited(State(), hosts[i], w);
        var one := VisitNext(view, hosts, hosts[i], w);
        out := Joined(out, got, one, cut);
        UnionAssociates(got, cut, VisitAllCut(d1, hosts[i + 1..], w));
        UnionAssociates(start, got, cut);
        got := got + cut;
      }
    }

    /** One round of the outer loop. */
    method VisitNext(view: View, ghost hosts: seq<Endpoint>, node: Endpoint, ghost w: Surroundings)
      returns (out: seq<Endpoint>)
      requires Valid() && Answers(view, hosts, w) && node in hosts
      modifies this, view`cachedObservers
      ensures Valid() && Answers(view, hosts, w)
      ensures State() == HostVisited(old(State()), node, w)
      ensures Lists(out, HostCut(old(State()), node, w)) && HostCut(old(State()), node, w) !! old(emitted)
      ensures emitted == old(emitted) + HostCut(old(State()), node, w)
    {
      view.AnswerLength(node);
      var observers := ObserversFor(view, node);
      var down := view.IsHostPresent(node);
      out := VisitOne(node, observers, down);
    }

    /** `clear`, after a view change was applied. */
    method Clear()
      requires Valid()
      modifies this
      ensures Valid() && State() == Fresh(k, h, l) && emitted == {}
    {
      reportsPerHost, proposal, preProposal, endpointObjs := map[], {}, {}, {};
      updatesInProgress, proposalCount, seenLinkDown := 0, 0, false;
      emitted := {};
      FreshInv(k, h, l);
    }
  }

  /** What `invalidate_failing_edges` reads from a view about the hosts in flux. */
  ghost function Around(view: View, hosts: set<Endpoint>): Surroundings
    reads view`allNodes, view`cachedObservers
    requires AllCollisionFree(view.key, view.k, view.allNodes)
  {
    Surroundings(map n | n in hosts :: view.Answer(n), view.allNodes)
  }

  lemma AroundCovers(view: View, hosts: set<Endpoint>)
    requires view.Valid()
    ensures Covers(Around(view, hosts), hosts)
  {
    forall n | n in hosts ensures |view.Answer(n)| < 256 {
      view.AnswerLength(n);
    }
  }

  lemma UnionAssociates(a: set<Endpoint>, b: set<Endpoint>, c: set<Endpoint>)
    ensures (a + b) + c == a + (b + c)
  {
  }

  /** From `d`, with `got` emitted, the reports from `i` on lead where all of them lead from `first`. */
  ghost predicate Remaining(first: Detector, reports: seq<Report>, i: nat, d: Detector, got: set<Endpoint>)
    requires i <= |reports|
  {
    && AfterAll(d, reports[i..]) == AfterAll(first, reports)
    && got + Emitted(d, reports[i..]) == Emitted(first, reports)
  }

  lemma NothingDone(first: Detector, reports: seq<Report>)
    ensures Remaining(first, reports, 0, first, {})
  {
    assert reports[0..] == reports;
  }

  lemma AllDone(first: Detector, reports: seq<Report>, d: Detector, got: set<Endpoint>)
    requires Remaining(first, reports, |reports|, d, got)
    ensures d == AfterAll(first, reports) && got == Emitted(first, reports)
  {
    assert reports[|reports|..] == [];
  }

  lemma RunStep(d: Detector, reports: seq<Report>, i: nat)
    requires i < |reports|
    ensures AfterAll(d, reports[i..]) == AfterAll(After(d, reports[i]), reports[i + 1..])
    ensures Emitted(d, reports[i..]) == Cut(d, reports[i]) + Emitted(After(d, reports[i]), reports[i + 1..])
  {
    assert reports[i..][1..] == reports[i + 1..];
  }

  /** The view answers about `hosts` as recorded in `w`. */
  ghost predicate Answers(view: View, hosts: seq<Endpoint>, w: Surroundings)
    reads view
  {
    && view.Valid() && view.allNodes == w.present
    && forall n :: n in hosts ==> n in w.observers && view.Answer(n) == w.observers[n]
  }

  function HostVisited(d: Detector, n: Endpoint, w: Surroundings): Detector
    requires n in w.observers
  {
    VisitHost(d, n, w.observers[n], n in w.present, 0)
  }

  function HostCut(d: Detector, n: Endpoint, w: Surroundings): set<Endpoint>
    requires n in w.observers
  {
    VisitCut(d, n, w.observers[n], n in w.present, 0)
  }

  lemma SweepStep(d: Detector, hosts: seq<Endpoint>, w: Surroundings, i: nat)
    requires i < |hosts| && forall n :: n in hosts ==> n in w.observers
    ensures hosts[i] in w.observers
    ensures VisitAll(d, hosts[i..], w) == VisitAll(HostVisited(d, hosts[i], w), hosts[i + 1..], w)
    ensures VisitAllCut(d, hosts[i..], w)
            == HostCut(d, hosts[i], w) + VisitAllCut(HostVisited(d, hosts[i], w), hosts[i + 1..], w)
  {
    assert hosts[i..][1..] == hosts[i + 1..];
  }

  method Joined(a: seq<Endpoint>, ghost s: set<Endpoint>, b: seq<Endpoint>, ghost t: set<Endpoint>)
    returns (out: seq<Endpoint>)
    requires Lists(a, s) && Lists(b, t) && s !! t
    ensures Lists(out, s + t)
  {
    JoinLists(a, s, b, t);
    out := a + b;
  }
}
