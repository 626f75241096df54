/** Implicit detection (`invalidate_failing_edges` of cut_detector.rs): every host in flux is
    also charged with the rings on which its observer is itself failing. The source visits the
    hosts in the arbitrary order of a hash set while each visit changes the sets it consults;
    the result nevertheless has a closed form that does not mention the order. */
module DetectorSweep {
  import opened Types
  import opened SetFacts
  import opened Listings
  import opened DetectorState

  function Suspects(d: Detector): set<Endpoint> { d.proposal + d.preProposal }

  /** The inner loop for one host `n`, from ring `i` on: the state it leaves ... */
  function VisitHost(d: Detector, n: Endpoint, obs: seq<Endpoint>, down: bool, i: nat): Detector
    decreases |obs| - i
  {
    if i >= |obs| then d
    else if obs[i] in Suspects(d) then VisitHost(After(d, Report(obs[i], n, down, i)), n, obs, down, i + 1)
    else VisitHost(d, n, obs, down, i + 1)
  }

  /** ... and what it emits. */
  function VisitCut(d: Detector, n: Endpoint, obs: seq<Endpoint>, down: bool, i: nat): set<Endpoint>
    decreases |obs| - i
  {
    if i >= |obs| then {}
    else if obs[i] in Suspects(d) then
      var r := Report(obs[i], n, down, i);
      Cut(d, r) + VisitCut(After(d, r), n, obs, down, i + 1)
    else VisitCut(d, n, obs, down, i + 1)
  }

  /** What the loops read from the view: the observers, expected for a joiner, of each host. */
  datatype Surroundings = Surroundings(observers: map<Endpoint, seq<Endpoint>>, present: set<Endpoint>)

  predicate Covers(w: Surroundings, hosts: set<Endpoint>) {
    forall n :: n in hosts ==> n in w.observers && |w.observers[n]| < 256
  }

  /** The outer loop over `order`. */
  function VisitAll(d: Detector, order: seq<Endpoint>, w: Surroundings): Detector
    requires forall n :: n in order ==> n in w.observers
    decreases |order|
  {
    if order == [] then d
    else VisitAll(VisitHost(d, order[0], w.observers[order[0]], order[0] in w.present, 0), order[1..], w)
  }

  function VisitAllCut(d: Detector, order: seq<Endpoint>, w: Surroundings): set<Endpoint>
    requires forall n :: n in order ==> n in w.observers
    decreases |order|
  {
    if order == [] then {}
    else
      var n := order[0];
      VisitCut(d, n, w.observers[n], n in w.present, 0)
      + VisitAllCut(VisitHost(d, n, w.observers[n], n in w.present, 0), order[1..], w)
  }

  // ---------------------------------------------------------------- the closed form

  /** The rings from `i` on whose observer is under suspicion. */
  function Implied(obs: seq<Endpoint>, suspects: set<Endpoint>, i: nat): set<nat> {
    set j | i <= j < |obs| && obs[j] in suspects
  }

  /** Direct reports and implied ones together. */
  function Charged(d: Detector, n: Endpoint, w: Surroundings, suspects: set<Endpoint>): set<nat>
    requires n in w.observers
  {
    Rings(d, n) + Implied(w.observers[n], suspects, 0)
  }

  /** Every host in flux reaches `h` once the implied reports are counted. */
  predicate AllTip(d: Detector, w: Surroundings)
    requires Covers(w, d.preProposal)
  {
    forall n {:trigger Charged(d, n, w, Suspects(d))} :: n in d.preProposal ==> |Charged(d, n, w, Suspects(d))| >= d.h
  }

  // ---------------------------------------------------------------- one host

  /** Nothing is under suspicion: visits change nothing. */
  lemma {:induction false} VisitIdle(d: Detector, n: Endpoint, obs: seq<Endpoint>, down: bool, i: nat)
    requires Suspects(d) == {}
    ensures VisitHost(d, n, obs, down, i) == d && VisitCut(d, n, obs, down, i) == {}
    decreases |obs| - i
  {
    if i < |obs| {
      VisitIdle(d, n, obs, down, i + 1);
    }
  }

  ghost predicate OnlyHost(d: Detector, d': Detector, n: Endpoint) {
    && d'.h == d.h && d'.l == d.l && d'.k == d.k
    && forall m {:trigger Rings(d', m)} :: m != n ==> Rings(d', m) == Rings(d, m)
  }

  /** From `d` to `d'`, suspect `n` came to be charged with the rings `charged`: either nothing was
      emitted and the suspects are the same, or all of them were emitted at once. */
  ghost predicate Visited(d: Detector, emitted: set<Endpoint>, n: Endpoint, charged: set<nat>,
                          d': Detector, cut: set<Endpoint>) {
    && Inv(d', emitted + cut) && cut !! emitted && OnlyHost(d, d', n)
    && (if cut == {} then
          && Suspects(d') == Suspects(d) && Rings(d', n) == charged
          && d'.preProposal - {n} == d.preProposal - {n} && d'.proposalCount == d.proposalCount
        else
          && cut == Suspects(d) && Suspects(d') == {}
          && d.preProposal <= {n} && |charged| >= d.h && d'.proposalCount == d.proposalCount + 1)
  }

  lemma NotVisited(d: Detector, emitted: set<Endpoint>, n: Endpoint)
    requires Inv(d, emitted)
    ensures Visited(d, emitted, n, Rings(d, n), d, {})
  {
    assert emitted + {} == emitted;
  }

  /** A report about a suspect. */
  lemma ReportVisits(d: Detector, emitted: set<Endpoint>, r: Report)
    requires Inv(d, emitted) && r.ring < 256 && r.dst in Suspects(d)
    ensures Visited(d, emitted, r.dst, Rings(d, r.dst) + {r.ring}, After(d, r), Cut(d, r))
  {
    AfterFrame(d, r);
    forall m ensures Rings(After(d, r), m) == if m == r.dst then Rings(d, m) + {r.ring} else Rings(d, m) {
      AfterRings(d, r, m);
    }
    assert InFlux(d, r.dst) <==> r.dst in d.preProposal;
    if r.ring in Rings(d, r.dst) {
      ReportSame(d, emitted, r);
      assert Suspects(After(d, r)) == Suspects(d) && After(d, r).preProposal == d.preProposal;
    } else {
      var t := Tally(d, r.dst) + 1;
      ReportMoves(d, emitted, r);
      AfterCrosses(d, r, t);
      assert Stable(d, r.dst) <==> r.dst in d.proposal + emitted;
      CrossKeeps(Recorded(d, r), emitted, r.dst, t, After(d, r), Cut(d, r));
      SuspectsMove(d, emitted, r.dst, t, After(d, r), Cut(d, r));
    }
  }

  lemma SuspectsMove(d: Detector, emitted: set<Endpoint>, n: Endpoint, t: nat, d': Detector, cut: set<Endpoint>)
    requires 0 < d.l <= d.h && n in Suspects(d) && d.proposal !! emitted
    requires n in d.preProposal <==> d.l <= t - 1 < d.h
    requires n in d.proposal + emitted <==> d.h <= t - 1
    requires d'.preProposal == if d.l <= t < d.h then d.preProposal + {n} else d.preProposal - {n}
    requires if t == d.h && d.preProposal <= {n} then cut == d.proposal + {n} && d'.proposal == {}
             else cut == {} && d'.proposal == if t == d.h then d.proposal + {n} else d.proposal
    ensures cut == {} ==> Suspects(d') == Suspects(d) && d'.preProposal - {n} == d.preProposal - {n}
    ensures cut != {} ==> cut == Suspects(d) && Suspects(d') == {} && d.preProposal <= {n} && t == d.h
  {
  }

  lemma VisitThen(d: Detector, emitted: set<Endpoint>, n: Endpoint, c1: set<nat>, d1: Detector,
                  c2: set<nat>, d2: Detector, cut: set<Endpoint>)
    requires Visited(d, emitted, n, c1, d1, {}) && Visited(d1, emitted, n, c2, d2, cut)
    ensures Visited(d, emitted, n, c2, d2, cut)
  {
    forall m | m != n ensures Rings(d2, m) == Rings(d, m) {
      assert Rings(d1, m) == Rings(d, m);
    }
    assert d.preProposal <= {n} <==> d.preProposal - {n} == {};
    assert d1.preProposal <= {n} <==> d1.preProposal - {n} == {};
  }

  lemma VisitMore(d: Detector, emitted: set<Endpoint>, n: Endpoint, c1: set<nat>, d': Detector,
                  cut: set<Endpoint>, c2: set<nat>)
    requires Visited(d, emitted, n, c1, d', cut) && cut != {} && c1 <= c2
    ensures Visited(d, emitted, n, c2, d', cut)
  {
    SubsetSize(c1, c2);
  }

  /** Visiting one suspect charges it with every implied ring, unless everything was emitted. */
  lemma {:induction false} VisitKeeps(d: Detector, emitted: set<Endpoint>, n: Endpoint, obs: seq<Endpoint>,
                                      down: bool, i: nat)
    requires Inv(d, emitted) && n in Suspects(d) && |obs| < 256
    ensures Visited(d, emitted, n, Rings(d, n) + Implied(obs, Suspects(d), i),
                    VisitHost(d, n, obs, down, i), VisitCut(d, n, obs, down, i))
    decreases |obs| - i, 1
  {
    var charged := Rings(d, n) + Implied(obs, Suspects(d), i);
    if i >= |obs| {
      assert charged == Rings(d, n);
      NotVisited(d, emitted, n);
    } else if obs[i] !in Suspects(d) {
      assert Implied(obs, Suspects(d), i) == Implied(obs, Suspects(d), i + 1);
      VisitKeeps(d, emitted, n, obs, down, i + 1);
    } else {
      VisitSuspect(d, emitted, n, obs, down, i, charged);
    }
  }

  lemma VisitSuspect(d: Detector, emitted: set<Endpoint>, n: Endpoint, obs: seq<Endpoint>,
                     down: bool, i: nat, charged: set<nat>)
    requires Inv(d, emitted) && n in Suspects(d) && |obs| < 256
    requires i < |obs| && obs[i] in Suspects(d)
    requires charged == Rings(d, n) + Implied(obs, Suspects(d), i)
    ensures Visited(d, emitted, n, charged, VisitHost(d, n, obs, down, i), VisitCut(d, n, obs, down, i))
    decreases |obs| - i, 0
  {
    ReportVisits(d, emitted, Report(obs[i], n, down, i));
    ImpliedStep(Rings(d, n), obs, Suspects(d), i);
    if Cut(d, Report(obs[i], n, down, i)) == {} {
      NoCutFirst({}, emitted);
      VisitKeeps(After(d, Report(obs[i], n, down, i)), emitted, n, obs, down, i + 1);
      VisitGoesOn(d, emitted, n, obs, down, i, charged);
    } else {
      VisitEnds(d, emitted, n, obs, down, i, charged);
    }
  }

  lemma VisitGoesOn(d: Detector, emitted: set<Endpoint>, n: Endpoint, obs: seq<Endpoint>, down: bool, i: nat,
                    charged: set<nat>)
    requires i < |obs| && obs[i] in Suspects(d) && Cut(d, Report(obs[i], n, down, i)) == {}
    requires Visited(d, emitted, n, Rings(d, n) + {i}, After(d, Report(obs[i], n, down, i)), {})
    requires var d1 := After(d, Report(obs[i], n, down, i));
             Visited(d1, emitted, n, charged, VisitHost(d1, n, obs, down, i + 1), VisitCut(d1, n, obs, down, i + 1))
    ensures Visited(d, emitted, n, charged, VisitHost(d, n, obs, down, i), VisitCut(d, n, obs, down, i))
  {
    var d1 := After(d, Report(obs[i], n, down, i));
    VisitThen(d, emitted, n, Rings(d, n) + {i}, d1, charged, VisitHost(d1, n, obs, down, i + 1),
              VisitCut(d1, n, obs, down, i + 1));
    NoCutFirst({}, VisitCut(d1, n, obs, down, i + 1));
  }

  lemma VisitEnds(d: Detector, emitted: set<Endpoint>, n: Endpoint, obs: seq<Endpoint>, down: bool, i: nat,
                  charged: set<nat>)
    requires i < |obs| && obs[i] in Suspects(d) && Cut(d, Report(obs[i], n, down, i)) != {}
    requires var r := Report(obs[i], n, down, i);
             Visited(d, emitted, n, Rings(d, n) + {i}, After(d, r), Cut(d, r))
    requires Rings(d, n) + {i} <= charged
    ensures Visited(d, emitted, n, charged, VisitHost(d, n, obs, down, i), VisitCut(d, n, obs, down, i))
  {
    var r := Report(obs[i], n, down, i);
    VisitIdle(After(d, r), n, obs, down, i + 1);
    VisitMore(d, emitted, n, Rings(d, n) + {i}, After(d, r), Cut(d, r), charged);
    NoCutFirst({}, Cut(d, r));
  }

  lemma NoCutFirst(a: set<Endpoint>, b: set<Endpoint>)
    ensures a == {} ==> a + b == b && b + a == b
  {
  }

  lemma ImpliedStep(rings: set<nat>, obs: seq<Endpoint>, suspects: set<Endpoint>, i: nat)
    requires i < |obs| && obs[i] in suspects
    ensures rings + Implied(obs, suspects, i) == (rings + {i}) + Implied(obs, suspects, i + 1)
  {
  }

  /** A visit only adds rings, and only to the host visited; each added ring is reported by the observer
      on that ring, and no reporter is replaced. */
  ghost predicate ChargedBy(d: Detector, n: Endpoint, obs: seq<Endpoint>, d': Detector) {
    && (forall m {:trigger Rings(d', m)} :: Rings(d, m) <= Rings(d', m) && (m != n ==> Rings(d', m) == Rings(d, m)))
    && (forall m, r {:trigger Reporter(d', m, r)} :: r in Rings(d, m) && r in Rings(d', m) ==>
          Reporter(d', m, r) == Reporter(d, m, r))
    && (forall r {:trigger Reporter(d', n, r)} :: r in Rings(d', n) && r !in Rings(d, n) ==>
          r < |obs| && Reporter(d', n, r) == obs[r])
  }

  lemma {:induction false} VisitCharges(d: Detector, n: Endpoint, obs: seq<Endpoint>, down: bool, i: nat)
    ensures ChargedBy(d, n, obs, VisitHost(d, n, obs, down, i))
    decreases |obs| - i
  {
    if i < |obs| {
      if obs[i] in Suspects(d) {
        var r := Report(obs[i], n, down, i);
        ReportCharges(d, n, obs, r);
        VisitCharges(After(d, r), n, obs, down, i + 1);
        ChargedThen(d, n, obs, After(d, r), VisitHost(After(d, r), n, obs, down, i + 1));
      } else {
        VisitCharges(d, n, obs, down, i + 1);
      }
    }
  }

  lemma ReportCharges(d: Detector, n: Endpoint, obs: seq<Endpoint>, r: Report)
    requires r.dst == n && r.ring < |obs| && r.src == obs[r.ring]
    ensures ChargedBy(d, n, obs, After(d, r))
  {
    AfterFrame(d, r);
    forall m ensures Rings(After(d, r), m) == if m == n then Rings(d, m) + {r.ring} else Rings(d, m) {
      AfterRings(d, r, m);
    }
  }

  lemma ChargedThen(d: Detector, n: Endpoint, obs: seq<Endpoint>, d1: Detector, d2: Detector)
    requires ChargedBy(d, n, obs, d1) && ChargedBy(d1, n, obs, d2)
    ensures ChargedBy(d, n, obs, d2)
  {
    forall m ensures Rings(d, m) <= Rings(d2, m) && (m != n ==> Rings(d2, m) == Rings(d, m)) {
      assert Rings(d, m) <= Rings(d1, m) <= Rings(d2, m);
    }
    forall m, r | r in Rings(d, m) && r in Rings(d2, m) ensures Reporter(d2, m, r) == Reporter(d, m, r) {
      assert Rings(d, m) <= Rings(d1, m);
      assert Reporter(d1, m, r) == Reporter(d, m, r);
    }
    forall r | r in Rings(d2, n) && r !in Rings(d, n) ensures r < |obs| && Reporter(d2, n, r) == obs[r] {
      var reporter := Reporter(d2, n, r);
      if r in Rings(d1, n) {
        assert Reporter(d1, n, r) == reporter;
      }
    }
  }

  /** Visits of several hosts add rings to no other. */
  lemma {:induction false} VisitsCharge(d: Detector, order: seq<Endpoint>, w: Surroundings)
    requires forall n :: n in order ==> n in w.observers
    ensures forall m {:trigger Rings(VisitAll(d, order, w), m)} ::
              && Rings(d, m) <= Rings(VisitAll(d, order, w), m)
              && (m !in order ==> Rings(VisitAll(d, order, w), m) == Rings(d, m))
    decreases |order|
  {
    if order != [] {
      var n := order[0];
      var d1 := VisitHost(d, n, w.observers[n], n in w.present, 0);
      VisitCharges(d, n, w.observers[n], n in w.present, 0);
      VisitsCharge(d1, order[1..], w);
      forall m
        ensures Rings(d, m) <= Rings(VisitAll(d, order, w), m)
        ensures m !in order ==> Rings(VisitAll(d, order, w), m) == Rings(d, m)
      {
        assert Rings(d, m) <= Rings(d1, m) <= Rings(VisitAll(d1, order[1..], w), m);
      }
    }
  }

  // ---------------------------------------------------------------- all hosts

  /** The visits of `order` are the only ones that could leave nothing in flux, and they do. */
  predicate Tips(d: Detector, order: seq<Endpoint>, w: Surroundings)
    requires forall n :: n in order ==> n in w.observers
  {
    && order != [] && (forall n :: n in d.preProposal ==> n in order)
    && (forall n {:trigger Charged(d, n, w, Suspects(d))} :: n in order ==> |Charged(d, n, w, Suspects(d))| >= d.h)
  }

  ghost predicate Recharged(d: Detector, order: seq<Endpoint>, w: Surroundings, d': Detector)
    requires forall n :: n in order ==> n in w.observers
  {
    forall n {:trigger Rings(d', n)} ::
      Rings(d', n) == if n in order then Charged(d, n, w, Suspects(d)) else Rings(d, n)
  }

  ghost predicate Swept(d: Detector, emitted: set<Endpoint>, order: seq<Endpoint>, w: Surroundings,
                        d': Detector, cut: set<Endpoint>)
    requires forall n :: n in order ==> n in w.observers
  {
    && Inv(d', emitted + cut) && cut !! emitted && d'.h == d.h && d'.l == d.l && d'.k == d.k
    && (if Tips(d, order, w) then
          cut == Suspects(d) && Suspects(d') == {} && d'.proposalCount == d.proposalCount + 1
        else
          && cut == {} && Suspects(d') == Suspects(d) && d'.proposalCount == d.proposalCount
          && Recharged(d, order, w, d'))
  }

  /** Hosts in flux, visited in any order. */
  lemma {:induction false} SweepKeeps(d: Detector, emitted: set<Endpoint>, order: seq<Endpoint>, w: Surroundings)
    requires Inv(d, emitted) && Distinct(order)
    requires forall n :: n in order ==> n in d.preProposal && n in w.observers && |w.observers[n]| < 256
    ensures Swept(d, emitted, order, w, VisitAll(d, order, w), VisitAllCut(d, order, w))
    decreases |order|
  {
    if order == [] {
      NoCutFirst({}, emitted);
    } else {
      var n, obs, down, rest := order[0], w.observers[order[0]], order[0] in w.present, order[1..];
      var d1, cut := VisitHost(d, n, obs, down, 0), VisitCut(d, n, obs, down, 0);
      VisitKeeps(d, emitted, n, obs, down, 0);
      if cut == {} {
        NoCutFirst({}, emitted);
        SweepOn(d, emitted, order, w, d1);
        SweepKeeps(d1, emitted, rest, w);
        SweepThen(d, emitted, order, w, d1, VisitAll(d1, rest, w), VisitAllCut(d1, rest, w));
        NoCutFirst({}, VisitAllCut(d1, rest, w));
      } else {
        SweepEnds(d, emitted, order, w, d1, cut);
        NoCutFirst({}, cut);
      }
    }
  }

  /** After a visit that emitted nothing, the remaining hosts are as they were. */
  lemma SweepOn(d: Detector, emitted: set<Endpoint>, order: seq<Endpoint>, w: Surroundings, d1: Detector)
    requires Inv(d, emitted) && Distinct(order) && order != []
    requires forall n :: n in order ==> n in d.preProposal && n in w.observers
    requires Visited(d, emitted, order[0], Charged(d, order[0], w, Suspects(d)), d1, {})
    ensures forall n :: n in order[1..] ==> n in d1.preProposal && n in w.observers && n != order[0]
    ensures Suspects(d1) == Suspects(d) && d1.h == d.h && Inv(d1, emitted)
    ensures order[0] in d1.preProposal <==> |Charged(d, order[0], w, Suspects(d))| < d.h
    ensures forall n :: n in w.observers && n != order[0] ==>
              Charged(d1, n, w, Suspects(d1)) == Charged(d, n, w, Suspects(d))
  {
    NoCutFirst({}, emitted);
    var n := order[0];
    forall m | m in order[1..] ensures m in d1.preProposal && m != n {
      var i :| 0 <= i < |order[1..]| && order[1..][i] == m;
      assert order[i + 1] == m;
      assert m in d.preProposal - {n};
    }
    assert InFlux(d, n) <==> n in d.preProposal;
    assert InFlux(d1, n) <==> n in d1.preProposal;
    SubsetSize(Rings(d, n), Charged(d, n, w, Suspects(d)));
  }

  lemma SweepThen(d: Detector, emitted: set<Endpoint>, order: seq<Endpoint>, w: Surroundings,
                  d1: Detector, d2: Detector, cut: set<Endpoint>)
    requires Inv(d, emitted) && Distinct(order) && order != []
    requires forall n :: n in order ==> n in d.preProposal && n in w.observers
    requires Visited(d, emitted, order[0], Charged(d, order[0], w, Suspects(d)), d1, {})
    requires Swept(d1, emitted, order[1..], w, d2, cut)
    ensures Swept(d, emitted, order, w, d2, cut)
  {
    SweepOn(d, emitted, order, w, d1);
    TipsTail(d, order, w, d1);
    if !Tips(d, order, w) {
      RechargedThen(d, order, w, d1, d2);
    }
  }

  lemma RechargedThen(d: Detector, order: seq<Endpoint>, w: Surroundings, d1: Detector, d2: Detector)
    requires order != [] && order[0] !in order[1..]
    requires forall n :: n in order ==> n in w.observers
    requires OnlyHost(d, d1, order[0]) && Rings(d1, order[0]) == Charged(d, order[0], w, Suspects(d))
    requires forall n :: n in order[1..] ==> Charged(d1, n, w, Suspects(d1)) == Charged(d, n, w, Suspects(d))
    requires Recharged(d1, order[1..], w, d2)
    ensures Recharged(d, order, w, d2)
  {
    var n, rest := order[0], order[1..];
    assert order == [n] + rest;
    forall m ensures Rings(d2, m) == if m in order then Charged(d, m, w, Suspects(d)) else Rings(d, m) {
      assert m != n ==> Rings(d1, m) == Rings(d, m);
      assert Rings(d2, m) == if m in rest then Charged(d1, m, w, Suspects(d1)) else Rings(d1, m);
    }
  }

  lemma TipsTail(d: Detector, order: seq<Endpoint>, w: Surroundings, d1: Detector)
    requires order != [] && order[0] !in order[1..] && d1.h == d.h && Suspects(d1) == Suspects(d)
    requires forall n :: n in order ==> n in d.preProposal && n in w.observers
    requires d1.preProposal - {order[0]} == d.preProposal - {order[0]} && (d1.proposal != {} ==> d1.preProposal != {})
    requires order[0] in d1.preProposal <==> |Charged(d, order[0], w, Suspects(d))| < d.h
    requires forall n :: n in order[1..] ==> Charged(d1, n, w, Suspects(d1)) == Charged(d, n, w, Suspects(d))
    ensures Tips(d, order, w) <==> Tips(d1, order[1..], w)
  {
    var n, rest := order[0], order[1..];
    assert order == [n] + rest;
    forall m | m != n ensures m in d1.preProposal <==> m in d.preProposal {
      assert m in d1.preProposal - {n} <==> m in d.preProposal - {n};
    }
    if Tips(d, order, w) {
      TipsForth(d, order, w, d1);
    } else if Tips(d1, rest, w) {
      TipsBack(d, order, w, d1);
    }
  }

  lemma TipsForth(d: Detector, order: seq<Endpoint>, w: Surroundings, d1: Detector)
    requires order != [] && d1.h == d.h && Suspects(d1) == Suspects(d)
    requires forall n :: n in order ==> n in d.preProposal && n in w.observers
    requires forall n :: n in d1.preProposal && n != order[0] ==> n in d.preProposal
    requires d1.proposal != {} ==> d1.preProposal != {}
    requires order[0] in d1.preProposal <==> |Charged(d, order[0], w, Suspects(d))| < d.h
    requires forall n :: n in order[1..] ==> Charged(d1, n, w, Suspects(d1)) == Charged(d, n, w, Suspects(d))
    requires Tips(d, order, w)
    ensures Tips(d1, order[1..], w)
  {
    var n := order[0];
    assert order == [n] + order[1..];
    assert |Charged(d, n, w, Suspects(d))| >= d.h;
    assert n in Suspects(d1);
    var m := AnyMember(d1.preProposal);
    assert m in order[1..];
    forall m | m in order[1..] ensures |Charged(d1, m, w, Suspects(d1))| >= d1.h {
      assert |Charged(d, m, w, Suspects(d))| >= d.h;
    }
  }

  lemma TipsBack(d: Detector, order: seq<Endpoint>, w: Surroundings, d1: Detector)
    requires order != [] && order[0] !in order[1..] && d1.h == d.h && Suspects(d1) == Suspects(d)
    requires forall n :: n in order ==> n in w.observers
    requires forall n :: n in d.preProposal && n != order[0] ==> n in d1.preProposal
    requires order[0] in d1.preProposal <==> |Charged(d, order[0], w, Suspects(d))| < d.h
    requires forall n :: n in order[1..] ==> Charged(d1, n, w, Suspects(d1)) == Charged(d, n, w, Suspects(d))
    requires Tips(d1, order[1..], w)
    ensures Tips(d, order, w)
  {
    assert order == [order[0]] + order[1..];
    forall n | n in order ensures |Charged(d, n, w, Suspects(d))| >= d.h {
      assert n != order[0] ==> |Charged(d1, n, w, Suspects(d1))| >= d1.h;
    }
  }

  lemma AllTheSame(order: seq<Endpoint>, n: Endpoint)
    requires Distinct(order) && order != [] && forall m :: m in order ==> m == n
    ensures order == [n]
  {
    assert order[0] in order && order[|order| - 1] in order;
  }

  /** Everything was emitted: the host visited was the last one. */
  lemma SweepEnds(d: Detector, emitted: set<Endpoint>, order: seq<Endpoint>, w: Surroundings,
                  d1: Detector, cut: set<Endpoint>)
    requires Inv(d, emitted) && Distinct(order) && order != [] && cut != {}
    requires forall n :: n in order ==> n in d.preProposal && n in w.observers
    requires Visited(d, emitted, order[0], Charged(d, order[0], w, Suspects(d)), d1, cut)
    ensures order[1..] == [] && Swept(d, emitted, order, w, d1, cut)
  {
    AllTheSame(order, order[0]);
    assert Tips(d, order, w);
  }

  /** `invalidate_failing_edges`, visiting the hosts in flux in the order `order`. */
  function Invalidated(d: Detector, order: seq<Endpoint>, w: Surroundings): Detector
    requires forall n :: n in order ==> n in w.observers
  {
    if d.seenLinkDown then VisitAll(d, order, w) else d
  }

  function InvalidatedCut(d: Detector, order: seq<Endpoint>, w: Surroundings): set<Endpoint>
    requires forall n :: n in order ==> n in w.observers
  {
    if d.seenLinkDown then VisitAllCut(d, order, w) else {}
  }

  /** What a call emits, from its entry state alone: all suspects at once, when a DOWN was seen, a
      host is suspected, and every host in flux tips over `h`; otherwise nothing. */
  function ImplicitCut(d: Detector, w: Surroundings): set<Endpoint>
    requires Covers(w, d.preProposal)
  {
    if d.seenLinkDown && Suspects(d) != {} && AllTip(d, w) then Suspects(d) else {}
  }

  /** Closed form of implicit invalidation, whatever the order of the hosts in flux. */
  lemma InvalidationClosedForm(d: Detector, emitted: set<Endpoint>, order: seq<Endpoint>, w: Surroundings)
    requires Inv(d, emitted) && Covers(w, d.preProposal) && Lists(order, d.preProposal)
    ensures InvalidatedCut(d, order, w) == ImplicitCut(d, w)
  {
    if d.seenLinkDown {
      SweepKeeps(d, emitted, order, w);
      TipsIsAllTip(d, order, w);
    }
  }

  /** What it leaves: the run invariant, at most one proposal more, and every host in flux charged
      with its implied rings unless everything was emitted. */
  lemma InvalidationKeeps(d: Detector, emitted: set<Endpoint>, order: seq<Endpoint>, w: Surroundings)
    requires Inv(d, emitted) && Covers(w, d.preProposal) && Lists(order, d.preProposal)
    ensures Inv(Invalidated(d, order, w), emitted + ImplicitCut(d, w)) && ImplicitCut(d, w) !! emitted
    ensures Invalidated(d, order, w).proposalCount == d.proposalCount + if ImplicitCut(d, w) == {} then 0 else 1
    ensures ImplicitCut(d, w) != {} ==> Suspects(Invalidated(d, order, w)) == {}
    ensures d.seenLinkDown && ImplicitCut(d, w) == {} ==> Recharged(d, order, w, Invalidated(d, order, w))
  {
    NoCutFirst({}, emitted);
    if d.seenLinkDown {
      SweepKeeps(d, emitted, order, w);
      TipsIsAllTip(d, order, w);
    }
  }

  lemma TipsIsAllTip(d: Detector, order: seq<Endpoint>, w: Surroundings)
    requires Covers(w, d.preProposal) && Lists(order, d.preProposal) && (d.proposal != {} ==> d.preProposal != {})
    ensures Tips(d, order, w) <==> Suspects(d) != {} && AllTip(d, w)
  {
    if Suspects(d) != {} {
      var n :| n in d.preProposal;
      assert n in order;
    }
    if Tips(d, order, w) {
      assert order[0] in d.preProposal;
    }
  }
}
