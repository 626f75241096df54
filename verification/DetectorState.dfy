/** The H/L watermark cut detector as a state and the effect of one edge report on it
    (cut_detector.rs). */
module DetectorState {
  import opened Types
  import opened SetFacts

  const K_MIN: nat := 3

  /** One `(observer, subject, status, ring)` report. `ring` is a `u8`. */
  datatype Report = Report(src: Endpoint, dst: Endpoint, down: bool, ring: nat)

  datatype Detector = Detector(
    k: nat, h: nat, l: nat,
    proposalCount: nat,
    updatesInProgress: int,
    reportsPerHost: map<Endpoint, map<nat, Endpoint>>,
    proposal: set<Endpoint>,
    preProposal: set<Endpoint>,
    seenLinkDown: bool,
    endpointObjs: set<Endpoint>)

  /** The watermarks the constructor accepts; `k` is a `u8`. */
  predicate Watermarks(k: nat, h: nat, l: nat) {
    K_MIN <= k < 256 && 0 < l <= h <= k
  }

  function Fresh(k: nat, h: nat, l: nat): Detector {
    Detector(k, h, l, 0, 0, map[], {}, {}, false, {})
  }

  /** The rings on which `n` was reported. */
  function Rings(d: Detector, n: Endpoint): set<nat> {
    if n in d.reportsPerHost then d.reportsPerHost[n].Keys else {}
  }

  function Tally(d: Detector, n: Endpoint): nat { |Rings(d, n)| }

  /** `reports.len() as u8`. */
  function CountAsByte(reports: map<nat, Endpoint>): nat { |reports| % 256 }

  /** The report is in the books: one more ring for its host, unless it was there already. */
  function Recorded(d: Detector, r: Report): Detector {
    var before := if r.dst in d.reportsPerHost then d.reportsPerHost[r.dst] else map[];
    var after := if r.ring in before then before else before[r.ring := r.src];
    d.(seenLinkDown := d.seenLinkDown || r.down, endpointObjs := d.endpointObjs + {r.dst},
       reportsPerHost := d.reportsPerHost[r.dst := after])
  }

  /** Host `n` now has `num` reports, counted as a byte. */
  function CrossLow(d: Detector, n: Endpoint, num: nat): Detector {
    if num != d.l then d
    else d.(updatesInProgress := d.updatesInProgress + 1, preProposal := d.preProposal + {n})
  }

  function CrossHigh(d: Detector, n: Endpoint, num: nat): Detector {
    if num != d.h then d
    else d.(preProposal := d.preProposal - {n}, proposal := d.proposal + {n},
            updatesInProgress := d.updatesInProgress - 1)
  }

  function Cross(d: Detector, n: Endpoint, num: nat): Detector {
    CrossHigh(CrossLow(d, n, num), n, num)
  }

  /** Reaching `h` with nothing left in flux emits the whole proposal and starts a new one. */
  predicate Fires(d: Detector, num: nat) { num == d.h && d.updatesInProgress == 0 }

  function Released(d: Detector, num: nat): Detector {
    if Fires(d, num) then d.(proposalCount := d.proposalCount + 1, proposal := {}) else d
  }

  function Emission(d: Detector, num: nat): set<Endpoint> {
    if Fires(d, num) then d.proposal else {}
  }

  /** `aggregate_one`: the state after a report ... */
  function After(d: Detector, r: Report): Detector {
    var recorded := Recorded(d, r);
    if r.ring in Rings(d, r.dst) then recorded
    else
      var num := CountAsByte(recorded.reportsPerHost[r.dst]);
      Released(Cross(recorded, r.dst, num), num)
  }

  /** ... and the cut it emits, empty when it emits none. */
  function Cut(d: Detector, r: Report): set<Endpoint> {
    var recorded := Recorded(d, r);
    if r.ring in Rings(d, r.dst) then {}
    else
      var num := CountAsByte(recorded.reportsPerHost[r.dst]);
      Emission(Cross(recorded, r.dst, num), num)
  }

  // ---------------------------------------------------------------- the invariant of every run

  predicate InFlux(d: Detector, n: Endpoint) { d.l <= Tally(d, n) < d.h }

  predicate Stable(d: Detector, n: Endpoint) { d.h <= Tally(d, n) }

  predicate RingsOk(d: Detector) {
    && d.reportsPerHost.Keys == d.endpointObjs
    && forall n, i :: n in d.reportsPerHost && i in d.reportsPerHost[n] ==> i < 256
  }

  ghost predicate PreExact(d: Detector) {
    forall n {:trigger InFlux(d, n)} :: n in d.preProposal <==> InFlux(d, n)
  }

  ghost predicate StableExact(d: Detector, emitted: set<Endpoint>) {
    forall n {:trigger Stable(d, n)} :: n in d.proposal + emitted <==> Stable(d, n)
  }

  /** `emitted` is everything emitted since the last `clear`. */
  ghost predicate Inv(d: Detector, emitted: set<Endpoint>) {
    && Watermarks(d.k, d.h, d.l) && RingsOk(d)
    && PreExact(d) && d.updatesInProgress == |d.preProposal|
    && StableExact(d, emitted) && d.proposal !! emitted
    && (d.proposal != {} ==> d.preProposal != {})
  }

  /** Reports about `r.dst` on a ring below 256: the byte count reaches a watermark exactly when
      the true count does, even with all 256 rings reported. */
  lemma {:induction false} BytesDoNotWrapOntoAWatermark(reports: map<nat, Endpoint>, mark: nat)
    requires forall i :: i in reports ==> i < 256
    requires 0 < mark < 256
    ensures CountAsByte(reports) == mark <==> |reports| == mark
  {
    AtMost(reports.Keys, 256);
  }

  function FirstNats(n: nat): set<nat> {
    if n == 0 then {} else FirstNats(n - 1) + {n - 1}
  }

  lemma {:induction false} FirstNatsRange(n: nat, i: nat)
    ensures i in FirstNats(n) <==> i < n
    ensures |FirstNats(n)| == n
  {
    if n > 0 {
      FirstNatsRange(n - 1, i);
      FirstNatsRange(n - 1, n - 1);
    }
  }

  lemma AtMost(rings: set<nat>, n: nat)
    requires forall i :: i in rings ==> i < n
    ensures |rings| <= n
  {
    FirstNatsRange(n, 0);
    forall i | i in rings ensures i in FirstNats(n) { FirstNatsRange(n, i); }
    SubsetSize(rings, FirstNats(n));
  }

  /** One report adds one ring to one host. */
  lemma RecordedRings(d: Detector, r: Report, n: Endpoint)
    ensures Rings(Recorded(d, r), n) == if n == r.dst then Rings(d, n) + {r.ring} else Rings(d, n)
  {
  }

  /** Crossing a watermark touches neither the reports nor the configuration. */
  lemma CrossFrame(d: Detector, n: Endpoint, num: nat)
    ensures var d' := Released(Cross(d, n, num), num);
            && d'.reportsPerHost == d.reportsPerHost && d'.endpointObjs == d.endpointObjs
            && d'.seenLinkDown == d.seenLinkDown && d'.k == d.k && d'.h == d.h && d'.l == d.l
  {
  }

  lemma AfterFrame(d: Detector, r: Report)
    ensures After(d, r).reportsPerHost == Recorded(d, r).reportsPerHost
    ensures After(d, r).endpointObjs == d.endpointObjs + {r.dst}
    ensures After(d, r).seenLinkDown == (d.seenLinkDown || r.down)
    ensures After(d, r).k == d.k && After(d, r).h == d.h && After(d, r).l == d.l
  {
    var recorded := Recorded(d, r);
    CrossFrame(recorded, r.dst, CountAsByte(recorded.reportsPerHost[r.dst]));
  }

  lemma AfterRings(d: Detector, r: Report, n: Endpoint)
    ensures Rings(After(d, r), n) == if n == r.dst then Rings(d, n) + {r.ring} else Rings(d, n)
  {
    AfterFrame(d, r);
    RecordedRings(d, r, n);
  }

  /** A new report about `r.dst` moves it from `t` to `t + 1`; the byte count plays no part. */
  lemma AfterCrosses(d: Detector, r: Report, t: nat)
    requires Watermarks(d.k, d.h, d.l) && RingsOk(d) && r.ring < 256
    requires r.ring !in Rings(d, r.dst) && t == Tally(d, r.dst) + 1
    ensures After(d, r) == Released(Cross(Recorded(d, r), r.dst, t), t)
    ensures Cut(d, r) == Emission(Cross(Recorded(d, r), r.dst, t), t)
  {
    var reports := Recorded(d, r).reportsPerHost[r.dst];
    assert reports.Keys == Rings(d, r.dst) + {r.ring};
    assert |reports| == t;
    BytesDoNotWrapOntoAWatermark(reports, d.l);
    BytesDoNotWrapOntoAWatermark(reports, d.h);
    SameMarks(Recorded(d, r), r.dst, CountAsByte(reports), t);
  }

  lemma SameMarks(d: Detector, n: Endpoint, num: nat, t: nat)
    requires num == d.l <==> t == d.l
    requires num == d.h <==> t == d.h
    ensures Released(Cross(d, n, num), num) == Released(Cross(d, n, t), t)
    ensures Emission(Cross(d, n, num), num) == Emission(Cross(d, n, t), t)
  {
  }

  /** What one host's tally moving to `t` does to a state that was exact before. */
  lemma CrossKeeps(d: Detector, emitted: set<Endpoint>, n: Endpoint, t: nat, d': Detector, cut: set<Endpoint>)
    requires 0 < d.l <= d.h && 0 < t
    requires d' == Released(Cross(d, n, t), t) && cut == Emission(Cross(d, n, t), t)
    requires d.updatesInProgress == |d.preProposal|
    requires n in d.preProposal <==> d.l <= t - 1 < d.h
    ensures d'.preProposal == if d.l <= t < d.h then d.preProposal + {n} else d.preProposal - {n}
    ensures d'.updatesInProgress == |d'.preProposal|
    ensures if t == d.h && d.preProposal <= {n}
            then cut == d.proposal + {n} && d'.proposal == {} && d'.proposalCount == d.proposalCount + 1
            else cut == {} && d'.proposalCount == d.proposalCount
                 && d'.proposal == if t == d.h then d.proposal + {n} else d.proposal
  {
    var low := CrossLow(d, n, t);
    PreSize(d, n);
    PreSize(low, n);
    assert t == d.l ==> n !in d.preProposal;
    assert low.updatesInProgress == |low.preProposal|;
    if t == d.h {
      assert n in low.preProposal;
      assert low.preProposal - {n} == d.preProposal - {n};
    } else {
      assert n !in d.preProposal ==> d.preProposal - {n} == d.preProposal;
      assert n in d.preProposal ==> d.preProposal + {n} == d.preProposal;
    }
  }

  /** Every report keeps the invariant; a cut is emitted exactly when a host reaches `h` and
      leaves nothing in flux, and it is then every stable host not emitted before. */
  lemma ReportKeeps(d: Detector, emitted: set<Endpoint>, r: Report)
    requires Inv(d, emitted) && r.ring < 256
    ensures Inv(After(d, r), emitted + Cut(d, r)) && Cut(d, r) !! emitted
    ensures Cut(d, r) != {} ==> After(d, r).preProposal == {} && After(d, r).proposal == {}
    ensures Cut(d, r) != {} <==>
            r.ring !in Rings(d, r.dst) && Tally(d, r.dst) + 1 == d.h && d.preProposal <= {r.dst}
    ensures After(d, r).proposalCount == d.proposalCount + if Cut(d, r) != {} then 1 else 0
  {
    if r.ring in Rings(d, r.dst) {
      ReportSame(d, emitted, r);
    } else {
      ReportMoves(d, emitted, r);
    }
  }

  lemma ReportMoves(d: Detector, emitted: set<Endpoint>, r: Report)
    requires Inv(d, emitted) && r.ring < 256 && r.ring !in Rings(d, r.dst)
    ensures Inv(After(d, r), emitted + Cut(d, r)) && Cut(d, r) !! emitted
    ensures Cut(d, r) != {} ==> After(d, r).preProposal == {} && After(d, r).proposal == {}
    ensures Cut(d, r) != {} <==> Tally(d, r.dst) + 1 == d.h && d.preProposal <= {r.dst}
    ensures After(d, r).proposalCount == d.proposalCount + if Cut(d, r) != {} then 1 else 0
  {
    var d', cut, t := After(d, r), Cut(d, r), Tally(d, r.dst) + 1;
    AfterFrame(d, r);
    forall n ensures Rings(d', n) == if n == r.dst then Rings(d, n) + {r.ring} else Rings(d, n) {
      AfterRings(d, r, n);
    }
    AfterCrosses(d, r, t);
    assert InFlux(d, r.dst) <==> r.dst in d.preProposal;
    CrossKeeps(Recorded(d, r), emitted, r.dst, t, d', cut);
    RingsOkAfter(d, r);
    TallyMoves(d, emitted, r, d', cut);
  }

  lemma RingsOkAfter(d: Detector, r: Report)
    requires RingsOk(d) && r.ring < 256
    ensures RingsOk(After(d, r))
  {
    AfterFrame(d, r);
  }

  lemma ReportSame(d: Detector, emitted: set<Endpoint>, r: Report)
    requires Inv(d, emitted) && r.ring < 256 && r.ring in Rings(d, r.dst)
    ensures Inv(After(d, r), emitted + Cut(d, r)) && Cut(d, r) == {}
    ensures After(d, r).proposalCount == d.proposalCount
  {
    var d' := After(d, r);
    assert emitted + {} == emitted;
    RingsOkAfter(d, r);
    forall n ensures Tally(d', n) == Tally(d, n) {
      AfterRings(d, r, n);
      assert n == r.dst ==> Rings(d, n) + {r.ring} == Rings(d, n);
    }
    forall n ensures n in d'.preProposal <==> InFlux(d', n) {
      assert n in d.preProposal <==> InFlux(d, n);
    }
    forall n ensures n in d'.proposal + emitted <==> Stable(d', n) {
      assert n in d.proposal + emitted <==> Stable(d, n);
    }
  }

  /** One more ring for `r.dst`, and the sets moved as its new tally demands. */
  lemma TallyMoves(d: Detector, emitted: set<Endpoint>, r: Report, d': Detector, cut: set<Endpoint>)
    requires Inv(d, emitted) && r.ring !in Rings(d, r.dst)
    requires RingsOk(d') && d'.k == d.k && d'.h == d.h && d'.l == d.l
    requires d'.updatesInProgress == |d'.preProposal|
    requires OneMoreRing(d, r, d')
    requires var t := Tally(d, r.dst) + 1;
      && d'.preProposal == (if d.l <= t < d.h then d.preProposal + {r.dst} else d.preProposal - {r.dst})
      && (if t == d.h && d.preProposal <= {r.dst}
          then cut == d.proposal + {r.dst} && d'.proposal == {}
          else cut == {} && d'.proposal == if t == d.h then d.proposal + {r.dst} else d.proposal)
    ensures Inv(d', emitted + cut) && cut !! emitted && (cut != {} ==> d'.preProposal == {})
  {
    assert InFlux(d, r.dst) <==> r.dst in d.preProposal;
    assert Stable(d, r.dst) <==> r.dst in d.proposal + emitted;
    PreSize(d, r.dst);
    PreMoves(d, r, d');
    StableSets(d.proposal, d'.proposal, emitted, cut, r.dst, Tally(d, r.dst) + 1 == d.h, d.preProposal <= {r.dst});
    StableMoves(d, emitted, r, d', cut);
  }

  lemma StableSets(before: set<Endpoint>, after: set<Endpoint>, emitted: set<Endpoint>, cut: set<Endpoint>,
                   n: Endpoint, hit: bool, last: bool)
    requires before !! emitted && (hit ==> n !in emitted)
    requires if hit && last then cut == before + {n} && after == {}
             else cut == {} && after == if hit then before + {n} else before
    ensures after + (emitted + cut) == before + emitted + if hit then {n} else {}
    ensures after !! emitted + cut && cut !! emitted
  {
  }

  ghost predicate OneMoreRing(d: Detector, r: Report, d': Detector) {
    && r.ring !in Rings(d, r.dst) && d'.h == d.h && d'.l == d.l
    && forall n {:trigger Rings(d', n)} ::
         Rings(d', n) == if n == r.dst then Rings(d, n) + {r.ring} else Rings(d, n)
  }

  lemma PreMoves(d: Detector, r: Report, d': Detector)
    requires PreExact(d) && OneMoreRing(d, r, d')
    requires var t := Tally(d, r.dst) + 1;
             d'.preProposal == if d.l <= t < d.h then d.preProposal + {r.dst} else d.preProposal - {r.dst}
    ensures PreExact(d')
  {
    forall n ensures n in d'.preProposal <==> InFlux(d', n) {
      assert n in d.preProposal <==> InFlux(d, n);
      assert Rings(d', n) == if n == r.dst then Rings(d, n) + {r.ring} else Rings(d, n);
    }
  }

  lemma StableMoves(d: Detector, emitted: set<Endpoint>, r: Report, d': Detector, cut: set<Endpoint>)
    requires StableExact(d, emitted) && OneMoreRing(d, r, d')
    requires d'.proposal + (emitted + cut) == d.proposal + emitted + if Tally(d, r.dst) + 1 == d.h then {r.dst} else {}
    ensures StableExact(d', emitted + cut)
  {
    forall n ensures n in d'.proposal + (emitted + cut) <==> Stable(d', n) {
      assert n in d.proposal + emitted <==> Stable(d, n);
      assert Rings(d', n) == if n == r.dst then Rings(d, n) + {r.ring} else Rings(d, n);
    }
  }

  /** Cardinalities of the in-flux set with one host added or removed. */
  lemma PreSize(d: Detector, n: Endpoint)
    ensures |d.preProposal + {n}| == |d.preProposal| + if n in d.preProposal then 0 else 1
    ensures |d.preProposal - {n}| == |d.preProposal| - if n in d.preProposal then 1 else 0
    ensures |d.preProposal| == 0 <==> d.preProposal == {}
    ensures d.preProposal <= {n} <==> d.preProposal == {} || d.preProposal == {n}
    ensures d.preProposal <= {n} <==> d.preProposal - {n} == {}
    ensures (d.preProposal + {n}) - {n} == d.preProposal - {n}
  {
    if n in d.preProposal {
      assert d.preProposal + {n} == d.preProposal;
    }
  }

  // ---------------------------------------------------------------- runs of reports

  /** The state after a run of reports ... */
  function AfterAll(d: Detector, reports: seq<Report>): Detector
    decreases |reports|
  {
    if reports == [] then d else AfterAll(After(d, reports[0]), reports[1..])
  }

  /** ... and everything emitted on the way. */
  function Emitted(d: Detector, reports: seq<Report>): set<Endpoint>
    decreases |reports|
  {
    if reports == [] then {} else Cut(d, reports[0]) + Emitted(After(d, reports[0]), reports[1..])
  }

  predicate ByteRings(reports: seq<Report>) { forall r :: r in reports ==> r.ring < 256 }

  /** What one report emitted and what the rest of the run emitted, put together. */
  lemma JoinEmissions(d: Detector, emitted: set<Endpoint>, cut: set<Endpoint>, rest: set<Endpoint>)
    requires Inv(d, (emitted + cut) + rest) && cut !! emitted && rest !! emitted + cut
    ensures Inv(d, emitted + (cut + rest)) && cut + rest !! emitted
  {
    assert (emitted + cut) + rest == emitted + (cut + rest);
  }

  /** Whatever was emitted before, a run keeps the invariant and emits no host again. */
  lemma {:induction false} RunKeeps(d: Detector, emitted: set<Endpoint>, reports: seq<Report>)
    requires Inv(d, emitted) && ByteRings(reports)
    ensures Inv(AfterAll(d, reports), emitted + Emitted(d, reports)) && Emitted(d, reports) !! emitted
    decreases |reports|
  {
    if reports == [] {
      assert emitted + {} == emitted;
    } else {
      ReportKeeps(d, emitted, reports[0]);
      RunKeeps(After(d, reports[0]), emitted + Cut(d, reports[0]), reports[1..]);
      JoinEmissions(AfterAll(d, reports), emitted, Cut(d, reports[0]),
                    Emitted(After(d, reports[0]), reports[1..]));
    }
  }

  lemma {:induction false} RunFrame(d: Detector, reports: seq<Report>)
    ensures AfterAll(d, reports).h == d.h && AfterAll(d, reports).l == d.l && AfterAll(d, reports).k == d.k
    decreases |reports|
  {
    if reports != [] {
      AfterFrame(d, reports[0]);
      RunFrame(After(d, reports[0]), reports[1..]);
    }
  }

  function RingsIn(reports: seq<Report>, n: Endpoint): set<nat> {
    set r | r in reports && r.dst == n :: r.ring
  }

  lemma RingsInTail(reports: seq<Report>, n: Endpoint)
    requires reports != []
    ensures RingsIn(reports, n)
         == (if reports[0].dst == n then {reports[0].ring} else {}) + RingsIn(reports[1..], n)
  {
    assert reports == [reports[0]] + reports[1..];
  }

  /** The rings recorded for a host are those reported, whatever the order and the repeats. */
  lemma {:induction false} RunRings(d: Detector, reports: seq<Report>, n: Endpoint)
    ensures Rings(AfterAll(d, reports), n) == Rings(d, n) + RingsIn(reports, n)
    decreases |reports|
  {
    if reports != [] {
      AfterRings(d, reports[0], n);
      RunRings(After(d, reports[0]), reports[1..], n);
      RingsInTail(reports, n);
    }
  }

  /** Who reported `n` on ring `i`. */
  function Reporter(d: Detector, n: Endpoint, i: nat): Endpoint
    requires i in Rings(d, n)
  {
    d.reportsPerHost[n][i]
  }

  /** The first to report a ring stays its reporter. */
  lemma {:induction false} RunReporters(d: Detector, reports: seq<Report>, n: Endpoint, i: nat)
    requires i in Rings(AfterAll(d, reports), n)
    ensures if i in Rings(d, n) then Reporter(AfterAll(d, reports), n, i) == Reporter(d, n, i)
            else exists r :: r in reports && r.dst == n && r.ring == i
                   && Reporter(AfterAll(d, reports), n, i) == r.src
    decreases |reports|
  {
    if reports != [] {
      var r, rest := reports[0], reports[1..];
      AfterFrame(d, r);
      RunReporters(After(d, r), rest, n, i);
      assert reports == [r] + rest;
      if i !in Rings(After(d, r), n) {
        var r' :| r' in rest && r'.dst == n && r'.ring == i && Reporter(AfterAll(d, reports), n, i) == r'.src;
        assert r' in reports;
      } else if i !in Rings(d, n) {
        AfterRings(d, r, n);
        assert r in reports;
      }
    }
  }

  /** A failure was seen if one was before or one of the reports is of one. */
  lemma {:induction false} RunDown(d: Detector, reports: seq<Report>)
    ensures AfterAll(d, reports).seenLinkDown <==> d.seenLinkDown || exists r :: r in reports && r.down
    decreases |reports|
  {
    if reports != [] {
      AfterFrame(d, reports[0]);
      RunDown(After(d, reports[0]), reports[1..]);
      assert forall r :: r in reports <==> r == reports[0] || r in reports[1..];
    }
  }

  /** Reports about one host emit exactly when they take it to `h` and no other host is in flux; then
      all hosts at `h` or above that were not emitted before. */
  ghost predicate OneHostCut(d: Detector, emitted: set<Endpoint>, n: Endpoint, d': Detector, cut: set<Endpoint>) {
    && (cut != {} <==> Tally(d, n) < d.h <= Tally(d', n) && d.preProposal <= {n})
    && (cut != {} ==> d'.preProposal == {} && forall m {:trigger Stable(d', m)} ::
                                                m in cut <==> m !in emitted && Stable(d', m))
  }

  lemma {:induction false} OneHostRun(d: Detector, emitted: set<Endpoint>, reports: seq<Report>, n: Endpoint)
    requires Inv(d, emitted) && ByteRings(reports) && forall r :: r in reports ==> r.dst == n
    ensures OneHostCut(d, emitted, n, AfterAll(d, reports), Emitted(d, reports))
    decreases |reports|
  {
    if reports != [] {
      var d1, cut := After(d, reports[0]), Cut(d, reports[0]);
      ReportKeeps(d, emitted, reports[0]);
      OneHostStep(d, emitted, reports[0]);
      OneHostRun(d1, emitted + cut, reports[1..], n);
      OneHostRest(d1, emitted + cut, reports[1..], n);
      OneHostJoin(d, emitted, n, d1, cut, AfterAll(d, reports), Emitted(d1, reports[1..]));
    }
  }

  /** From `d` to `d'` only the tally of `n` moved, and only upwards. */
  ghost predicate OnlyTally(d: Detector, n: Endpoint, d': Detector) {
    && d'.h == d.h && d'.l == d.l && Tally(d, n) <= Tally(d', n)
    && forall m {:trigger Tally(d', m)} :: m != n ==> Tally(d', m) == Tally(d, m)
  }

  lemma OneHostStep(d: Detector, emitted: set<Endpoint>, r: Report)
    requires Inv(d, emitted) && r.ring < 256
    ensures OnlyTally(d, r.dst, After(d, r)) && Tally(After(d, r), r.dst) <= Tally(d, r.dst) + 1
    ensures OneHostCut(d, emitted, r.dst, After(d, r), Cut(d, r))
  {
    var d', cut, n := After(d, r), Cut(d, r), r.dst;
    AfterFrame(d, r);
    forall m ensures Rings(d', m) == if m == n then Rings(d, m) + {r.ring} else Rings(d, m) {
      AfterRings(d, r, m);
    }
    assert r.ring in Rings(d, n) ==> Rings(d, n) + {r.ring} == Rings(d, n);
    ReportKeeps(d, emitted, r);
    if cut != {} {
      forall m ensures m in cut <==> m !in emitted && Stable(d', m) {
        assert Stable(d', m) <==> m in d'.proposal + (emitted + cut);
      }
    }
  }

  lemma OneHostRest(d: Detector, emitted: set<Endpoint>, reports: seq<Report>, n: Endpoint)
    requires Inv(d, emitted) && ByteRings(reports) && forall r :: r in reports ==> r.dst == n
    ensures OnlyTally(d, n, AfterAll(d, reports))
    ensures Inv(AfterAll(d, reports), emitted + Emitted(d, reports)) && Emitted(d, reports) !! emitted
  {
    RunKeeps(d, emitted, reports);
    OneHostTallies(d, reports, n);
  }

  lemma OneHostTallies(d: Detector, reports: seq<Report>, n: Endpoint)
    requires forall r :: r in reports ==> r.dst == n
    ensures OnlyTally(d, n, AfterAll(d, reports))
  {
    RunFrame(d, reports);
    forall m ensures m != n ==> Tally(AfterAll(d, reports), m) == Tally(d, m) {
      RunRings(d, reports, m);
      assert m != n ==> RingsIn(reports, m) == {} && Rings(d, m) + {} == Rings(d, m);
    }
    RunRings(d, reports, n);
    SubsetSize(Rings(d, n), Rings(AfterAll(d, reports), n));
  }

  /** The first report and the others, put together. */
  lemma OneHostJoin(d: Detector, emitted: set<Endpoint>, n: Endpoint, d1: Detector, cut: set<Endpoint>,
                    d2: Detector, rest: set<Endpoint>)
    requires Inv(d, emitted) && Inv(d1, emitted + cut) && Inv(d2, (emitted + cut) + rest) && cut !! emitted
    requires OnlyTally(d, n, d1) && Tally(d1, n) <= Tally(d, n) + 1 && OnlyTally(d1, n, d2)
    requires OneHostCut(d, emitted, n, d1, cut) && OneHostCut(d1, emitted + cut, n, d2, rest)
    ensures OneHostCut(d, emitted, n, d2, cut + rest)
  {
    if cut != {} {
      NoMore(emitted, cut, rest);
      OneHostFirst(d, emitted, n, d1, cut, d2);
    } else {
      NothingYet(emitted, rest);
      SameOthers(d, emitted, n, d1, emitted);
      OneHostLater(d, emitted, n, d1, d2, rest);
    }
  }

  lemma NoMore(emitted: set<Endpoint>, cut: set<Endpoint>, rest: set<Endpoint>)
    ensures rest == {} ==> cut + rest == cut && (emitted + cut) + rest == emitted + cut
  {
  }

  lemma NothingYet(emitted: set<Endpoint>, rest: set<Endpoint>)
    ensures emitted + {} == emitted && {} + rest == rest
  {
  }

  /** The first report emitted nothing. */
  lemma OneHostLater(d: Detector, emitted: set<Endpoint>, n: Endpoint, d1: Detector, d2: Detector, rest: set<Endpoint>)
    requires OnlyTally(d, n, d1) && Tally(d1, n) <= Tally(d, n) + 1 && OnlyTally(d1, n, d2)
    requires d1.preProposal <= {n} <==> d.preProposal <= {n}
    requires OneHostCut(d, emitted, n, d1, {}) && OneHostCut(d1, emitted, n, d2, rest)
    ensures OneHostCut(d, emitted, n, d2, rest)
  {
  }

  /** The first report emitted; the others find nothing left. */
  lemma OneHostFirst(d: Detector, emitted: set<Endpoint>, n: Endpoint, d1: Detector, cut: set<Endpoint>, d2: Detector)
    requires Inv(d1, emitted + cut) && Inv(d2, emitted + cut) && cut != {} && cut !! emitted
    requires OneHostCut(d, emitted, n, d1, cut) && OnlyTally(d1, n, d2) && d1.h == d.h
    ensures OneHostCut(d, emitted, n, d2, cut)
  {
    NothingLeft(d1, emitted + cut, n, d2);
    forall m ensures m in cut <==> m !in emitted && Stable(d2, m) {
      assert Stable(d2, m) <==> m in d2.proposal + (emitted + cut);
    }
  }

  /** Hosts other than `n` stay in flux or out of it. */
  lemma SameOthers(d: Detector, emitted: set<Endpoint>, n: Endpoint, d': Detector, emitted': set<Endpoint>)
    requires Inv(d, emitted) && Inv(d', emitted') && OnlyTally(d, n, d')
    ensures forall m :: m != n ==> (m in d'.preProposal <==> m in d.preProposal)
    ensures d'.preProposal <= {n} <==> d.preProposal <= {n}
  {
    forall m ensures m != n ==> (m in d'.preProposal <==> m in d.preProposal) {
      assert (InFlux(d, m) <==> m in d.preProposal) && (InFlux(d', m) <==> m in d'.preProposal);
      assert m != n ==> Tally(d', m) == Tally(d, m);
    }
  }

  /** With `n` at `h` and nothing in flux, more reports about `n` leave nothing in flux or pending. */
  lemma NothingLeft(d: Detector, emitted: set<Endpoint>, n: Endpoint, d': Detector)
    requires Inv(d, emitted) && Inv(d', emitted)
    requires OnlyTally(d, n, d') && Stable(d, n) && d.preProposal == {}
    ensures d'.preProposal == {} && d'.proposal == {}
  {
    SameOthers(d, emitted, n, d', emitted);
    assert InFlux(d', n) <==> n in d'.preProposal;
    assert d'.preProposal == {};
  }

  lemma FreshInv(k: nat, h: nat, l: nat)
    requires Watermarks(k, h, l)
    ensures Inv(Fresh(k, h, l), {})
  {
    var d := Fresh(k, h, l);
    forall n ensures !InFlux(d, n) && !Stable(d, n) {
      assert Rings(d, n) == {};
    }
  }

  /** Two streams that say the same about the same hosts, in any order and with any repeats. */
  ghost predicate SameEdges(a: seq<Report>, b: seq<Report>) {
    forall n {:trigger RingsIn(a, n)} :: RingsIn(a, n) == RingsIn(b, n)
  }

  /** Confluence: such streams leave the same tallies and the same hosts in flux, and have
      emitted the same hosts whenever nothing is left in flux. */
  lemma Confluence(d0: Detector, a: seq<Report>, b: seq<Report>)
    requires Watermarks(d0.k, d0.h, d0.l) && d0 == Fresh(d0.k, d0.h, d0.l)
    requires ByteRings(a) && ByteRings(b) && SameEdges(a, b)
    ensures forall n :: Tally(AfterAll(d0, a), n) == Tally(AfterAll(d0, b), n)
    ensures AfterAll(d0, a).preProposal == AfterAll(d0, b).preProposal
    ensures AfterAll(d0, a).proposal + Emitted(d0, a) == AfterAll(d0, b).proposal + Emitted(d0, b)
    ensures AfterAll(d0, a).preProposal == {} ==>
              Emitted(d0, a) == Emitted(d0, b) && forall n :: n in Emitted(d0, a) <==> |RingsIn(a, n)| >= d0.h
  {
    forall n ensures Tally(AfterAll(d0, a), n) == Tally(AfterAll(d0, b), n) {
      FromFresh(d0, a, n);
      FromFresh(d0, b, n);
      assert RingsIn(a, n) == RingsIn(b, n);
    }
    FromFresh(d0, a, Endpoint([], 0));
    FromFresh(d0, b, Endpoint([], 0));
    SameTallies(AfterAll(d0, a), Emitted(d0, a), AfterAll(d0, b), Emitted(d0, b));
    if AfterAll(d0, a).preProposal == {} {
      forall n ensures n in Emitted(d0, a) <==> |RingsIn(a, n)| >= d0.h {
        FromFresh(d0, a, n);
        assert Stable(AfterAll(d0, a), n) <==> n in AfterAll(d0, a).proposal + Emitted(d0, a);
      }
    }
  }

  /** From a cleared detector the invariant holds of what was emitted, and tallies count rings. */
  lemma FromFresh(d0: Detector, a: seq<Report>, n: Endpoint)
    requires Watermarks(d0.k, d0.h, d0.l) && d0 == Fresh(d0.k, d0.h, d0.l) && ByteRings(a)
    ensures Inv(AfterAll(d0, a), Emitted(d0, a)) && AfterAll(d0, a).h == d0.h && AfterAll(d0, a).l == d0.l
    ensures Tally(AfterAll(d0, a), n) == |RingsIn(a, n)|
  {
    FreshInv(d0.k, d0.h, d0.l);
    RunKeeps(d0, {}, a);
    RunFrame(d0, a);
    assert {} + Emitted(d0, a) == Emitted(d0, a);
    RunRings(d0, a, n);
    assert Rings(d0, n) + RingsIn(a, n) == RingsIn(a, n);
  }

  lemma SameTallies(da: Detector, outA: set<Endpoint>, db: Detector, outB: set<Endpoint>)
    requires Inv(da, outA) && Inv(db, outB) && da.h == db.h && da.l == db.l
    requires forall n {:trigger Tally(da, n)} :: Tally(da, n) == Tally(db, n)
    ensures da.preProposal == db.preProposal
    ensures da.proposal + outA == db.proposal + outB
    ensures da.preProposal == {} ==> outA == outB
  {
    forall n ensures n in da.preProposal <==> n in db.preProposal {
      assert (InFlux(da, n) <==> n in da.preProposal) && (InFlux(db, n) <==> n in db.preProposal);
      assert Tally(da, n) == Tally(db, n);
    }
    forall n ensures n in da.proposal + outA <==> n in db.proposal + outB {
      assert (Stable(da, n) <==> n in da.proposal + outA) && (Stable(db, n) <==> n in db.proposal + outB);
      assert Tally(da, n) == Tally(db, n);
    }
  }

  /** A permutation of the reports is such a stream. */
  lemma PermutedReportsAgree(a: seq<Report>, b: seq<Report>)
    requires multiset(a) == multiset(b)
    ensures SameEdges(a, b) && (ByteRings(a) <==> ByteRings(b))
  {
    forall r ensures r in a <==> r in b {
      assert r in multiset(a) <==> r in multiset(b);
    }
    forall n ensures RingsIn(a, n) == RingsIn(b, n) {
      assert RingsIn(a, n) <= RingsIn(b, n);
      assert RingsIn(b, n) <= RingsIn(a, n);
    }
  }
}
