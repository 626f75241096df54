/** Consensus and view changes together: over any number of configurations, each decided by its own
    run of the protocol, all replicas go through the same views. */
module Convergence {
  import opened Types
  import opened Listings
  import opened Protocol
  import opened Membership
  import opened ViewChange
  import A = Agreement

  /** The run of the protocol in one configuration. */
  datatype Epoch = Epoch(env: Env, steps: seq<Step>)

  /** Some node decided `v` in this configuration. */
  ghost predicate Decided(epoch: Epoch, v: Proposal) {
    && epoch.env.Valid() && epoch.env.Safe() && Execute(epoch.env, epoch.steps).Some?
    && exists a :: (a, v) in Execute(epoch.env, epoch.steps).value.decisions
  }

  /** One configuration decides one value. */
  lemma OneDecision(epoch: Epoch, v: Proposal, w: Proposal)
    requires Decided(epoch, v) && Decided(epoch, w)
    ensures v == w
  {
    var a :| (a, v) in Execute(epoch.env, epoch.steps).value.decisions;
    var b :| (b, w) in Execute(epoch.env, epoch.steps).value.decisions;
    A.AllDecisionsAgree(epoch.env, epoch.steps, (a, v), (b, w));
  }

  /** A replica that started at configuration `from` applied what was decided in each since. */
  ghost predicate Follows(world: seq<Epoch>, from: nat, rounds: seq<Round>) {
    && from + |rounds| <= |world|
    && forall k :: 0 <= k < |rounds| ==> Decided(world[from + k], rounds[k].proposal)
  }

  /** The configurations are those of a replica's views: their members take part, under their id. */
  ghost predicate RunsOf(world: seq<Epoch>, s: Service, rounds: seq<Round>, idOf: Membership -> int) {
    && |rounds| <= |world|
    && forall k :: 0 <= k < |rounds| ==>
         && world[k].env.members == Replay(s, rounds[..k]).view.members
         && world[k].env.configurationId == idOf(Replay(s, rounds[..k]).view)
  }

  /** Two replicas know the same of the joiners of each decision they share. */
  predicate ShareKnowledge(from: nat, ra: seq<Round>, rb: seq<Round>) {
    forall k :: 0 <= k < |rb| && from + k < |ra| ==>
      SameKnowledge(ra[from + k].uuids, rb[k].uuids, ra[from + k].proposal)
  }

  /** Equal views after a configuration in which both decided, each perhaps on another node's word. */
  lemma OneConfiguration(epoch: Epoch, a: Service, ra: Round, b: Service, rb: Round)
    requires a.view == b.view && SameKnowledge(ra.uuids, rb.uuids, ra.proposal)
    requires Decided(epoch, ra.proposal) && Decided(epoch, rb.proposal)
    ensures Decide(Informed(a, ra), ra.proposal).view == Decide(Informed(b, rb), rb.proposal).view
  {
    OneDecision(epoch, ra.proposal, rb.proposal);
    SameDecision(Informed(a, ra), Informed(b, rb), ra.proposal);
  }

  lemma BothDecide(world: seq<Epoch>, ra: seq<Round>, from: nat, rb: seq<Round>, k: nat)
    requires Follows(world, 0, ra) && Follows(world, from, rb) && ShareKnowledge(from, ra, rb)
    requires k < |rb| && from + k < |ra|
    ensures Decided(world[from + k], ra[from + k].proposal) && Decided(world[from + k], rb[k].proposal)
    ensures SameKnowledge(ra[from + k].uuids, rb[k].uuids, ra[from + k].proposal)
  {
    assert Decided(world[0 + (from + k)], ra[from + k].proposal);
  }

  /** After `n` rounds of its own, `b` has the view `a` had in that configuration. */
  ghost predicate SameViewAfter(a: Service, ra: seq<Round>, from: nat, b: Service, rb: seq<Round>, n: nat)
    requires n <= |rb| && from + n <= |ra|
  {
    Replay(b, rb[..n]).view == Replay(a, ra[..from + n]).view
  }

  lemma NoRoundsYet(a: Service, ra: seq<Round>, from: nat, b: Service, rb: seq<Round>)
    requires from <= |ra| && b.view == Replay(a, ra[..from]).view
    ensures SameViewAfter(a, ra, from, b, rb, 0)
  {
    assert rb[..0] == [] && ra[..from + 0] == ra[..from];
  }

  lemma StepConverges(world: seq<Epoch>, a: Service, ra: seq<Round>, from: nat, b: Service, rb: seq<Round>, k: nat)
    requires Follows(world, 0, ra) && Follows(world, from, rb) && ShareKnowledge(from, ra, rb)
    requires k < |rb| && from + k < |ra| && SameViewAfter(a, ra, from, b, rb, k)
    ensures SameViewAfter(a, ra, from, b, rb, k + 1)
  {
    StepDecides(world, a, ra, from, b, rb, k);
    StepsAgree(a, ra, from, b, rb, k);
  }

  /** Both apply the decision of the configuration to equal views. */
  ghost predicate AppliedAlike(a: Service, ra: seq<Round>, from: nat, b: Service, rb: seq<Round>, k: nat)
    requires k < |rb| && from + k < |ra|
  {
    Decide(Informed(Replay(a, ra[..from + k]), ra[from + k]), ra[from + k].proposal).view
    == Decide(Informed(Replay(b, rb[..k]), rb[k]), rb[k].proposal).view
  }

  lemma StepDecides(world: seq<Epoch>, a: Service, ra: seq<Round>, from: nat, b: Service, rb: seq<Round>, k: nat)
    requires Follows(world, 0, ra) && Follows(world, from, rb) && ShareKnowledge(from, ra, rb)
    requires k < |rb| && from + k < |ra| && SameViewAfter(a, ra, from, b, rb, k)
    ensures AppliedAlike(a, ra, from, b, rb, k)
  {
    BothDecide(world, ra, from, rb, k);
    OneConfiguration(world[from + k], Replay(a, ra[..from + k]), ra[from + k], Replay(b, rb[..k]), rb[k]);
  }

  lemma StepsAgree(a: Service, ra: seq<Round>, from: nat, b: Service, rb: seq<Round>, k: nat)
    requires k < |rb| && from + k < |ra| && AppliedAlike(a, ra, from, b, rb, k)
    ensures SameViewAfter(a, ra, from, b, rb, k + 1)
  {
    StepView(a, ra, from + k);
    StepView(b, rb, k);
    assert ra[..from + (k + 1)] == ra[..from + k + 1];
  }

  lemma {:induction false} ViewsStaySame(world: seq<Epoch>, a: Service, ra: seq<Round>,
                                         from: nat, b: Service, rb: seq<Round>, n: nat)
    requires Follows(world, 0, ra) && Follows(world, from, rb) && ShareKnowledge(from, ra, rb)
    requires n <= |rb| && from + n <= |ra| && SameViewAfter(a, ra, from, b, rb, 0)
    ensures SameViewAfter(a, ra, from, b, rb, n)
  {
    if n > 0 {
      ViewsStaySame(world, a, ra, from, b, rb, n - 1);
      StepConverges(world, a, ra, from, b, rb, n - 1);
    }
  }

  /** A replica `b` that joined at configuration `from` with the view replica `a` had there goes
      through the same views, configuration by configuration, whoever's decisions the two saw. */
  lemma ReplicasConverge(world: seq<Epoch>, a: Service, ra: seq<Round>, from: nat, b: Service, rb: seq<Round>, n: nat)
    requires Follows(world, 0, ra) && Follows(world, from, rb) && ShareKnowledge(from, ra, rb)
    requires n <= |rb| && from + n <= |ra| && b.view == Replay(a, ra[..from]).view
    ensures SameViewAfter(a, ra, from, b, rb, n)
  {
    NoRoundsYet(a, ra, from, b, rb);
    ViewsStaySame(world, a, ra, from, b, rb, n);
  }

  /** Two replicas that applied what the configurations from `from` on decided have equal views after
      every one of them if and only if they began with equal views and each time knew enough of the
      joiners to admit the same ones. */
  lemma ConvergeIff(world: seq<Epoch>, from: nat, a: Service, ra: seq<Round>, b: Service, rb: seq<Round>)
    requires Follows(world, from, ra) && Follows(world, from, rb) && |ra| == |rb|
    requires forall k :: 0 <= k < |ra| ==> Distinct(ra[k].proposal)
    ensures InStep(a, ra, b, rb) <==> a.view == b.view && AdmitAlike(a, ra, b, rb)
  {
    forall k | 0 <= k < |ra| ensures ra[k].proposal == rb[k].proposal {
      OneDecision(world[from + k], ra[k].proposal, rb[k].proposal);
    }
    InStepIff(a, b, ra, rb);
  }

  /** So the configurations of one replica are those of every other, and a decision whose joiners
      are ready toggles the same members everywhere. */
  lemma SameConfigurations(world: seq<Epoch>, a: Service, ra: seq<Round>, b: Service, rb: seq<Round>,
                           idOf: Membership -> int)
    requires Follows(world, 0, ra) && Follows(world, 0, rb) && ShareKnowledge(0, ra, rb)
    requires a.view == b.view && |rb| <= |ra| && RunsOf(world, a, ra, idOf)
    ensures RunsOf(world, b, rb, idOf)
    ensures forall n | 0 <= n < |rb| && Distinct(ra[n].proposal)
                       && JoinersReady(Informed(Replay(a, ra[..n]), ra[n]), ra[n].proposal) ::
              Replay(b, rb[..n + 1]).view.members
              == Toggled(Replay(b, rb[..n]).view.members, Elements(ra[n].proposal))
  {
    forall n | 0 <= n <= |rb| ensures Replay(b, rb[..n]).view == Replay(a, ra[..n]).view {
      ReplicasConverge(world, a, ra, 0, b, rb, n);
    }
    forall n | 0 <= n < |rb| && Distinct(ra[n].proposal)
               && JoinersReady(Informed(Replay(a, ra[..n]), ra[n]), ra[n].proposal)
      ensures Replay(b, rb[..n + 1]).view.members
              == Toggled(Replay(b, rb[..n]).view.members, Elements(ra[n].proposal))
    {
      StepView(a, ra, n);
      TogglesIffReady(Informed(Replay(a, ra[..n]), ra[n]), ra[n].proposal);
    }
  }
}
