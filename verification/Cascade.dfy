/** One message starts a bounded cascade of auto-invoked runs. */
module Cascade {
  import opened Types
  import opened RunTable
  import opened Protocol
  import opened Invariant
  import Induction
  import Recipients

  // ----- depths -----

  ghost predicate LoopDepthOk(p: Publication) {
    p.pc.AtInvoke? ==> p.depth < MAX_CHAIN_DEPTH
  }

  ghost predicate ProcDepthOk(p: Proc) {
    && (p.owner.Driver? ==> p.owner.depth <= MAX_CHAIN_DEPTH)
    && (p.work.Publishing? ==> LoopDepthOk(p.work.publication))
    && (p.work.Calling? ==>
          p.work.call.depth <= MAX_CHAIN_DEPTH
          && (p.work.parent.Some? ==> p.work.parent.value.pc.AtInvoke? && LoopDepthOk(p.work.parent.value)))
  }

  ghost predicate DepthsOk(s: State) {
    && (forall i | 0 <= i < |s.procs| :: ProcDepthOk(s.procs[i]))
    && (forall i | 0 <= i < |s.procs| :: s.procs[i].root <= i)
    && (forall r | 0 <= r < |s.births| :: s.births[r] < |s.procs|)
  }

  lemma LocalStepDepthOk(s: State, p: Proc, c: Choice)
    requires ProcOk(s.runs, p) && Enabled(s, p, c) && ProcDepthOk(p)
    ensures WellTyped(s, p)
    ensures var (p', e) := LocalStep(s, p, c); ProcDepthOk(p') && (e.Spawn? ==> e.depth <= MAX_CHAIN_DEPTH)
  {
    OkIsWellTyped(s, p);
  }

  lemma StepKeepsDepths(s: State, pid: nat, p': Proc, e: Effect, t: State)
    requires DepthsOk(s) && Stepped(s, pid, p', e, t)
    requires ProcDepthOk(p') && (e.Spawn? ==> e.depth <= MAX_CHAIN_DEPTH)
    ensures DepthsOk(t)
  {
  }

  lemma ApplyKeepsDepths(s: State, a: Action)
    requires Inv(s) && DepthsOk(s) && CanApply(s, a)
    ensures DepthsOk(Apply(s, a))
  {
    if a.Act? {
      ActFrame(s, a.pid, a.choice);
      LocalStepDepthOk(s, s.procs[a.pid], a.choice);
      var (p', e) := LocalStep(s, s.procs[a.pid], a.choice);
      StepKeepsDepths(s, a.pid, p', e, Apply(s, a));
    }
  }

  lemma {:induction false} DepthsAlways(tr: seq<State>, acts: seq<Action>, n: nat)
    requires Behaviour(tr, acts) && n < |tr|
    ensures Inv(tr[n]) && DepthsOk(tr[n])
  {
    InvAlways(tr, acts, n);
    if n > 0 {
      DepthsAlways(tr, acts, n - 1);
      ApplyKeepsDepths(tr[n - 1], acts[n - 1]);
    }
  }

  /** Every recorded depth lies between 0 and the cap. */
  lemma RecordedDepthsBounded(tr: seq<State>, acts: seq<Action>, n: nat, r: RunId)
    requires Behaviour(tr, acts) && n < |tr| && r in tr[n].depths
    ensures tr[n].depths[r] <= 8
  {
    DepthsAlways(tr, acts, n);
    var i :| 0 <= i < |tr[n].procs| && Driving(tr[n].procs[i], r);
    assert ProcDepthOk(tr[n].procs[i]);
  }

  // ----- the potential -----

  /** How hard a run may fan out: `perRun` directed messages of `perMessage` recipients. */
  datatype Fan = Fan(perRun: nat, perMessage: nat)

  /** The most runs that one call at depth `d` can lead to, itself included. */
  function Weight(fan: Fan, d: nat): nat
    decreases MAX_CHAIN_DEPTH + 1 - d
  {
    if d >= MAX_CHAIN_DEPTH then 1 else 1 + fan.perRun * MessageCost(fan, d)
  }

  /** The most runs that one message directed from depth `d` can lead to. */
  function MessageCost(fan: Fan, d: nat): nat
    decreases MAX_CHAIN_DEPTH + 1 - d, 0
  {
    if d >= MAX_CHAIN_DEPTH then 0 else fan.perMessage * Weight(fan, d + 1)
  }

  function OwnDepth(o: Owner): nat {
    if o.Driver? then o.depth else 0
  }

  function OwnerPart(fan: Fan, o: Owner): nat {
    if o.Driver? && o.directed <= fan.perRun then (fan.perRun - o.directed) * MessageCost(fan, o.depth) else 0
  }

  function PublicationPart(fan: Fan, p: Publication, d: nat): nat {
    if p.pc.AtInvoke? then |p.rest| * Weight(fan, p.depth + 1)
    else if p.event.kind.Message? && p.event.recipients.Some? && d < MAX_CHAIN_DEPTH
    then |p.event.recipients.value| * Weight(fan, d + 1)
    else 0
  }

  function CallPart(fan: Fan, c: Call): nat {
    match c.pc
    case AtSpawn(_) => Weight(fan, c.depth) - 1
    case Returned(_) => 0
    case _ => Weight(fan, c.depth)
  }

  function WorkPart(fan: Fan, w: Work, d: nat): nat {
    match w
    case Idle => 0
    case Publishing(p) => PublicationPart(fan, p, d)
    case Calling(parent, call) =>
      CallPart(fan, call) + if parent.Some? then PublicationPart(fan, parent.value, d) else 0
  }

  /** What a coroutine of root `x` may still add to the cascade. */
  function Part(fan: Fan, p: Proc, x: nat): nat {
    if p.root == x then OwnerPart(fan, p.owner) + WorkPart(fan, p.work, OwnDepth(p.owner)) else 0
  }

  function Sum(fan: Fan, procs: seq<Proc>, x: nat): nat {
    if procs == [] then 0 else Sum(fan, procs[..|procs| - 1], x) + Part(fan, procs[|procs| - 1], x)
  }

  /** The runs that root `x` has led to. */
  function Count(births: seq<nat>, x: nat): nat {
    if births == [] then 0
    else Count(births[..|births| - 1], x) + if births[|births| - 1] == x then 1 else 0
  }

  function Potential(fan: Fan, s: State, x: nat): nat {
    Count(s.births, x) + Sum(fan, s.procs, x)
  }

  lemma {:induction false} SumUpdate(fan: Fan, procs: seq<Proc>, i: nat, p: Proc, x: nat)
    requires i < |procs|
    ensures Sum(fan, procs[i := p], x) == Sum(fan, procs, x) - Part(fan, procs[i], x) + Part(fan, p, x)
  {
    var init := procs[..|procs| - 1];
    if i < |procs| - 1 {
      SumUpdate(fan, init, i, p, x);
      assert procs[i := p][..|procs| - 1] == init[i := p];
    } else {
      assert procs[i := p][..|procs| - 1] == init;
    }
  }

  lemma SumAppend(fan: Fan, procs: seq<Proc>, p: Proc, x: nat)
    ensures Sum(fan, procs + [p], x) == Sum(fan, procs, x) + Part(fan, p, x)
  {
    assert (procs + [p])[..|procs|] == procs;
  }

  lemma CountAppend(births: seq<nat>, b: nat, x: nat)
    ensures Count(births + [b], x) == Count(births, x) + if b == x then 1 else 0
  {
    assert (births + [b])[..|births|] == births;
  }

  // ----- disciplined coroutines -----

  /** The handlers of the cascade stay within the fan and never use `ctx.invoke`,
      which restarts the depth. */
  ghost predicate Disciplined(fan: Fan, s: State, a: Action, x: nat)
    requires CanApply(s, a)
  {
    a.Act? && s.procs[a.pid].root == x ==>
      && !a.choice.Invoke?
      && (a.choice.Yield? && a.choice.kind.Message? ==>
            var o := s.procs[a.pid].owner;
            match Recipients.Normalize(a.choice.recipients, s.runs[o.run].assistant)
            case None => true
            case Some(rs) => o.directed < fan.perRun && |rs| <= fan.perMessage)
  }

  lemma TakeOne(k: nat, u: nat)
    requires k > 0
    ensures k * u == (k - 1) * u + u
  {
  }

  lemma CountScales(k: nat, m: nat, w: nat)
    requires k <= m
    ensures k * w <= m * w
  {
  }

  /** What the step itself adds: a row on insert, a driver on spawn. */
  function Gain(fan: Fan, e: Effect): nat {
    match e
    case Insert(_) => 1
    case Spawn(_, d) => fan.perRun * MessageCost(fan, d)
    case _ => 0
  }

  lemma CallStepPays(fan: Fan, s: State, c: Call)
    requires CallOk(s.runs, c) && !c.pc.Returned? && c.depth <= MAX_CHAIN_DEPTH
    ensures var (c', e) := CallStep(s.runs, c); CallPart(fan, c') + Gain(fan, e) <= CallPart(fan, c)
  {
    var (c', e) := CallStep(s.runs, c);
    assert c'.depth == c.depth;
    assert Weight(fan, c.depth) == 1 + fan.perRun * MessageCost(fan, c.depth);
  }

  lemma PublishStepPays(fan: Fan, s: State, p: Publication, d: nat, authorized: bool)
    requires PublicationOk(p) && LoopDepthOk(p)
    requires p.event.kind.Message? && p.event.recipients.Some? ==> ParentDepth(s, p.event) == d
    ensures var (next, e) := PublishStep(s, p, authorized);
            && Gain(fan, e) == 0
            && (next.Go? ==> WorkPart(fan, next.work, d) <= PublicationPart(fan, p, d))
  {
    if p.pc.AtInvoke? && p.rest != [] {
      TakeOne(|p.rest|, Weight(fan, p.depth + 1));
    }
  }

  lemma WorkStepPays(fan: Fan, s: State, p: Proc, authorized: bool)
    requires ProcOk(s.runs, p) && ProcDepthOk(p) && p.work != Idle
    requires p.owner.Driver? && !p.owner.phase.Gone? ==>
      p.owner.run in s.depths && s.depths[p.owner.run] == p.owner.depth
    ensures WellTyped(s, p)
    ensures var (p', e) := WorkStep(s, p, authorized);
            && OwnerPart(fan, p'.owner) == OwnerPart(fan, p.owner)
            && OwnDepth(p'.owner) == OwnDepth(p.owner)
            && WorkPart(fan, p'.work, OwnDepth(p.owner)) + Gain(fan, e) <= WorkPart(fan, p.work, OwnDepth(p.owner))
  {
    OkIsWellTyped(s, p);
    match p.work
    case Publishing(publication) => PublishStepPays(fan, s, publication, OwnDepth(p.owner), authorized);
    case Calling(parent, call) => if !call.pc.Returned? { CallStepPays(fan, s, call); }
  }

  lemma YieldPays(fan: Fan, s: State, p: Proc, c: Choice)
    requires ProcOk(s.runs, p) && ProcDepthOk(p) && Enabled(s, p, c) && c.Yield?
    requires c.kind.Message? ==>
      match Recipients.Normalize(c.recipients, s.runs[p.owner.run].assistant)
      case None => true
      case Some(rs) => p.owner.directed < fan.perRun && |rs| <= fan.perMessage
    ensures WellTyped(s, p)
    ensures var (p', e) := LocalStep(s, p, c);
            && Gain(fan, e) == 0 && p'.owner.Driver? && p'.owner.depth == p.owner.depth
            && OwnerPart(fan, p'.owner) + WorkPart(fan, p'.work, p.owner.depth) <= OwnerPart(fan, p.owner)
  {
    OkIsWellTyped(s, p);
    var rs := Recipients.Normalize(c.recipients, s.runs[p.owner.run].assistant);
    var d := p.owner.depth;
    if c.kind.Message? && rs.Some? {
      TakeOne(fan.perRun - p.owner.directed, MessageCost(fan, d));
      if d < MAX_CHAIN_DEPTH { CountScales(|rs.value|, fan.perMessage, Weight(fan, d + 1)); }
      Recipients.NormalizeIdempotent(c.recipients, s.runs[p.owner.run].assistant);
    }
  }

  lemma OtherChoicePays(fan: Fan, s: State, p: Proc, c: Choice)
    requires ProcOk(s.runs, p) && Enabled(s, p, c)
    requires !c.Yield? && !c.Invoke? && (c.Advance? ==> p.work == Idle)
    ensures WellTyped(s, p)
    ensures var (p', e) := LocalStep(s, p, c);
            && Gain(fan, e) == 0
            && OwnerPart(fan, p'.owner) == OwnerPart(fan, p.owner)
            && WorkPart(fan, p'.work, OwnDepth(p'.owner)) == 0
  {
    OkIsWellTyped(s, p);
  }

  /** A disciplined step pays for what it adds. */
  lemma LocalStepPays(fan: Fan, s: State, pid: nat, c: Choice, x: nat)
    requires Inv(s) && DepthsOk(s) && CanApply(s, Act(pid, c)) && s.procs[pid].root == x
    requires Disciplined(fan, s, Act(pid, c), x)
    ensures var (p', e) := LocalStep(s, s.procs[pid], c);
            p'.root == x && Part(fan, p', x) + Gain(fan, e) <= Part(fan, s.procs[pid], x)
  {
    var p := s.procs[pid];
    assert ProcOk(s.runs, p) && ProcDepthOk(p);
    LocalStepOk(s, p, c);
    assert p.owner.Driver? && !p.owner.phase.Gone? ==> Driving(p, p.owner.run);
    if c.Advance? && p.work != Idle { WorkStepPays(fan, s, p, c.authorized); }
    else if c.Yield? { YieldPays(fan, s, p, c); }
    else { OtherChoicePays(fan, s, p, c); }
  }

  lemma StepKeepsPotential(fan: Fan, s: State, pid: nat, p': Proc, e: Effect, t: State, x: nat)
    requires Stepped(s, pid, p', e, t) && p'.root == s.procs[pid].root
    requires p'.root == x ==> Part(fan, p', x) + Gain(fan, e) <= Part(fan, s.procs[pid], x)
    ensures Potential(fan, t, x) <= Potential(fan, s, x)
  {
    SumUpdate(fan, s.procs, pid, p', x);
    if e.Insert? { CountAppend(s.births, p'.root, x); }
    if e.Spawn? {
      SumAppend(fan, s.procs[pid := p'], Proc(Driver(e.run, e.depth, Scheduled, 0, Unspoilt), p'.root, Idle), x);
    }
  }

  lemma PotentialNeverGrows(fan: Fan, s: State, a: Action, x: nat)
    requires Inv(s) && DepthsOk(s) && CanApply(s, a) && Disciplined(fan, s, a, x)
    requires |s.procs| > x
    ensures Potential(fan, Apply(s, a), x) <= Potential(fan, s, x)
  {
    var t := Apply(s, a);
    if a.Act? {
      ActFrame(s, a.pid, a.choice);
      if s.procs[a.pid].root == x { LocalStepPays(fan, s, a.pid, a.choice, x); }
      var (p', e) := LocalStep(s, s.procs[a.pid], a.choice);
      StepKeepsPotential(fan, s, a.pid, p', e, t, x);
    } else if |t.procs| > |s.procs| {
      SumAppend(fan, s.procs, t.procs[|s.procs|], x);
    }
  }

  // ----- the bound -----

  function Power(q: nat, n: nat): nat {
    if n == 0 then 1 else q * Power(q, n - 1)
  }

  /** 1 + q + ... + q^(n-1) */
  function Geometric(q: nat, n: nat): nat {
    if n == 0 then 0 else Geometric(q, n - 1) + Power(q, n - 1)
  }

  lemma {:induction false} Horner(q: nat, n: nat)
    ensures Geometric(q, n + 1) == 1 + q * Geometric(q, n)
  {
    if n > 0 {
      Horner(q, n - 1);
      calc {
        Geometric(q, n + 1);
        1 + q * Geometric(q, n - 1) + q * Power(q, n - 1);
        1 + q * (Geometric(q, n - 1) + Power(q, n - 1));
      }
    }
  }

  lemma MultiplyAssociates(a: nat, b: nat, c: nat)
    ensures a * (b * c) == (a * b) * c
  {
  }

  lemma {:induction false} WeightIsGeometric(fan: Fan, d: nat)
    requires d <= MAX_CHAIN_DEPTH
    ensures Weight(fan, d) == Geometric(fan.perRun * fan.perMessage, MAX_CHAIN_DEPTH + 1 - d)
    decreases MAX_CHAIN_DEPTH - d
  {
    var q := fan.perRun * fan.perMessage;
    if d < MAX_CHAIN_DEPTH {
      WeightIsGeometric(fan, d + 1);
      Horner(q, MAX_CHAIN_DEPTH - d);
      MultiplyAssociates(fan.perRun, fan.perMessage, Weight(fan, d + 1));
    } else {
      assert Geometric(q, 1) == Geometric(q, 0) + Power(q, 0);
    }
  }

  lemma {:induction false} NoneYet(fan: Fan, procs: seq<Proc>, x: nat)
    requires forall i | 0 <= i < |procs| :: procs[i].root != x
    ensures Sum(fan, procs, x) == 0
  {
    if procs != [] { NoneYet(fan, procs[..|procs| - 1], x); }
  }

  lemma {:induction false} NoBirths(births: seq<nat>, x: nat)
    requires forall i | 0 <= i < |births| :: births[i] != x
    ensures Count(births, x) == 0
  {
    if births != [] { NoBirths(births[..|births| - 1], x); }
  }

  /** The root message enters at step `k` as coroutine `x`, and from then on the
      coroutines it leads to are disciplined. */
  ghost predicate CascadeFrom(fan: Fan, tr: seq<State>, acts: seq<Action>, k: nat, x: nat) {
    && Behaviour(tr, acts)
    && k < |acts| && acts[k].PublishExternally? && x == |tr[k].procs|
    && (match Recipients.Normalize(acts[k].event.recipients, acts[k].event.author)
        case None => true
        case Some(rs) => |rs| <= fan.perMessage)
    && forall i | k < i < |acts| :: Disciplined(fan, tr[i], acts[i], x)
  }

  /** The root has entered, and its potential is what it was worth on entry. */
  ghost predicate Bounded(fan: Fan, s: State, x: nat) {
    |s.procs| > x && Potential(fan, s, x) <= fan.perMessage * Weight(fan, 1)
  }

  lemma RootEnters(fan: Fan, tr: seq<State>, acts: seq<Action>, k: nat, x: nat)
    requires CascadeFrom(fan, tr, acts, k, x)
    ensures Bounded(fan, tr[k + 1], x)
  {
    var s := tr[k];
    DepthsAlways(tr, acts, k);
    NoneYet(fan, s.procs, x);
    NoBirths(s.births, x);
    SumAppend(fan, s.procs, tr[k + 1].procs[x], x);
    var event := tr[k + 1].procs[x].work.publication.event;
    if event.recipients.Some? { CountScales(|event.recipients.value|, fan.perMessage, Weight(fan, 1)); }
  }

  lemma BoundedStep(fan: Fan, tr: seq<State>, acts: seq<Action>, n: nat, x: nat)
    requires Behaviour(tr, acts) && n + 1 < |tr| && Bounded(fan, tr[n], x) && Disciplined(fan, tr[n], acts[n], x)
    ensures Bounded(fan, tr[n + 1], x)
  {
    DepthsAlways(tr, acts, n);
    PotentialNeverGrows(fan, tr[n], acts[n], x);
    if acts[n].Act? { ActFrame(tr[n], acts[n].pid, acts[n].choice); }
  }

  lemma PotentialBounded(fan: Fan, tr: seq<State>, acts: seq<Action>, k: nat, x: nat, n: nat)
    requires CascadeFrom(fan, tr, acts, k, x) && k < n < |tr|
    ensures Bounded(fan, tr[n], x)
  {
    RootEnters(fan, tr, acts, k, x);
    var bounded := (j: nat) => j < |tr| && Bounded(fan, tr[j], x);
    forall j: nat | k + 1 <= j < n && bounded(j) ensures bounded(j + 1) { BoundedStep(fan, tr, acts, j, x); }
    Induction.Kept(bounded, k + 1, n);
  }

  lemma {:induction false} CountIsCardinality(births: seq<nat>, x: nat)
    ensures Count(births, x) == |set r: nat | r < |births| && births[r] == x|
  {
    if births != [] {
      var last := |births| - 1;
      CountIsCardinality(births[..last], x);
      var before := set r: nat | r < last && births[..last][r] == x;
      assert (set r: nat | r < |births| && births[r] == x) == if births[last] == x then before + {last} else before;
    }
  }

  lemma ThreeMore(q: nat, n: nat, g: nat)
    requires Geometric(q, n) == g
    ensures Geometric(q, n + 3) == 1 + q * (1 + q * (1 + q * g))
  {
    Horner(q, n);
    Horner(q, n + 1);
    Horner(q, n + 2);
  }

  /** 1 + q + ... + q^7, factored. */
  lemma EightTerms(q: nat)
    ensures Geometric(q, 8) == 1 + q * (1 + q * (1 + q * (1 + q * (1 + q * (1 + q * (1 + q))))))
  {
    assert Geometric(q, 1) == Geometric(q, 0) + Power(q, 0);
    Horner(q, 1);
    var two := 1 + q;
    ThreeMore(q, 2, two);
    var five := 1 + q * (1 + q * (1 + q * two));
    ThreeMore(q, 5, five);
  }

  /** In every interleaving, one root message directed at no more than R recipients
      leads to no more than R * (1 + MR + ... + (MR)^7) runs, when each run
      directs at most M messages at most R recipients each. */
  lemma CascadeBound(fan: Fan, tr: seq<State>, acts: seq<Action>, k: nat, x: nat, n: nat)
    requires CascadeFrom(fan, tr, acts, k, x) && k < n < |tr|
    ensures var q := fan.perRun * fan.perMessage;
      |set r: nat | r < |tr[n].births| && tr[n].births[r] == x|
        <= fan.perMessage * (1 + q * (1 + q * (1 + q * (1 + q * (1 + q * (1 + q * (1 + q)))))))
  {
    PotentialBounded(fan, tr, acts, k, x, n);
    WeightIsGeometric(fan, 1);
    EightTerms(fan.perRun * fan.perMessage);
    CountIsCardinality(tr[n].births, x);
  }

  // ----- what a root is -----

  /** A root is where a coroutine came from. One that enters from outside is its own
      root, a driver has the root of the coroutine that started it, and nobody's root
      changes. A row that is inserted is born of the root of the coroutine that
      inserts it, and no other step makes a row. */
  lemma RootsFollow(tr: seq<State>, acts: seq<Action>, n: nat)
    requires Behaviour(tr, acts) && n + 1 < |tr|
    ensures var s, a, t := tr[n], acts[n], tr[n + 1];
      && |s.procs| <= |t.procs| <= |s.procs| + 1
      && (forall i: nat | i < |s.procs| :: t.procs[i].root == s.procs[i].root)
      && (a.Act? ==> a.pid < |s.procs|)
      && (|t.procs| > |s.procs| ==>
            t.procs[|s.procs|].root == if a.Act? then s.procs[a.pid].root else |s.procs|)
      && |t.births| == |t.runs|
      && (|t.runs| > |s.runs| ==> a.Act? && t.births == s.births + [s.procs[a.pid].root])
      && (|t.runs| <= |s.runs| ==> t.births == s.births)
  {
    BirthsAlways(tr, acts, n);
    RootedAt(tr, acts, n);
  }

  /** What a step does to roots and births. */
  ghost predicate Rooted(s: State, a: Action, t: State) {
    && (a.Act? ==> a.pid < |s.procs|)
    && |s.procs| <= |t.procs| <= |s.procs| + 1
    && (forall i: nat | i < |s.procs| :: t.procs[i].root == s.procs[i].root)
    && (|t.procs| > |s.procs| ==> t.procs[|s.procs|].root == if a.Act? then s.procs[a.pid].root else |s.procs|)
    && (if |t.runs| > |s.runs| then
          a.Act? && |t.runs| == |s.runs| + 1 && t.births == s.births + [s.procs[a.pid].root]
        else |t.runs| == |s.runs| && t.births == s.births)
  }

  lemma BirthsStep(s: State, a: Action)
    requires Inv(s) && CanApply(s, a)
    ensures Rooted(s, a, Apply(s, a))
  {
    if a.Act? {
      ActFrame(s, a.pid, a.choice);
      RootStays(s, s.procs[a.pid], a.choice);
      var (p', e) := LocalStep(s, s.procs[a.pid], a.choice);
      SteppedRoots(s, a, p', e, Apply(s, a));
    }
  }

  lemma SteppedRoots(s: State, a: Action, p': Proc, e: Effect, t: State)
    requires a.Act? && Stepped(s, a.pid, p', e, t) && p'.root == s.procs[a.pid].root
    ensures Rooted(s, a, t)
  {
  }

  lemma RootStays(s: State, p: Proc, c: Choice)
    requires ProcOk(s.runs, p) && Enabled(s, p, c)
    ensures WellTyped(s, p) && LocalStep(s, p, c).0.root == p.root
  {
    OkIsWellTyped(s, p);
  }

  lemma RootedAt(tr: seq<State>, acts: seq<Action>, n: nat)
    requires Behaviour(tr, acts) && n < |acts|
    ensures Rooted(tr[n], acts[n], tr[n + 1])
  {
    InvAlways(tr, acts, n);
    BirthsStep(tr[n], acts[n]);
  }

  lemma BirthsAlways(tr: seq<State>, acts: seq<Action>, n: nat)
    requires Behaviour(tr, acts) && n < |tr|
    ensures |tr[n].births| == |tr[n].runs|
  {
    forall k | 0 <= k < |acts| ensures Rooted(tr[k], acts[k], tr[k + 1]) { RootedAt(tr, acts, k); }
    BirthsKept(tr, acts, n);
  }

  lemma {:induction false} BirthsKept(tr: seq<State>, acts: seq<Action>, n: nat)
    requires n < |tr| == |acts| + 1 && |tr[0].births| == |tr[0].runs|
    requires forall k | 0 <= k < |acts| :: Rooted(tr[k], acts[k], tr[k + 1])
    ensures |tr[n].births| == |tr[n].runs|
  {
    if n > 0 {
      BirthsKept(tr, acts, n - 1);
      assert Rooted(tr[n - 1], acts[n - 1], tr[n - 1 + 1]);
    }
  }
}
