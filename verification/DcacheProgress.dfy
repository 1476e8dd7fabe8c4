/** Every request completes: on a bus that accepts and acknowledges, within a bound given by the rows
    still to come and the beats outstanding. */
module DcacheProgress {
  import opened CacheTypes
  import opened Dcache
  import opened DcacheBus
  import opened DcacheReach
  import opened DcacheSystem

  /** The bus accepts a beat at once and acknowledges a beat in every cycle in which one is outstanding,
      and nothing holds stage 0 back. */
  predicate Prompt(b: Bus, i: Input) { !i.stall && !i.hold && (i.ack <==> b.q != []) }

  function One(b: bool): nat { if b then 1 else 0 }

  /** Cycles a refill needs at most: two for each row not requested, one for each row outstanding. */
  function RefillLeft(g: Geometry, f: Refill, q: seq<Beat>): int { 2 * (g.rows - Acked(g, f)) - |q| }

  /** Cycles until the request in stage 1 completes, at most. */
  function Work(g: Geometry, c: Control, q: seq<Beat>): int {
    match c.st
    case Idle => 2 * g.rows + 2
    case ReloadWaitAck =>
      (if c.req.hitReload then 0 else 2 * g.rows + 2) + RefillLeft(g, c.refill, q)
    case StoreWaitAck => 2 * g.rows + 3 + |q| + 2 * One(c.wb.stb)
    case DoStcx => 1
    case FlushCycle => 1
  }

  lemma WorkIdle(g: Geometry, s: State, i: Input, b: Bus, now: nat)
    requires g.Ok() && Linked(g, s, b) && EnvOk(g, b, s, i) && s.ctl.full && Prompt(b, i) && s.ctl.st.Idle?
    ensures var c := NextControl(g, s, i); !c.lsValid ==> Work(g, c, NextQueue(b, s, i, now)) < Work(g, s.ctl, b.q)
  {}

  lemma WorkStore(g: Geometry, s: State, i: Input, b: Bus, now: nat)
    requires g.Ok() && Linked(g, s, b) && EnvOk(g, b, s, i) && s.ctl.full && Prompt(b, i) && s.ctl.st.StoreWaitAck?
    ensures var c := NextControl(g, s, i); !c.lsValid ==> Work(g, c, NextQueue(b, s, i, now)) < Work(g, s.ctl, b.q)
  {}

  lemma WorkRest(g: Geometry, s: State, i: Input, b: Bus)
    requires g.Ok() && Linked(g, s, b) && EnvOk(g, b, s, i) && s.ctl.full && Prompt(b, i)
    requires s.ctl.st.DoStcx? || s.ctl.st.FlushCycle?
    ensures NextControl(g, s, i).lsValid
  {}

  lemma WorkReload(g: Geometry, s: State, i: Input, b: Bus, now: nat)
    requires g.Ok() && Linked(g, s, b) && EnvOk(g, b, s, i) && s.ctl.full && Prompt(b, i) && s.ctl.st.ReloadWaitAck?
    ensures var c := NextControl(g, s, i); !c.lsValid ==> Work(g, c, NextQueue(b, s, i, now)) < Work(g, s.ctl, b.q)
  {}

  /** In each prompt cycle the request completes or comes closer to it. */
  lemma WorkShrinks(g: Geometry, s: State, i: Input, b: Bus, now: nat)
    requires g.Ok() && Linked(g, s, b) && EnvOk(g, b, s, i) && s.ctl.full && Prompt(b, i)
    ensures var c := NextControl(g, s, i);
      c.lsValid || (c.full && Work(g, c, NextQueue(b, s, i, now)) < Work(g, s.ctl, b.q))
  {
    hide Work, NextQueue, EnvOk;
    StaysFull(g, s, i, b);
    match s.ctl.st
    case Idle => WorkIdle(g, s, i, b, now);
    case ReloadWaitAck => WorkReload(g, s, i, b, now);
    case StoreWaitAck => WorkStore(g, s, i, b, now);
    case _ => WorkRest(g, s, i, b);
  }

  /** A request that goes on is held in stage 1 until it completes. */
  lemma StaysFull(g: Geometry, s: State, i: Input, b: Bus)
    requires g.Ok() && Linked(g, s, b) && EnvOk(g, b, s, i) && (s.ctl.full || Go(s, i))
    ensures NextControl(g, s, i).lsValid || NextControl(g, s, i).full
  {
    CurrentOk(g, s, i);
  }

  /** The bound of the bound. */
  lemma WorkBounds(g: Geometry, s: State, b: Bus)
    requires g.Ok() && Linked(g, s, b) && s.ctl.full
    ensures 1 <= Work(g, s.ctl, b.q) <= 4 * g.rows + 11
  {}

  // ---------------------------------------------------------------- runs

  /** From the n-th cycle of the run on, the bus is prompt. */
  ghost predicate PromptFrom(g: Geometry, y: Node, ins: seq<Input>, n: nat)
    requires g.Ok()
  { forall k | n <= k < |ins| :: Prompt(Run(g, y, ins[..k]).b, ins[k]) }

  function After(g: Geometry, y: Node, ins: seq<Input>, n: nat): Node
    requires g.Ok() && n <= |ins|
  { Run(g, y, ins[..n]) }

  lemma {:induction false} RunPrefix(g: Geometry, y: Node, ins: seq<Input>, n: nat)
    requires g.Ok() && RunOk(g, y, ins) && n <= |ins|
    ensures RunOk(g, y, ins[..n])
    ensures n < |ins| ==> EnvOk(g, After(g, y, ins, n).b, After(g, y, ins, n).s, ins[n])
    ensures n < |ins| ==> After(g, y, ins, n + 1) == NextNode(g, After(g, y, ins, n), ins[n])
    decreases |ins|
  {
    if n == |ins| {
      assert ins[..n] == ins;
    } else {
      var p := ins[..|ins| - 1];
      assert ins[..n + 1][..n] == ins[..n] && p[..n] == ins[..n];
      if n == |ins| - 1 { assert ins[..n] == p && ins[..n + 1] == ins; } else { RunPrefix(g, y, p, n); }
    }
  }

  lemma OneCycle(g: Geometry, z: Node, i: Input)
    requires g.Ok() && Linked(g, z.s, z.b) && EnvOk(g, z.b, z.s, i) && z.s.ctl.full && Prompt(z.b, i)
    ensures var a := NextNode(g, z, i);
      a.s.ctl.lsValid || (a.s.ctl.full && Work(g, a.s.ctl, a.b.q) < Work(g, z.s.ctl, z.b.q))
  {
    hide Work, Linked, EnvOk, Prompt, NextControl, NextQueue;
    WorkShrinks(g, z.s, i, z.b, z.now);
  }

  /** A request held at cycle m and not completed by cycle n is still held and n - m closer. */
  lemma {:induction false} StillWaiting(g: Geometry, y: Node, ins: seq<Input>, m: nat, n: nat)
    requires g.Ok() && Starts(y) && RunOk(g, y, ins) && PromptFrom(g, y, ins, m) && m <= n <= |ins|
    requires After(g, y, ins, m).s.ctl.full
    requires forall k | m < k <= n :: !After(g, y, ins, k).s.ctl.lsValid
    ensures var z, a := After(g, y, ins, n), After(g, y, ins, m);
      z.s.ctl.full && Work(g, z.s.ctl, z.b.q) + (n - m) <= Work(g, a.s.ctl, a.b.q)
  {
    hide Work, Linked, EnvOk, Prompt, NextNode, Run, Starts, RunOk;
    if n == m {
    } else {
      StillWaiting(g, y, ins, m, n - 1);
      RunPrefix(g, y, ins, n - 1);
      RunKeeps(g, y, ins[..n - 1]);
      var z := After(g, y, ins, n - 1);
      assert Prompt(z.b, ins[n - 1]);
      OneCycle(g, z, ins[n - 1]);
    }
  }

  ghost predicate CompletesBetween(g: Geometry, y: Node, ins: seq<Input>, m: nat, n: nat)
    requires g.Ok() && n <= |ins|
  { exists k | m < k <= n :: After(g, y, ins, k).s.ctl.lsValid }

  lemma HeldCompletes(g: Geometry, y: Node, ins: seq<Input>, m: nat)
    requires g.Ok() && Starts(y) && RunOk(g, y, ins) && PromptFrom(g, y, ins, m) && m <= |ins|
    requires After(g, y, ins, m).s.ctl.full
    ensures var a := After(g, y, ins, m); Work(g, a.s.ctl, a.b.q) <= 4 * g.rows + 11
    ensures var a := After(g, y, ins, m); var n := m + Work(g, a.s.ctl, a.b.q);
      m <= n && (n <= |ins| ==> CompletesBetween(g, y, ins, m, n))
  {
    hide Work;
    var a := After(g, y, ins, m);
    RunPrefix(g, y, ins, m);
    RunKeeps(g, y, ins[..m]);
    WorkBounds(g, a.s, a.b);
    var n := m + Work(g, a.s.ctl, a.b.q);
    if n <= |ins| && !CompletesBetween(g, y, ins, m, n) {
      StillWaiting(g, y, ins, m, n);
      RunPrefix(g, y, ins, n);
      RunKeeps(g, y, ins[..n]);
      WorkBounds(g, After(g, y, ins, n).s, After(g, y, ins, n).b);
      assert false;
    }
  }

  /** In every run, with any writes by other masters: once the bus is prompt, a request held in stage 1
      completes within the cycles that the rows and beats left allow, and a request in stage 0 within
      four for each row of a line and twelve more. */
  lemma EveryRequestCompletes(g: Geometry, y: Node, ins: seq<Input>, m: nat)
    requires g.Ok() && Starts(y) && RunOk(g, y, ins) && m <= |ins| && PromptFrom(g, y, ins, m)
    ensures var a := After(g, y, ins, m);
      && (a.s.ctl.full && 0 <= Work(g, a.s.ctl, a.b.q) <= |ins| - m ==>
            CompletesBetween(g, y, ins, m, m + Work(g, a.s.ctl, a.b.q)))
      && ((a.s.ctl.full || a.s.r0.full) && m + 4 * g.rows + 12 <= |ins| ==>
            CompletesBetween(g, y, ins, m, m + 4 * g.rows + 12))
  {
    hide Work;
    var a := After(g, y, ins, m);
    if a.s.ctl.full {
      HeldCompletes(g, y, ins, m);
    } else if a.s.r0.full && m + 4 * g.rows + 12 <= |ins| {
      RunPrefix(g, y, ins, m);
      RunKeeps(g, y, ins[..m]);
      assert Prompt(a.b, ins[m]);
      StaysFull(g, a.s, ins[m], a.b);
      var c := After(g, y, ins, m + 1);
      assert c.s.ctl.lsValid || c.s.ctl.full;
      if !c.s.ctl.lsValid { HeldCompletes(g, y, ins, m + 1); }
    }
  }
}
