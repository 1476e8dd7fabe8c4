/** No two ways of a set ever hold the same line, with snooped writes, flushes and refills. */
module DcacheTags {
  import opened CacheTypes
  import opened Dcache
  import opened DcacheBus

  ghost predicate Holds(d: Directory, w: nat, line: Line) {
    Slot(line.idx, w) in d.valids && w in TagRowAt(d.tags, line.idx) && TagRowAt(d.tags, line.idx)[w] == line.tag
  }

  ghost predicate Unique(d: Directory) {
    forall w1, w2, line | Holds(d, w1, line) && Holds(d, w2, line) :: w1 == w2
  }

  ghost predicate WaysOk(g: Geometry, d: Directory) {
    forall x | x in d.valids :: x.way < g.ways
  }

  ghost predicate NotHeld(d: Directory, line: Line) {
    forall w: nat :: !Holds(d, w, line)
  }

  /** The line a refill is about to allocate is in no way. */
  ghost predicate AllocOk(c: Control, d: Directory) {
    && (c.refill.writeTag ==> NotHeld(d, Line(c.refill.reloadTag, c.refill.storeIdx)))
    && (c.full && c.req.opLmiss && !(c.st.ReloadWaitAck? && c.req.hitReload) ==> NotHeld(d, c.req.addr.LineOf()))
  }

  /** The line being refilled is in no other way than the one being refilled. */
  ghost predicate ReloadOnly(f: Refill, d: Directory) {
    f.reloading && !f.writeTag ==>
      forall w: nat | Holds(d, w, Line(f.reloadTag, f.storeIdx)) :: w == f.storeWay
  }

  ghost predicate DirOk(g: Geometry, s: State) {
    Unique(s.dir) && WaysOk(g, s.dir) && AllocOk(s.ctl, s.dir) && ReloadOnly(s.ctl.refill, s.dir)
  }

  /** Hits are exactly the ways that hold the requested line. */
  lemma HitsHold(g: Geometry, s: State, i: Input)
    requires TagsCurrent(s) && WaysOk(g, s.dir) && Go(s, i)
    ensures forall w: nat :: w in HitWays(g, s) <==> Holds(s.dir, w, s.r0.req.addr.LineOf())
  {}

  /** At most one way hits, so the hit way is the only one. */
  lemma SingleHit(g: Geometry, s: State, i: Input)
    requires TagsCurrent(s) && DirOk(g, s) && Go(s, i)
    ensures AnyHit(g, s) ==> HitWays(g, s) == {HitWay(g, s)} && Holds(s.dir, HitWay(g, s), s.r0.req.addr.LineOf())
    ensures !AnyHit(g, s) ==> NotHeld(s.dir, s.r0.req.addr.LineOf())
  {
    HitsHold(g, s, i);
    if AnyHit(g, s) {
      HitWayIn(g, s);
      forall w | w in HitWays(g, s) ensures w == HitWay(g, s) {
        assert Holds(s.dir, w, s.r0.req.addr.LineOf());
      }
    }
  }

  /** What one step can do to the directory: lines leave, and only the line being allocated
      enters, in the victim way. */
  lemma DirectoryStep(g: Geometry, s: State, i: Input, w: nat, line: Line)
    requires Holds(NextDirectory(g, s, i), w, line)
    ensures Holds(s.dir, w, line) ||
            (s.ctl.refill.writeTag && w == i.victim && line == Line(s.ctl.refill.reloadTag, s.ctl.refill.storeIdx))
    ensures s.ctl.refill.writeTag && line.idx == s.ctl.refill.storeIdx && w == i.victim ==> line.tag == s.ctl.refill.reloadTag
  {}

  lemma UniqueStep(g: Geometry, s: State, i: Input)
    requires DirOk(g, s) && i.victim < g.ways
    ensures Unique(NextDirectory(g, s, i)) && WaysOk(g, NextDirectory(g, s, i))
  {
    var d := NextDirectory(g, s, i);
    forall w1, w2, line | Holds(d, w1, line) && Holds(d, w2, line) ensures w1 == w2 {
      DirectoryStep(g, s, i, w1, line);
      DirectoryStep(g, s, i, w2, line);
    }
  }

  lemma NotHeldStep(g: Geometry, s: State, i: Input, line: Line)
    requires NotHeld(s.dir, line)
    requires s.ctl.refill.writeTag ==> line != Line(s.ctl.refill.reloadTag, s.ctl.refill.storeIdx)
    ensures NotHeld(NextDirectory(g, s, i), line)
  {
    forall w: nat ensures !Holds(NextDirectory(g, s, i), w, line) {
      if Holds(NextDirectory(g, s, i), w, line) { DirectoryStep(g, s, i, w, line); }
    }
  }

  /** A missing line that no refill in progress brings is in no way. */
  lemma MissIsNotHeld(g: Geometry, s: State, i: Input, b: Bus)
    requires g.Ok() && Linked(g, s, b) && EnvOk(g, b, s, i) && DirOk(g, s) && !s.ctl.refill.writeTag
    requires var q := Current(g, s, i); q.opLmiss && !(s.ctl.st.ReloadWaitAck? && q.hitReload)
    ensures NotHeld(NextDirectory(g, s, i), Current(g, s, i).addr.LineOf())
  {
    hide Unique, WaysOk, KillReservation, BaseReservation, AcksNow, AcksOk, BusOk, NextDirectory, Holds,
         NextControl, Window;
    if !s.ctl.full {
      SingleHit(g, s, i);
      if AnyHit(g, s) { HitReloadLine(g, s, i); }
    }
    NotHeldStep(g, s, i, Current(g, s, i).addr.LineOf());
  }

  lemma AllocReload(g: Geometry, s: State, i: Input, b: Bus)
    requires g.Ok() && Linked(g, s, b) && EnvOk(g, b, s, i) && DirOk(g, s) && s.ctl.st.ReloadWaitAck?
    ensures AllocOk(NextControl(g, s, i), NextDirectory(g, s, i))
  {
    hide DirOk, BaseReservation, AcksNow, AcksOk, BusOk, NextDirectory, NotHeld, TagsCurrent, ReloadWayOk, HitWays,
         SlowIdle, SlowStore, SlowStcx, SlowFlush, WindowRows, Window;
    var q := Current(g, s, i);
    CurrentOk(g, s, i);
    if i.ack && LastRow(s) { LastRowEnds(g, s, i, b, 0); }
    if !s.ctl.refill.writeTag && q.opLmiss && !q.hitReload { MissIsNotHeld(g, s, i, b); }
  }

  lemma AllocStep(g: Geometry, s: State, i: Input, b: Bus)
    requires g.Ok() && Linked(g, s, b) && EnvOk(g, b, s, i) && DirOk(g, s)
    ensures AllocOk(NextControl(g, s, i), NextDirectory(g, s, i))
  {
    hide DirOk, BaseReservation, AcksNow, AcksOk, BusOk, NextDirectory, NotHeld, TagsCurrent, ReloadWayOk, HitWays,
         SlowReload, Window;
    if s.ctl.st.ReloadWaitAck? {
      AllocReload(g, s, i, b);
    } else {
      CurrentOk(g, s, i);
      if Current(g, s, i).opLmiss { MissIsNotHeld(g, s, i, b); }
    }
  }

  lemma ReloadOnlyStep(g: Geometry, s: State, i: Input, b: Bus)
    requires g.Ok() && Linked(g, s, b) && EnvOk(g, b, s, i) && DirOk(g, s)
    ensures ReloadOnly(NextControl(g, s, i).refill, NextDirectory(g, s, i))
  {
    var f := NextControl(g, s, i).refill;
    var d := NextDirectory(g, s, i);
    if f.reloading && !f.writeTag {
      assert s.ctl.st.ReloadWaitAck?;
      forall w: nat | Holds(d, w, Line(f.reloadTag, f.storeIdx)) ensures w == f.storeWay {
        DirectoryStep(g, s, i, w, Line(f.reloadTag, f.storeIdx));
      }
    }
  }

  lemma StepDir(g: Geometry, s: State, i: Input, b: Bus)
    requires g.Ok() && Linked(g, s, b) && EnvOk(g, b, s, i) && DirOk(g, s)
    ensures DirOk(g, Step(g, s, i))
  {
    UniqueStep(g, s, i);
    AllocStep(g, s, i, b);
    ReloadOnlyStep(g, s, i, b);
  }

  lemma OrNone(s: State, hits: set<nat>, n: nat)
    requires forall w | w in hits :: n <= w
    ensures OrWays(s, hits, n) == ZERO
  {}

  lemma OrOne(s: State, w: nat, n: nat)
    requires w < n
    ensures OrWays(s, {w}, n) == CacheOut(s, w)
  {
    if n - 1 == w {
      OrNone(s, {w}, n - 1);
      OrZero(CacheOut(s, w));
    } else {
      OrOne(s, w, n - 1);
    }
  }

  /** The OR of all hitting ways is the data of the one way that hits. */
  lemma HitDataIsOneWay(g: Geometry, s: State, i: Input)
    requires TagsCurrent(s) && DirOk(g, s) && Go(s, i) && IsHit(g, s)
    ensures NextDataOut(g, s, i) == CacheOut(s, HitWay(g, s))
  {
    SingleHit(g, s, i);
    OrOne(s, HitWay(g, s), g.ways);
  }
}
