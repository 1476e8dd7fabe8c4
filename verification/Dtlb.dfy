/** The data TLB of the cache: its registered read port, the search over the ways, and the loads
    and invalidations sent by the MMU.  One call of `Step` is one rising clock edge. */
module Dtlb {
  import opened Wrappers

  /** An effective page: TLB set index and the tag bits above it. */
  datatype Page = Page(idx: nat, tag: nat)
  datatype Entry = Entry(idx: nat, way: nat)
  datatype Arrays = Arrays(valids: set<Entry>, tags: map<Entry, nat>, ptes: map<Entry, bv64>)

  /** The row of all ways latched when a request enters stage 0. */
  datatype Row = Row(valids: set<nat>, tags: map<nat, nat>, ptes: map<nat, bv64>)

  datatype Stage0 = Stage0(full: bool, page: Page, probe: bool)

  /** Result of the search, and the victim chosen after an error. */
  datatype Stage1 = Stage1(hit: bool, hitWay: nat, hitWays: set<nat>, victim: nat, lsError: bool)

  datatype State = State(mem: Arrays, row: Row, readValid: bool, r0: Stage0, r1: Stage1)

  datatype Command = Nothing | Load(page: Page, pte: bv64) | Invalidate(page: Page) | InvalidateAll

  /** Inputs of a cycle: a request of the load/store unit or of the MMU's table walk (`valid`), whether
      stage 0 is held, whether the access in stage 0 is refused, the replacement policy's choice, and
      the MMU's TLB command. */
  datatype Input = Input(valid: bool, page: Page, probe: bool, stall: bool, bad: bool, plru: nat, cmd: Command)

  function TagOf(m: Arrays, e: Entry): nat { if e in m.tags then m.tags[e] else 0 }
  function PteOf(m: Arrays, e: Entry): bv64 { if e in m.ptes then m.ptes[e] else 0 }

  function ReadRow(ways: nat, m: Arrays, idx: nat): Row {
    Row(set w: nat | w < ways && Entry(idx, w) in m.valids,
        map w: nat | w < ways :: TagOf(m, Entry(idx, w)),
        map w: nat | w < ways :: PteOf(m, Entry(idx, w)))
  }

  predicate Valid0(s: State, i: Input) { s.r0.full && !i.stall }

  function Matches(s: State, ways: nat): set<nat> {
    set w: nat | w < ways && w in s.row.valids && w in s.row.tags && s.row.tags[w] == s.r0.page.tag
  }

  function LastMatch(hits: set<nat>, n: nat): nat {
    if n == 0 then 0 else if n - 1 in hits then n - 1 else LastMatch(hits, n - 1)
  }

  /** The PTEs of all matching ways ORed together. */
  function OrPtes(row: Row, hits: set<nat>, n: nat): bv64 {
    if n == 0 then 0
    else if n - 1 in hits && n - 1 in row.ptes then OrPtes(row, hits, n - 1) | row.ptes[n - 1]
    else OrPtes(row, hits, n - 1)
  }

  predicate Hit(ways: nat, s: State, i: Input) { Valid0(s, i) && s.readValid && Matches(s, ways) != {} }
  function HitPte(ways: nat, s: State): bv64 { OrPtes(s.row, Matches(s, ways), ways) }

  function NextArrays(ways: nat, s: State, i: Input): Arrays {
    match i.cmd
    case Nothing => s.mem
    case InvalidateAll => s.mem.(valids := {})
    case Invalidate(p) => s.mem.(valids := set e | e in s.mem.valids && !(e.idx == p.idx && e.way in s.r1.hitWays))
    case Load(p, pte) =>
      var e := Entry(p.idx, s.r1.victim);
      Arrays(s.mem.valids + {e}, s.mem.tags[e := p.tag], s.mem.ptes[e := pte])
  }

  function NextStage1(ways: nat, s: State, i: Input): Stage1 {
    var v := Valid0(s, i);
    Stage1(v && Hit(ways, s, i),
           if v then LastMatch(Matches(s, ways), ways) else s.r1.hitWay,
           if v then Matches(s, ways) else s.r1.hitWays,
           if s.r1.lsError then (if s.r1.hit then s.r1.hitWay else i.plru) else s.r1.victim,
           v && i.bad && !s.r1.lsError)
  }

  function Step(ways: nat, s: State, i: Input): State {
    State(NextArrays(ways, s, i),
          if i.stall then s.row else ReadRow(ways, s.mem, i.page.idx),
          if i.stall then s.readValid else i.valid,
          if i.stall then s.r0 else Stage0(i.valid, i.page, i.probe),
          NextStage1(ways, s, i))
  }

  // ---------------------------------------------------------------- what the TLB should hold

  /** Observer: the PTE last loaded for each page and not since invalidated; the way of each page that
      was loaded, not since invalidated, and whose way no later load has taken; the way the next load
      is to take; the page searched last, the page refused last, and the page probed last. */
  datatype Spec = Spec(loaded: map<Page, bv64>, resident: map<Page, nat>, choice: nat,
                       searched: Page, refused: Option<Page>, probed: Option<Page>)

  /** A load takes the chosen way of its set from the page that had it. */
  function AfterLoad(resident: map<Page, nat>, p: Page, way: nat): map<Page, nat> {
    (map q | q in resident && !(q.idx == p.idx && resident[q] == way) :: resident[q])[p := way]
  }

  function NextSpec(ways: nat, k: Spec, s: State, i: Input): Spec {
    Spec(match i.cmd
         case Nothing => k.loaded
         case InvalidateAll => map[]
         case Invalidate(p) => k.loaded - {p}
         case Load(p, pte) => k.loaded[p := pte],
         match i.cmd
         case Nothing => k.resident
         case InvalidateAll => map[]
         case Invalidate(p) => k.resident - {p}
         case Load(p, pte) => AfterLoad(k.resident, p, k.choice),
         // A refused page keeps its way if it has one; otherwise the replacement policy chooses.
         if !s.r1.lsError then k.choice
         else if k.searched in k.resident then k.resident[k.searched] else i.plru,
         if Valid0(s, i) then s.r0.page else k.searched,
         if s.r1.lsError then Some(k.searched) else if i.cmd.Load? then None else k.refused,
         if Valid0(s, i) then (if s.r0.probe then Some(s.r0.page) else None)
         else if i.cmd.Nothing? then k.probed else None)
  }

  /** The protocol of the load/store unit and the MMU: TLB commands come with no request in flight, a
      load follows a refused access to its page, a single-page invalidation follows a probe of it. */
  predicate EnvOk(ways: nat, k: Spec, s: State, i: Input) {
    && i.plru < ways
    && (!i.cmd.Nothing? ==> !s.r0.full && !(i.valid && !i.stall))
    && (i.cmd.Load? ==> k.refused == Some(i.cmd.page) && !s.r1.lsError)
    && (i.cmd.Invalidate? ==> k.probed == Some(i.cmd.page))
  }

  predicate Holds(m: Arrays, p: Page, w: nat) {
    Entry(p.idx, w) in m.valids && Entry(p.idx, w) in m.tags && m.tags[Entry(p.idx, w)] == p.tag
  }

  ghost predicate Unique(m: Arrays) {
    forall p, w1, w2 | Holds(m, p, w1) && Holds(m, p, w2) :: w1 == w2
  }

  ghost predicate InBounds(ways: nat, s: State) {
    && 1 <= ways && s.r1.victim < ways && s.r1.hitWay < ways
    && (forall e | e in s.mem.valids :: e.way < ways && e in s.mem.tags && e in s.mem.ptes)
  }

  ghost predicate RowCurrent(ways: nat, s: State) {
    s.r0.full ==> s.row == ReadRow(ways, s.mem, s.r0.page.idx) && s.readValid
  }

  /** The TLB holds exactly the resident pages, each in its way and with the PTE last loaded. */
  ghost predicate ContentOk(m: Arrays, k: Spec) {
    && (forall p, w :: Holds(m, p, w) <==> p in k.resident && k.resident[p] == w)
    && (forall p <- k.resident :: p in k.loaded && PteOf(m, Entry(p.idx, k.resident[p])) == k.loaded[p])
  }

  /** The victim way is the chosen one, and a refused page that is resident is in it. */
  ghost predicate VictimOk(k: Spec, s: State) {
    && s.r1.victim == k.choice
    && (s.r1.lsError ==> (s.r1.hit <==> k.searched in k.resident))
    && (s.r1.lsError && s.r1.hit ==> k.resident[k.searched] == s.r1.hitWay)
    && (k.refused.Some? && !s.r1.lsError && k.refused.value in k.resident ==> k.resident[k.refused.value] == k.choice)
  }

  /** The ways of the page probed last. */
  ghost predicate ProbeOk(k: Spec, s: State) {
    k.probed.Some? ==> forall w :: w in s.r1.hitWays <==> Holds(s.mem, k.probed.value, w)
  }

  ghost predicate Inv(ways: nat, k: Spec, s: State) {
    InBounds(ways, s) && RowCurrent(ways, s) && ContentOk(s.mem, k) && VictimOk(k, s) && ProbeOk(k, s)
  }

  lemma LastMatchIn(hits: set<nat>, n: nat)
    ensures LastMatch(hits, n) < n || (n == 0 && LastMatch(hits, n) == 0)
    ensures forall w | w in hits && w < n :: LastMatch(hits, n) in hits && w <= LastMatch(hits, n)
  {}

  /** The search finds exactly the way of a resident page. */
  lemma SearchOk(ways: nat, k: Spec, s: State, i: Input)
    requires Inv(ways, k, s) && Valid0(s, i)
    ensures forall w: nat :: w in Matches(s, ways) <==> Holds(s.mem, s.r0.page, w)
    ensures Hit(ways, s, i) <==> s.r0.page in k.resident
    ensures s.r0.page in k.resident ==> k.resident[s.r0.page] == LastMatch(Matches(s, ways), ways)
    ensures LastMatch(Matches(s, ways), ways) < ways
  {
    LastMatchIn(Matches(s, ways), ways);
    if s.r0.page in k.resident { assert Holds(s.mem, s.r0.page, k.resident[s.r0.page]); }
    if Matches(s, ways) != {} {
      var w :| w in Matches(s, ways);
      assert Holds(s.mem, s.r0.page, w) && Holds(s.mem, s.r0.page, LastMatch(Matches(s, ways), ways));
    }
  }

  lemma OrOne(row: Row, hits: set<nat>, w: nat, n: nat)
    requires forall x | x in hits :: x == w
    ensures w < n && w in hits && w in row.ptes ==> OrPtes(row, hits, n) == row.ptes[w]
    ensures !(w < n && w in hits && w in row.ptes) ==> OrPtes(row, hits, n) == 0
  {
    if n > 0 {
      OrOne(row, hits, w, n - 1);
      if n - 1 in hits && n - 1 in row.ptes { assert 0 | row.ptes[n - 1] == row.ptes[n - 1]; }
    }
  }

  /** A hit returns the PTE last loaded for the page and not since invalidated. */
  lemma HitReturnsLoadedPte(ways: nat, k: Spec, s: State, i: Input)
    requires Inv(ways, k, s) && Hit(ways, s, i)
    ensures s.r0.page in k.loaded && HitPte(ways, s) == k.loaded[s.r0.page]
  {
    SearchOk(ways, k, s, i);
    var w :| w in Matches(s, ways);
    assert Holds(s.mem, s.r0.page, w);
    OrOne(s.row, Matches(s, ways), w, ways);
  }

  lemma ContentInvalidate(ways: nat, k: Spec, s: State, i: Input)
    requires Inv(ways, k, s) && EnvOk(ways, k, s, i) && i.cmd.Invalidate?
    ensures ContentOk(NextArrays(ways, s, i), NextSpec(ways, k, s, i))
  {
    var m, k', p := NextArrays(ways, s, i), NextSpec(ways, k, s, i), i.cmd.page;
    forall q, w ensures Holds(m, q, w) <==> q in k'.resident && k'.resident[q] == w {
      assert Holds(m, q, w) <==> Holds(s.mem, q, w) && !(q.idx == p.idx && Holds(s.mem, p, w));
    }
  }

  lemma ContentLoad(ways: nat, k: Spec, s: State, i: Input)
    requires Inv(ways, k, s) && EnvOk(ways, k, s, i) && i.cmd.Load?
    ensures ContentOk(NextArrays(ways, s, i), NextSpec(ways, k, s, i))
  {
    var m, k', p := NextArrays(ways, s, i), NextSpec(ways, k, s, i), i.cmd.page;
    forall q, w ensures Holds(m, q, w) <==> q in k'.resident && k'.resident[q] == w {
      if q.idx == p.idx && w == k.choice {
        assert Holds(m, q, w) <==> q == p;
      } else {
        assert Holds(m, q, w) <==> Holds(s.mem, q, w);
      }
    }
  }

  /** A command takes a page out of the TLB or puts it in exactly as the observer says. */
  lemma ContentStep(ways: nat, k: Spec, s: State, i: Input)
    requires Inv(ways, k, s) && EnvOk(ways, k, s, i)
    ensures ContentOk(NextArrays(ways, s, i), NextSpec(ways, k, s, i))
  {
    match i.cmd
    case Nothing =>
    case InvalidateAll =>
    case Invalidate(_) => ContentInvalidate(ways, k, s, i);
    case Load(_, _) => ContentLoad(ways, k, s, i);
  }

  lemma VictimStep(ways: nat, k: Spec, s: State, i: Input)
    requires Inv(ways, k, s) && EnvOk(ways, k, s, i)
    ensures VictimOk(NextSpec(ways, k, s, i), Step(ways, s, i)) && ProbeOk(NextSpec(ways, k, s, i), Step(ways, s, i))
  {
    if Valid0(s, i) { SearchOk(ways, k, s, i); }
  }

  lemma BoundsStep(ways: nat, k: Spec, s: State, i: Input)
    requires Inv(ways, k, s) && EnvOk(ways, k, s, i)
    ensures InBounds(ways, Step(ways, s, i)) && RowCurrent(ways, Step(ways, s, i))
  {
    if Valid0(s, i) { SearchOk(ways, k, s, i); }
  }

  lemma StepInv(ways: nat, k: Spec, s: State, i: Input)
    requires Inv(ways, k, s) && EnvOk(ways, k, s, i)
    ensures Inv(ways, NextSpec(ways, k, s, i), Step(ways, s, i))
  {
    ContentStep(ways, k, s, i);
    VictimStep(ways, k, s, i);
    BoundsStep(ways, k, s, i);
  }

  // ---------------------------------------------------------------- runs

  datatype Observed = Observed(s: State, k: Spec)

  function Run(ways: nat, y: Observed, ins: seq<Input>): Observed
    decreases |ins|
  {
    if ins == [] then y
    else
      var z := Run(ways, y, ins[..|ins| - 1]);
      Observed(Step(ways, z.s, ins[|ins| - 1]), NextSpec(ways, z.k, z.s, ins[|ins| - 1]))
  }

  predicate RunOk(ways: nat, y: Observed, ins: seq<Input>)
    decreases |ins|
  {
    ins == [] ||
    (var z := Run(ways, y, ins[..|ins| - 1]);
     RunOk(ways, y, ins[..|ins| - 1]) && EnvOk(ways, z.k, z.s, ins[|ins| - 1]))
  }

  /** After reset: no valid entry and nothing in flight. */
  predicate Starts(ways: nat, y: Observed) {
    && 1 <= ways && y.s.r1.victim < ways && y.s.r1.hitWay < ways
    && y.s.mem.valids == {} && !y.s.r0.full && !y.s.r1.lsError
    && y.k == Spec(map[], map[], y.s.r1.victim, Page(0, 0), None, None)
  }

  lemma {:induction false} RunInv(ways: nat, y: Observed, ins: seq<Input>)
    requires Starts(ways, y) && RunOk(ways, y, ins)
    ensures Inv(ways, Run(ways, y, ins).k, Run(ways, y, ins).s)
    decreases |ins|
  {
    if ins == [] {
    } else {
      RunInv(ways, y, ins[..|ins| - 1]);
      var z := Run(ways, y, ins[..|ins| - 1]);
      StepInv(ways, z.k, z.s, ins[|ins| - 1]);
    }
  }

  /** In every run that keeps the protocol no page is ever in two ways; a search hits exactly if its page
      was loaded, not since invalidated, and not displaced by a later load; and a hit returns the PTE
      last loaded for its page. */
  lemma TlbIsCoherent(ways: nat, y: Observed, ins: seq<Input>, i: Input)
    requires Starts(ways, y) && RunOk(ways, y, ins)
    ensures var z := Run(ways, y, ins);
            && Unique(z.s.mem)
            && (Hit(ways, z.s, i) <==> Valid0(z.s, i) && z.s.r0.page in z.k.resident)
            && (Hit(ways, z.s, i) ==> z.s.r0.page in z.k.loaded && HitPte(ways, z.s) == z.k.loaded[z.s.r0.page])
  {
    RunInv(ways, y, ins);
    var z := Run(ways, y, ins);
    if Valid0(z.s, i) { SearchOk(ways, z.k, z.s, i); }
    if Hit(ways, z.s, i) { HitReturnsLoadedPte(ways, z.k, z.s, i); }
  }

  /** Right after a load its page is resident, in the way refused or chosen for it, and every other page
      but the one that had this way stays where it was. */
  lemma LoadIsResident(ways: nat, k: Spec, s: State, i: Input)
    requires Inv(ways, k, s) && EnvOk(ways, k, s, i) && i.cmd.Load?
    ensures Holds(Step(ways, s, i).mem, i.cmd.page, k.choice)
    ensures PteOf(Step(ways, s, i).mem, Entry(i.cmd.page.idx, k.choice)) == i.cmd.pte
    ensures forall q: Page, w | !(q.idx == i.cmd.page.idx && w == k.choice) ::
      Holds(Step(ways, s, i).mem, q, w) <==> Holds(s.mem, q, w)
  {}
}
