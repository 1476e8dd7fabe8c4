/** A run from reset in which a store-conditional succeeds although another master has written the
    reserved line: a touch starts a refill that has not been granted the bus, a reserving load hits
    another line, that line is written by another master, and then a load of the row that arrives
    from the bus completes straight from stage 0. */
module DcacheStaleRearm {
  import opened CacheTypes
  import opened Dcache
  import opened DcacheBus
  import opened DcacheReservation
  import opened DcacheSystem

  const G := Geometry(2, 2)
  const TA := Tag(0, 0)
  const TB := Tag(1, 0)
  const A := RowAddr(TA, 0, 0)
  const B := RowAddr(TB, 0, 0)

  const LOAD_A := Request(true, false, false, false, false, A, ALL)
  const TOUCH_B := Request(true, false, true, false, false, B, ALL)
  const LARX_A := Request(true, false, false, false, true, A, ALL)
  const LOAD_B := Request(true, false, false, false, false, B, ALL)
  const STCX_A := Request(false, false, false, false, true, A, ALL)

  function Quiet(stall: bool, ack: bool): Input { Input(false, LOAD_A, ZERO, false, stall, ack, ZERO, 0, NoWrite) }
  function Present(r: Request, stall: bool, ack: bool): Input { Quiet(stall, ack).(valid := true, req := r) }

  /** The input of each cycle of the run. */
  function In(n: nat): Input {
    match n
    case 0 => Present(LOAD_A, true, false)
    case 2 => Quiet(false, false)               // row 0 of A accepted, way 0 is the victim
    case 3 => Quiet(false, true)                // row 0 arrives, row 1 accepted
    case 4 => Present(TOUCH_B, true, true)      // row 1 arrives
    case 6 => Quiet(true, false).(victim := 1)  // refill of B into way 1, bus not granted; the touch completes next
    case 8 => Present(LARX_A, true, false)
    case 9 => Quiet(true, false).(foreign := ForeignWrite(A, ALL, ZERO)) // the reserving load hits; A is written
    case 10 => Present(LOAD_B, false, false)    // the reservation is killed; row 0 of B accepted
    case 11 => Present(STCX_A, false, true)     // row 0 of B arrives for the load in stage 0
    case 12 => Quiet(true, true)
    case 14 => Quiet(false, false)              // the store-conditional is driven
    case _ => Quiet(true, false)
  }

  function Inputs(n: nat): seq<Input> { seq(n, k requires 0 <= k < n => In(k)) }

  function Y0(): Node {
    Node(State(Stage0(false, LOAD_A, ZERO, true), Directory(map[], {}, map[]), Rams(map[], map[]),
               Forward(false, ZERO, ALL, RowIx(0, 0), 0), C0(), AckCount(0, false, false), ZERO, Snoop(false, A, map[])),
         Bus(map[], [], false), 0)
  }

  // Control registers after the steps above.
  function C0(): Control {
    Control(Idle, false,
            Pending(false, false, false, false, false, true, false, false, A, ZERO, ALL, false, 0, {}, true, true),
            false, Refill(false, false, TA, 0, 0, {}, RowIx(0, 0), 1, {}),
            Wishbone(false, false, false, A, ZERO, ALL), false, false, Reservation(false, Line(TA, 0)))
  }

  function C2(): Control {
    Control(ReloadWaitAck, true,
            Pending(true, false, false, false, true, true, false, false, A, ZERO, ALL, false, 0, {}, true, true),
            false, Refill(true, true, TA, 0, 0, {}, RowIx(0, 0), 1, {}),
            Wishbone(true, true, false, A, ZERO, ALL), false, false, Reservation(false, Line(TA, 0)))
  }

  function C3(): Control {
    Control(ReloadWaitAck, true,
            Pending(true, false, false, false, true, true, false, false, A, ZERO, ALL, false, 0, {}, true, true),
            false, Refill(true, false, TA, 0, 0, {0}, RowIx(0, 0), 1, {}),
            Wishbone(true, true, false, A.(row := 1), ZERO, ALL), false, false, Reservation(false, Line(TA, 0)))
  }

  function C4(): Control {
    Control(ReloadWaitAck, false,
            Pending(true, false, false, false, true, true, false, false, A, ZERO, ALL, false, 0, {}, true, true),
            false, Refill(true, false, TA, 0, 0, {0}, RowIx(0, 1), 1, {0}),
            Wishbone(true, false, false, A, ZERO, ALL), true, false, Reservation(false, Line(TA, 0)))
  }

  function C5(): Control {
    Control(Idle, false,
            Pending(true, false, false, false, true, true, false, false, A, ZERO, ALL, false, 0, {}, true, true),
            false, Refill(false, false, TA, 0, 0, {0}, RowIx(0, 0), 1, {0, 1}),
            Wishbone(false, false, false, A, ZERO, ALL), false, false, Reservation(false, Line(TA, 0)))
  }

  function C6(): Control {
    Control(ReloadWaitAck, true,
            Pending(true, false, false, false, true, true, true, false, B, ZERO, ALL, false, 0, {}, true, false),
            false, Refill(true, true, TB, 0, 0, {0}, RowIx(0, 0), 1, {}),
            Wishbone(true, true, false, B, ZERO, ALL), false, false, Reservation(false, Line(TA, 0)))
  }

  function C7(): Control {
    Control(ReloadWaitAck, true,
            Pending(true, false, false, false, true, true, true, false, B, ZERO, ALL, false, 0, {}, true, false),
            false, Refill(true, false, TB, 0, 1, {1}, RowIx(0, 0), 1, {}),
            Wishbone(true, true, false, B, ZERO, ALL), false, false, Reservation(false, Line(TA, 0)))
  }

  function C8(): Control {
    Control(ReloadWaitAck, false,
            Pending(true, false, false, false, true, true, true, false, B, ZERO, ALL, false, 0, {}, true, false),
            false, Refill(true, false, TB, 0, 1, {1}, RowIx(0, 0), 1, {}),
            Wishbone(true, true, false, B, ZERO, ALL), true, false, Reservation(false, Line(TA, 0)))
  }

  function C9(): Control {
    Control(ReloadWaitAck, false,
            Pending(true, false, false, false, true, true, true, false, B, ZERO, ALL, false, 0, {}, true, false),
            false, Refill(true, false, TB, 0, 1, {1}, RowIx(0, 0), 1, {}),
            Wishbone(true, true, false, B, ZERO, ALL), false, false, Reservation(false, Line(TA, 0)))
  }

  function C10(): Control {
    Control(ReloadWaitAck, false,
            Pending(false, false, false, false, true, true, false, true, A, ZERO, ALL, true, 0, {0}, false, false),
            false, Refill(true, false, TB, 0, 1, {1}, RowIx(0, 0), 1, {}),
            Wishbone(true, true, false, B, ZERO, ALL), true, false, Reservation(true, Line(TA, 0)))
  }

  function C11(): Control {
    Control(ReloadWaitAck, false,
            Pending(false, false, false, false, true, true, false, true, A, ZERO, ALL, true, 0, {0}, false, false),
            false, Refill(true, false, TB, 0, 1, {1}, RowIx(0, 0), 1, {}),
            Wishbone(true, true, false, B.(row := 1), ZERO, ALL), false, false, Reservation(false, Line(TA, 0)))
  }

  function C12(): Control {
    Control(ReloadWaitAck, false,
            Pending(true, false, false, false, true, true, false, false, B, ZERO, ALL, false, 1, {1}, true, true),
            false, Refill(true, false, TB, 0, 1, {1}, RowIx(0, 1), 1, {0}),
            Wishbone(true, false, false, B, ZERO, ALL), true, false, Reservation(true, Line(TA, 0)))
  }

  function C13(): Control {
    Control(Idle, true,
            Pending(false, true, false, false, true, false, false, true, A, ZERO, ALL, false, 0, {}, false, false),
            false, Refill(false, false, TB, 0, 1, {1}, RowIx(0, 0), 1, {0, 1}),
            Wishbone(false, false, false, B, ZERO, ALL), false, false, Reservation(true, Line(TA, 0)))
  }

  function C14(): Control {
    Control(DoStcx, true,
            Pending(false, true, false, false, true, false, false, true, A, ZERO, ALL, false, 0, {}, true, false),
            false, Refill(false, false, TA, 0, 1, {1}, RowIx(0, 0), 1, {}),
            Wishbone(true, false, true, A, ZERO, ALL), false, false, Reservation(true, Line(TA, 0)))
  }

  const WAY_A: TagRow := map[0 := TA]
  const WAYS_AB: TagRow := map[0 := TA, 1 := TB]
  const D0 := Directory(map[], {}, map[])
  const D3 := Directory(map[0 := WAY_A], {Slot(0, 0)}, map[])
  const D4 := Directory(map[0 := WAY_A], {Slot(0, 0)}, WAY_A)
  const D7 := Directory(map[0 := WAYS_AB], {Slot(0, 0), Slot(0, 1)}, WAY_A)
  const D8 := Directory(map[0 := WAYS_AB], {Slot(0, 0), Slot(0, 1)}, WAYS_AB)
  const D11 := Directory(map[0 := WAYS_AB], {Slot(0, 1)}, WAYS_AB)

  /** The part of the state that decides the run, after `n` steps. */
  ghost predicate At(n: nat, y: Observed, full: bool, r: Request, d: Directory, c: Control, q: nat, owned: bool) {
    && y.s.r0.full == full && y.s.r0.req == r && (y.s.r0.dValid ==> y.s.r0.data == ZERO)
    && y.s.dir == d && y.s.ctl == c
    && |y.b.q| == q && (forall m | 0 <= m < q :: y.b.q[m].read && y.b.q[m].data == ZERO) && y.b.granted == owned
    && (forall a: RowAddr | a in y.b.mem :: a == A)
    && y.k.now == n && (n >= 10 ==> y.k.lastWrite == map[Line(TA, 0) := 9] && y.k.readTime == 8)
    && (n < 10 ==> y.b.mem == map[] && y.k.lastWrite == map[])
    && (y.s.snoop.valid <==> n == 10) && (n == 10 ==> y.s.snoop == Snoop(true, A, WAYS_AB))
  }

  ghost predicate Phase(n: nat, y: Observed) {
    match n
    case 0 => y == Observe(G, Y0(), [])
    case 1 => At(n, y, true, LOAD_A, D0, C0(), 0, false)
    case 2 => At(n, y, false, LOAD_A, D0, C2(), 0, false)
    case 3 => At(n, y, false, LOAD_A, D3, C3(), 1, true)
    case 4 => At(n, y, false, LOAD_A, D4, C4(), 1, true)
    case 5 => At(n, y, true, TOUCH_B, D4, C5(), 0, false)
    case 6 => At(n, y, false, LOAD_A, D4, C6(), 0, false)
    case 7 => At(n, y, false, LOAD_A, D7, C7(), 0, false)
    case 8 => At(n, y, false, LOAD_A, D8, C8(), 0, false)
    case 9 => At(n, y, true, LARX_A, D8, C9(), 0, false)
    case 10 => At(n, y, false, LOAD_A, D8, C10(), 0, false)
    case 11 => At(n, y, true, LOAD_B, D11, C11(), 1, true)
    case 12 => At(n, y, true, STCX_A, D11, C12(), 1, true)
    case 13 => At(n, y, false, LOAD_A, D11, C13(), 0, false)
    case 14 => At(n, y, false, LOAD_A, D11, C14(), 0, false)
    case _ => false
  }

  ghost predicate Moves(n: nat, y: Observed) {
    n < 15 && RsrvEnv(G, y.b, y.s, In(n)) && (n < 14 ==> Phase(n + 1, NextObserved(G, y, In(n))))
  }

  lemma Moves0(y: Observed)
    requires Phase(0, y)
    ensures Moves(0, y)
  {}

  lemma Moves1(y: Observed)
    requires Phase(1, y)
    ensures Moves(1, y)
  {
    assert HitWays(G, y.s) == {};
  }

  lemma Moves2(y: Observed)
    requires Phase(2, y)
    ensures Moves(2, y)
  {}

  lemma Moves3(y: Observed)
    requires Phase(3, y)
    ensures Moves(3, y)
  {}

  lemma Control4(y: Observed)
    requires Phase(4, y)
    ensures NextControl(G, y.s, In(4)) == C5() && !C5().wb.cyc
  {}

  lemma Moves4(y: Observed)
    requires Phase(4, y)
    ensures Moves(4, y)
  {
    hide NextControl, C5;
    Control4(y);
  }

  lemma Control5(y: Observed)
    requires Phase(5, y)
    ensures NextControl(G, y.s, In(5)) == C6()
  {
    assert HitWays(G, y.s) == {};
  }

  lemma Moves5(y: Observed)
    requires Phase(5, y)
    ensures Moves(5, y)
  {
    hide NextControl, C6;
    Control5(y);
  }

  lemma Control6(y: Observed)
    requires Phase(6, y)
    ensures NextControl(G, y.s, In(6)) == C7()
  {}

  lemma Moves6(y: Observed)
    requires Phase(6, y)
    ensures Moves(6, y)
  {
    hide NextControl, C7;
    Control6(y);
  }

  lemma Control7(y: Observed)
    requires Phase(7, y)
    ensures NextControl(G, y.s, In(7)) == C8()
  {}

  lemma Directory7(y: Observed)
    requires Phase(7, y)
    ensures NextDirectory(G, y.s, In(7)) == D8
  {}

  lemma Moves7(y: Observed)
    requires Phase(7, y)
    ensures Moves(7, y)
  {
    hide NextControl, NextDirectory, C8;
    Control7(y);
    Directory7(y);
  }

  lemma Control8(y: Observed)
    requires Phase(8, y)
    ensures NextControl(G, y.s, In(8)) == C9()
  {}

  lemma Directory8(y: Observed)
    requires Phase(8, y)
    ensures NextDirectory(G, y.s, In(8)) == D8
  {}

  lemma Moves8(y: Observed)
    requires Phase(8, y)
    ensures Moves(8, y)
  {
    hide NextControl, NextDirectory, C9;
    Control8(y);
    Directory8(y);
  }

  lemma Control9(y: Observed)
    requires Phase(9, y)
    ensures NextControl(G, y.s, In(9)) == C10()
  {
    LarxHits(y);
    var c := NextControl(G, y.s, In(9));
    assert c.req == C10().req && c.rsrv == C10().rsrv;
    assert c.wb == C10().wb && c.refill == C10().refill;
  }

  lemma Directory9(y: Observed)
    requires Phase(9, y)
    ensures NextDirectory(G, y.s, In(9)) == D8
  {}

  lemma Watch9(y: Observed)
    requires Phase(9, y)
    ensures NextWatch(G, y.k, y.b, y.s, In(9)) == Watch(10, map[Line(TA, 0) := 9], 8)
  {
    LarxHits(y);
  }

  lemma Moves9(y: Observed)
    requires Phase(9, y)
    ensures Moves(9, y)
  {
    hide NextControl, NextDirectory, NextWatch, NextRam, NextDout, NextForward, NextDataOut, NextAcks, C10;
    Control9(y);
    Directory9(y);
    Watch9(y);
  }

  lemma LarxHits(y: Observed)
    requires Phase(9, y)
    ensures HitWays(G, y.s) == {0} && HitWay(G, y.s) == 0 && IsHit(G, y.s) && !HitReload(G, y.s)
    ensures SnoopHits(G, y.s) == {}
  {
    assert HitWays(G, y.s) == {0};
    assert LastWay({0}, 2) == LastWay({0}, 1) == 0;
  }

  lemma Control10(y: Observed)
    requires Phase(10, y)
    ensures NextControl(G, y.s, In(10)) == C11() && C11().wb.cyc
  {}

  lemma Directory10(y: Observed)
    requires Phase(10, y)
    ensures NextDirectory(G, y.s, In(10)) == D11
  {
    assert SnoopHits(G, y.s) == {0};
  }

  lemma Watch10(y: Observed)
    requires Phase(10, y)
    ensures NextWatch(G, y.k, y.b, y.s, In(10)) == y.k.(now := 11)
  {}

  lemma Moves10(y: Observed)
    requires Phase(10, y)
    ensures Moves(10, y)
  {
    hide NextControl, NextDirectory, NextWatch, NextRam, NextDout, NextForward, NextDataOut, NextAcks, C11;
    Control10(y);
    Directory10(y);
    Watch10(y);
  }

  lemma Control11(y: Observed)
    requires Phase(11, y)
    ensures NextControl(G, y.s, In(11)) == C12() && C12().wb.cyc
  {
    LoadBWaits(y);
    var c := NextControl(G, y.s, In(11));
    assert c.req == C12().req && c.refill == C12().refill;
  }

  lemma Directory11(y: Observed)
    requires Phase(11, y)
    ensures NextDirectory(G, y.s, In(11)) == D11
  {}

  lemma Watch11(y: Observed)
    requires Phase(11, y)
    ensures NextWatch(G, y.k, y.b, y.s, In(11)) == y.k.(now := 12)
  {
    LoadBWaits(y);
  }

  lemma Moves11(y: Observed)
    requires Phase(11, y)
    ensures Moves(11, y)
  {
    hide NextControl, NextDirectory, NextWatch, NextRam, NextDout, NextForward, NextDataOut, NextAcks, C12;
    Control11(y);
    Directory11(y);
    Watch11(y);
  }

  lemma Rearms11(y: Observed)
    requires Phase(11, y)
    ensures StaleRearm(G, y.s, In(11))
  {
    LoadBWaits(y);
  }

  lemma LoadBWaits(y: Observed)
    requires Phase(11, y)
    ensures HitWays(G, y.s) == {1} && HitWay(G, y.s) == 1 && !IsHit(G, y.s) && HitReload(G, y.s)
  {
    assert HitWays(G, y.s) == {1};
    assert LastWay({1}, 2) == 1;
  }

  lemma Control12(y: Observed)
    requires Phase(12, y)
    ensures NextControl(G, y.s, In(12)) == C13() && !C13().wb.cyc
  {
    assert HitWays(G, y.s) == {};
  }

  lemma Directory12(y: Observed)
    requires Phase(12, y)
    ensures NextDirectory(G, y.s, In(12)) == D11
  {}

  lemma Watch12(y: Observed)
    requires Phase(12, y)
    ensures NextWatch(G, y.k, y.b, y.s, In(12)) == y.k.(now := 13)
  {
    assert HitWays(G, y.s) == {};
  }

  lemma Moves12(y: Observed)
    requires Phase(12, y)
    ensures Moves(12, y)
  {
    hide NextControl, NextDirectory, NextWatch, NextRam, NextDout, NextForward, NextDataOut, NextAcks, C13;
    Control12(y);
    Directory12(y);
    Watch12(y);
  }

  lemma Control13(y: Observed)
    requires Phase(13, y)
    ensures NextControl(G, y.s, In(13)) == C14()
  {}

  lemma Directory13(y: Observed)
    requires Phase(13, y)
    ensures NextDirectory(G, y.s, In(13)) == D11
  {}

  lemma Watch13(y: Observed)
    requires Phase(13, y)
    ensures NextWatch(G, y.k, y.b, y.s, In(13)) == y.k.(now := 14)
  {}

  lemma Moves13(y: Observed)
    requires Phase(13, y)
    ensures Moves(13, y)
  {
    hide NextControl, NextDirectory, NextWatch, NextRam, NextDout, NextForward, NextDataOut, NextAcks, C14;
    Control13(y);
    Directory13(y);
    Watch13(y);
  }

  lemma Moves14(y: Observed)
    requires Phase(14, y)
    ensures Moves(14, y) && StcxDriven(y.s, In(14)) && WroteSince(y.k, y.s.ctl.rsrv.line, y.k.readTime)
  {}

  lemma EarlyMoves(n: nat, y: Observed)
    requires n < 8 && Phase(n, y)
    ensures Moves(n, y)
  {
    match n {
      case 0 => Moves0(y);
      case 1 => Moves1(y);
      case 2 => Moves2(y);
      case 3 => Moves3(y);
      case 4 => Moves4(y);
      case 5 => Moves5(y);
      case 6 => Moves6(y);
      case 7 => Moves7(y);
    }
  }

  lemma LateMoves(n: nat, y: Observed)
    requires 8 <= n < 15 && Phase(n, y)
    ensures Moves(n, y)
  {
    match n {
      case 8 => Moves8(y);
      case 9 => Moves9(y);
      case 10 => Moves10(y);
      case 11 => Moves11(y);
      case 12 => Moves12(y);
      case 13 => Moves13(y);
      case 14 => Moves14(y);
    }
  }

  lemma Extend(n: nat)
    requires 1 <= n <= 14 && RsrvRun(G, Y0(), Inputs(n - 1))
    requires var z := Observe(G, Y0(), Inputs(n - 1)); Moves(n - 1, z)
    ensures RsrvRun(G, Y0(), Inputs(n)) && Phase(n, Observe(G, Y0(), Inputs(n)))
  {
    hide Phase, Observe, RsrvRun, Y0, In, RsrvEnv, NextObserved;
    var z := Observe(G, Y0(), Inputs(n - 1));
    ObserveExtends(G, Y0(), Inputs(n - 1), In(n - 1));
    assert Inputs(n) == Inputs(n - 1) + [In(n - 1)];
  }

  lemma Begins()
    ensures RsrvRun(G, Y0(), Inputs(0)) && Phase(0, Observe(G, Y0(), Inputs(0)))
  {
    hide Y0;
    assert Inputs(0) == [];
  }

  lemma {:induction false} Reaches(n: nat)
    requires n <= 14
    ensures RsrvRun(G, Y0(), Inputs(n)) && Phase(n, Observe(G, Y0(), Inputs(n)))
  {
    hide Phase, Observe, RsrvRun, Y0, In, Moves;
    if n == 0 {
      Begins();
    } else {
      Reaches(n - 1);
      var z := Observe(G, Y0(), Inputs(n - 1));
      if n <= 8 { EarlyMoves(n - 1, z); } else { LateMoves(n - 1, z); }
      Extend(n);
    }
  }

  /** Step 11 brings the reservation back. */
  lemma RearmReached()
    ensures RsrvRun(G, Y0(), Inputs(11)) && StaleRearm(G, Observe(G, Y0(), Inputs(11)).s, In(11))
  {
    Reaches(11);
    Rearms11(Observe(G, Y0(), Inputs(11)));
  }

  /** From reset, and with every promise of the bus kept, a store-conditional is driven although
      its line was written by another master after the reserving load read it. */
  lemma StcxDrivenAfterForeignWrite()
    ensures Starts(Y0()) && RsrvRun(G, Y0(), Inputs(14))
    ensures var z := Observe(G, Y0(), Inputs(14));
            RsrvEnv(G, z.b, z.s, In(14)) && StcxDriven(z.s, In(14)) && WroteSince(z.k, z.s.ctl.rsrv.line, z.k.readTime)
  {
    Reaches(14);
    Moves14(Observe(G, Y0(), Inputs(14)));
  }
}
