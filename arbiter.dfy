/**
 * One pass of the blackboard server as a pure state machine: the two cells,
 * the two "last sent" markers, the four guards, the interest set handed to
 * `select`, and the servicing of the ready channels in the fixed order
 * W0, W1, R0, R1.
 */
module Arbiter {
  import opened Protocol

  /** The server's whole state: `cell[0..1]` and `last_sent[0..1]`. */
  datatype Board = Board(cell0: int, cell1: int, last0: int, last1: int) {
    function Cell(i: Idx): int
    {
      if i == 0 then cell0 else cell1
    }

    function LastSent(i: Idx): int
    {
      if i == 0 then last0 else last1
    }

    function WithCell(i: Idx, v: int): (b: Board)
      ensures b.Cell(i) == v && b.Cell(Other(i)) == Cell(Other(i))
      ensures forall j: Idx :: b.LastSent(j) == LastSent(j)
    {
      if i == 0 then this.(cell0 := v) else this.(cell1 := v)
    }

    function WithLastSent(i: Idx, v: int): (b: Board)
      ensures b.LastSent(i) == v && b.LastSent(Other(i)) == LastSent(Other(i))
      ensures forall j: Idx :: b.Cell(j) == Cell(j)
    {
      if i == 0 then this.(last0 := v) else this.(last1 := v)
    }
  }

  /** The state at start-up: both cells 0, both markers at the sentinel -1. */
  function Init(): (b: Board)
    ensures Interest(b) == AllRoles
  {
    Board(0, 0, -1, -1)
  }

  /** A writer may write only while its cell is not above the other one. */
  predicate WriterGuard(mine: int, other: int)
  {
    mine <= other
  }

  /** A reader may read only when its cell differs from what it was last sent. */
  predicate ReaderGuard(current: int, lastSent: int)
  {
    current != lastSent
  }

  predicate Eligible(b: Board, r: Role)
  {
    match r
    case Writer(i) => WriterGuard(b.Cell(i), b.Cell(Other(i)))
    case Reader(i) => ReaderGuard(b.Cell(i), b.LastSent(i))
  }

  /**
   * The request channels put in `readfds` before `select`. Some writer is
   * always in it, so `select` never waits on an empty set; both writers are
   * in it exactly when the cells are equal, and otherwise only the writer of
   * the smaller cell.
   */
  function Interest(b: Board): (s: set<Role>)
    ensures s <= AllRoles
    ensures Writer(0) in s || Writer(1) in s
    ensures Writer(0) in s && Writer(1) in s <==> b.Cell(0) == b.Cell(1)
    ensures forall i: Idx ::
      Writer(i) in s && Writer(Other(i)) !in s <==> b.Cell(i) < b.Cell(Other(i))
    ensures forall i: Idx :: Reader(i) in s <==> b.Cell(i) != b.LastSent(i)
  {
    set r | r in AllRoles && Eligible(b, r)
  }

  /**
   * What `select` leaves in `readfds`: the channels that are both in the
   * interest set and ready. If both writers have data, the set is never empty.
   */
  function Fired(b: Board, ready: set<Role>): (f: set<Role>)
    ensures f <= ready && f <= Interest(b)
    ensures forall r :: r in ready && r in Interest(b) ==> r in f
    ensures Writer(0) in ready && Writer(1) in ready ==> f != {}
  {
    Interest(b) * ready
  }

  /** What one pass is given: which request pipes have data, and that data. */
  datatype Round = Round(ready: set<Role>, req: Requests)

  /** The state after some services, and the replies sent so far. */
  datatype Outcome = Outcome(board: Board, replies: seq<Reply>)

  /** The elements of `rs` that lie in `f`, in the order of `rs`. */
  function InOrder(rs: seq<Role>, f: set<Role>): seq<Role>
    decreases |rs|
  {
    if rs == [] then []
    else
      var last := rs[|rs| - 1];
      InOrder(rs[..|rs| - 1], f) + (if last in f then [last] else [])
  }

  /** The fired channels in service order. */
  function Picked(f: set<Role>): seq<Role>
  {
    InOrder(Order, f)
  }

  /**
   * Servicing one channel. A writer's word becomes its cell and the writer is
   * sent ACK; a reader's word is consumed and dropped, the reader is sent its
   * cell's current value, and that value becomes its "last sent" marker.
   */
  function Service(b: Board, r: Role, req: Requests): (Board, Reply)
  {
    match r
    case Writer(i) => (b.WithCell(i, req.Word(r)), Reply(r, ACK))
    case Reader(i) => (b.WithLastSent(i, b.Cell(i)), Reply(r, b.Cell(i)))
  }

  /**
   * Servicing `r` on top of `o` when `r` fired, and leaving `o` alone
   * otherwise: one `if (FD_ISSET(...))` block of the loop.
   */
  function ServiceIf(o: Outcome, r: Role, f: set<Role>, req: Requests): Outcome
  {
    if r in f then
      var (after, reply) := Service(o.board, r, req);
      Outcome(after, o.replies + [reply])
    else o
  }

  /** Going through `rs` in order from `b`, servicing the roles that fired. */
  function ServiceInOrder(b: Board, rs: seq<Role>, f: set<Role>, req: Requests): Outcome
    decreases |rs|
  {
    if rs == [] then Outcome(b, [])
    else ServiceIf(ServiceInOrder(b, rs[..|rs| - 1], f, req), rs[|rs| - 1], f, req)
  }

  /**
   * One iteration of the server loop: the guards are evaluated once, on the
   * state at the start of the pass, and the fired channels are then serviced
   * in the fixed order.
   */
  function Step(b: Board, rd: Round): Outcome
  {
    ServiceInOrder(b, Order, Fired(b, rd.ready), rd.req)
  }

  // ---------------------------------------------------------------------
  // The pass, all at once
  // ---------------------------------------------------------------------

  /** The word a serviced channel receives, given the state at the end of the pass. */
  function Answer(r: Role, after: Board): int
  {
    match r
    case Writer(_) => ACK
    case Reader(i) => after.Cell(i)
  }

  /** One reply per channel of `rs`, in the order of `rs`. */
  function Answers(rs: seq<Role>, after: Board): seq<Reply>
  {
    seq(|rs|, m requires 0 <= m < |rs| => Reply(rs[m], Answer(rs[m], after)))
  }

  function Opt(r: Role, f: set<Role>): seq<Role>
  {
    if r in f then [r] else []
  }

  lemma PickedUnfold(f: set<Role>)
    ensures Picked(f) == Opt(Writer(0), f) + Opt(Writer(1), f) + Opt(Reader(0), f) + Opt(Reader(1), f)
  {
    var s1, s2, s3 := [Writer(0)], [Writer(0), Writer(1)], [Writer(0), Writer(1), Reader(0)];
    assert Order[..3] == s3 && s3[..2] == s2 && s2[..1] == s1 && s1[..0] == [];
    assert InOrder(s1, f) == Opt(Writer(0), f);
    assert InOrder(s2, f) == InOrder(s1, f) + Opt(Writer(1), f);
    assert InOrder(s3, f) == InOrder(s2, f) + Opt(Reader(0), f);
    assert InOrder(Order, f) == InOrder(s3, f) + Opt(Reader(1), f);
  }

  /** A pass is the four guarded services of the source, one after another. */
  lemma StepAsChain(b: Board, rd: Round)
    ensures var f := Fired(b, rd.ready);
      Step(b, rd) ==
      ServiceIf(ServiceIf(ServiceIf(ServiceIf(Outcome(b, []),
        Writer(0), f, rd.req), Writer(1), f, rd.req), Reader(0), f, rd.req), Reader(1), f, rd.req)
  {
    var s1, s2, s3 := [Writer(0)], [Writer(0), Writer(1)], [Writer(0), Writer(1), Reader(0)];
    assert Order[..3] == s3 && s3[..2] == s2 && s2[..1] == s1 && s1[..0] == [];
  }

  /** What servicing `r`, when it fired, does to each cell, marker and the replies. */
  lemma ServiceIfEffect(o: Outcome, r: Role, f: set<Role>, req: Requests)
    ensures var o' := ServiceIf(o, r, f, req);
      && (forall i: Idx :: o'.board.Cell(i) == if r == Writer(i) && r in f then req.Word(r) else o.board.Cell(i))
      && (forall i: Idx :: o'.board.LastSent(i) == if r == Reader(i) && r in f then o.board.Cell(i) else o.board.LastSent(i))
      && o'.replies == o.replies + (if r in f then [Reply(r, Answer(r, o.board))] else [])
  {
  }

  lemma AnswersAppend(xs: seq<Role>, ys: seq<Role>, after: Board)
    ensures Answers(xs + ys, after) == Answers(xs, after) + Answers(ys, after)
  {
  }

  /** The outcomes of a pass at its start and after the W0, W1, R0 and R1 blocks. */
  function Stages(b: Board, rd: Round): (st: seq<Outcome>)
    ensures |st| == 5
  {
    var f, req := Fired(b, rd.ready), rd.req;
    var o0 := Outcome(b, []);
    var o1 := ServiceIf(o0, Writer(0), f, req);
    var o2 := ServiceIf(o1, Writer(1), f, req);
    var o3 := ServiceIf(o2, Reader(0), f, req);
    [o0, o1, o2, o3, ServiceIf(o3, Reader(1), f, req)]
  }

  lemma StagesEffect(b: Board, rd: Round)
    ensures var f, st := Fired(b, rd.ready), Stages(b, rd);
      && st[4] == Step(b, rd)
      && (forall i: Idx :: st[2].board.Cell(i) == st[4].board.Cell(i))
      && (forall i: Idx :: st[4].board.Cell(i) == if Writer(i) in f then rd.req.Word(Writer(i)) else b.Cell(i))
      && (forall i: Idx :: st[4].board.LastSent(i) == if Reader(i) in f then st[4].board.Cell(i) else b.LastSent(i))
  {
    var f, req, st := Fired(b, rd.ready), rd.req, Stages(b, rd);
    StepAsChain(b, rd);
    ServiceIfEffect(st[0], Writer(0), f, req);
    ServiceIfEffect(st[1], Writer(1), f, req);
    ServiceIfEffect(st[2], Reader(0), f, req);
    ServiceIfEffect(st[3], Reader(1), f, req);
  }

  lemma AnswersOpt(r: Role, f: set<Role>, after: Board)
    ensures Answers(Opt(r, f), after) == if r in f then [Reply(r, Answer(r, after))] else []
  {
  }

  /** The replies of a pass: one per fired channel, in service order. */
  lemma StepReplies(b: Board, rd: Round)
    ensures var o := Step(b, rd);
      o.replies == Answers(Picked(Fired(b, rd.ready)), o.board)
  {
    var f, req, st := Fired(b, rd.ready), rd.req, Stages(b, rd);
    StagesEffect(b, rd);
    PickedUnfold(f);
    var fin := st[4].board;
    var a1, a2 := Opt(Writer(0), f), Opt(Writer(1), f);
    var a3, a4 := Opt(Reader(0), f), Opt(Reader(1), f);
    AnswersOpt(Writer(0), f, fin);
    AnswersOpt(Writer(1), f, fin);
    AnswersOpt(Reader(0), f, fin);
    AnswersOpt(Reader(1), f, fin);
    assert Answer(Reader(0), st[2].board) == Answer(Reader(0), fin);
    assert Answer(Reader(1), st[3].board) == Answer(Reader(1), fin) by {
      ServiceIfEffect(st[2], Reader(0), f, req);
    }
    ServiceIfEffect(st[0], Writer(0), f, req);
    assert st[1].replies == Answers(a1, fin);
    ServiceIfEffect(st[1], Writer(1), f, req);
    assert st[2].replies == st[1].replies + Answers(a2, fin);
    ServiceIfEffect(st[2], Reader(0), f, req);
    assert st[3].replies == st[2].replies + Answers(a3, fin);
    ServiceIfEffect(st[3], Reader(1), f, req);
    assert st[4].replies == st[3].replies + Answers(a4, fin);
    AnswersAppend(a1, a2, fin);
    AnswersAppend(a1 + a2, a3, fin);
    AnswersAppend(a1 + a2 + a3, a4, fin);
  }

  /**
   * The effect of one pass: cell i takes W_i's word exactly when W_i fired;
   * the marker of reader i takes the final value of cell i exactly when R_i
   * fired; every fired channel gets one reply, in service order, writers ACK
   * and readers the value of their cell after this pass's writes.
   */
  lemma StepEffect(b: Board, rd: Round)
    ensures var f, o := Fired(b, rd.ready), Step(b, rd);
      && (forall i: Idx :: o.board.Cell(i) == if Writer(i) in f then rd.req.Word(Writer(i)) else b.Cell(i))
      && (forall i: Idx :: o.board.LastSent(i) == if Reader(i) in f then o.board.Cell(i) else b.LastSent(i))
      && o.replies == Answers(Picked(f), o.board)
  {
    StagesEffect(b, rd);
    StepReplies(b, rd);
  }

  lemma {:induction false} InOrderSorted(rs: seq<Role>, f: set<Role>)
    requires forall m, n :: 0 <= m < n < |rs| ==> Rank(rs[m]) < Rank(rs[n])
    ensures forall r :: r in InOrder(rs, f) <==> r in rs && r in f
    ensures forall m, n :: 0 <= m < n < |InOrder(rs, f)| ==> Rank(InOrder(rs, f)[m]) < Rank(InOrder(rs, f)[n])
    decreases |rs|
  {
    if rs != [] {
      var prior, last := rs[..|rs| - 1], rs[|rs| - 1];
      InOrderSorted(prior, f);
      var p := InOrder(prior, f);
      assert InOrder(rs, f) == p + Opt(last, f);
      forall x | x in p ensures Rank(x) < Rank(last) {
        var j :| 0 <= j < |prior| && prior[j] == x;
      }
      assert forall r :: r in rs <==> r in prior || r == last;
    }
  }

  /** The fired channels in service order: each exactly once, in ascending rank. */
  lemma PickedInPriorityOrder(f: set<Role>)
    requires f <= AllRoles
    ensures forall r :: r in Picked(f) <==> r in f
    ensures forall m, n :: 0 <= m < n < |Picked(f)| ==> Rank(Picked(f)[m]) < Rank(Picked(f)[n])
  {
    assert forall m :: 0 <= m < |Order| ==> Rank(Order[m]) == m;
    InOrderSorted(Order, f);
  }

  // ---------------------------------------------------------------------
  // Properties of one pass
  // ---------------------------------------------------------------------

  /**
   * A channel is answered in a pass only if it was ready and its guard held
   * on the state at the START of the pass; the answers come in the order
   * W0, W1, R0, R1 (so no channel twice); a writer is sent ACK and a reader
   * the value of its cell, including a write made earlier in the same pass.
   */
  lemma RepliesOnlyToFired(b: Board, rd: Round)
    ensures var o := Step(b, rd);
      && (forall m :: 0 <= m < |o.replies| ==>
            o.replies[m].to in rd.ready && Eligible(b, o.replies[m].to))
      && (forall m, n :: 0 <= m < n < |o.replies| ==>
            Rank(o.replies[m].to) < Rank(o.replies[n].to))
      && (forall m :: 0 <= m < |o.replies| ==>
            o.replies[m].value == if o.replies[m].to.Writer? then ACK else o.board.Cell(o.replies[m].to.i))
  {
    var f, o := Fired(b, rd.ready), Step(b, rd);
    StepReplies(b, rd);
    PickedInPriorityOrder(f);
    var p := Picked(f);
    forall m | 0 <= m < |o.replies|
      ensures o.replies[m].to in rd.ready && Eligible(b, o.replies[m].to)
    {
      assert o.replies[m].to == p[m] && p[m] in f;
    }
  }

  /** Every channel that was ready and eligible at the start of the pass is answered. */
  lemma EveryFiredChannelAnswered(b: Board, rd: Round, r: Role)
    requires r in rd.ready && Eligible(b, r)
    ensures exists m :: 0 <= m < |Step(b, rd).replies| && Step(b, rd).replies[m].to == r
  {
    var f, o := Fired(b, rd.ready), Step(b, rd);
    StepReplies(b, rd);
    PickedInPriorityOrder(f);
    var p := Picked(f);
    assert r in f;
    var m :| 0 <= m < |p| && p[m] == r;
    assert o.replies[m].to == r;
  }

  /** Servicing reader i leaves it ineligible: its marker now equals its cell. */
  lemma ReaderQuietAfterService(b: Board, rd: Round, i: Idx)
    requires Reader(i) in Fired(b, rd.ready)
    ensures Step(b, rd).board.LastSent(i) == Step(b, rd).board.Cell(i)
    ensures !Eligible(Step(b, rd).board, Reader(i))
  {
    StepEffect(b, rd);
  }

  /**
   * A reader that is up to date is not serviced, and becomes eligible again
   * exactly when its writer was serviced in this pass with a different value.
   */
  lemma ReaderWakesOnlyOnChange(b: Board, rd: Round, i: Idx)
    requires b.Cell(i) == b.LastSent(i)
    ensures Reader(i) !in Fired(b, rd.ready)
    ensures Eligible(Step(b, rd).board, Reader(i)) <==>
      Writer(i) in Fired(b, rd.ready) && rd.req.Word(Writer(i)) != b.Cell(i)
  {
    StepEffect(b, rd);
  }

  /**
   * Unless its writer was serviced earlier in the same pass, a reader is
   * only ever sent a value different from the one it was last sent.
   */
  lemma DeliveryDiffersFromLast(b: Board, rd: Round, i: Idx)
    requires Reader(i) in Fired(b, rd.ready) && Writer(i) !in Fired(b, rd.ready)
    ensures Step(b, rd).board.Cell(i) == b.Cell(i) != b.LastSent(i)
    ensures forall m :: 0 <= m < |Step(b, rd).replies| && Step(b, rd).replies[m].to == Reader(i) ==>
      Step(b, rd).replies[m].value != b.LastSent(i)
  {
    StepEffect(b, rd);
    RepliesOnlyToFired(b, rd);
  }

  /**
   * The guard of a reader is read before the writes of the same pass, so a
   * write that restores the value the reader was last sent makes it receive
   * that value a second time in a row.
   */
  lemma SamePassWriteCanRepeatDelivery()
    ensures var b, rd := Board(5, 9, 3, -1), Round({Writer(0), Reader(0)}, Requests(3, 0, READ_REQ, READ_REQ));
      && b.LastSent(0) == 3
      && Step(b, rd).replies == [Reply(Writer(0), ACK), Reply(Reader(0), 3)]
  {
    var b, rd := Board(5, 9, 3, -1), Round({Writer(0), Reader(0)}, Requests(3, 0, READ_REQ, READ_REQ));
    StepAsChain(b, rd);
    assert Fired(b, rd.ready) == {Writer(0), Reader(0)};
  }

  /**
   * Guards are not re-checked mid-pass. From (4, 4) with both markers at 4,
   * both writers are serviced although W0's write of -3 already makes W1's
   * guard false, and R0 is not serviced although that write makes its cell
   * differ from its marker.
   */
  lemma NoMidPassRecheck()
    ensures var b, rd := Board(4, 4, 4, 4), Round(AllRoles, Requests(-3, 7, READ_REQ, READ_REQ));
      && Step(b, rd).board == Board(-3, 7, 4, 4)
      && Step(b, rd).replies == [Reply(Writer(0), ACK), Reply(Writer(1), ACK)]
  {
    var b, rd := Board(4, 4, 4, 4), Round(AllRoles, Requests(-3, 7, READ_REQ, READ_REQ));
    StepAsChain(b, rd);
    assert Fired(b, rd.ready) == {Writer(0), Writer(1)};
  }

  /** A write is visible to its reader when that reader is serviced later in the same pass. */
  lemma ReadAfterWriteSamePass()
    ensures var rd := Round({Writer(0), Reader(0)}, Requests(42, 0, READ_REQ, READ_REQ));
      Step(Init(), rd).replies == [Reply(Writer(0), ACK), Reply(Reader(0), 42)]
  {
    var rd := Round({Writer(0), Reader(0)}, Requests(42, 0, READ_REQ, READ_REQ));
    StepAsChain(Init(), rd);
    assert Fired(Init(), rd.ready) == {Writer(0), Reader(0)};
  }

  lemma {:induction false} ServiceInOrderIgnoresPolls(b: Board, rs: seq<Role>, f: set<Role>, req: Requests, req': Requests)
    requires req.w0 == req'.w0 && req.w1 == req'.w1
    ensures ServiceInOrder(b, rs, f, req) == ServiceInOrder(b, rs, f, req')
    decreases |rs|
  {
    if rs != [] {
      ServiceInOrderIgnoresPolls(b, rs[..|rs| - 1], f, req, req');
    }
  }

  /** What a reader sends on its request pipe has no effect: it is read and dropped. */
  lemma PollWordIgnored(b: Board, rd: Round, x: int, y: int)
    ensures Step(b, rd) == Step(b, Round(rd.ready, rd.req.(r0 := x, r1 := y)))
  {
    ServiceInOrderIgnoresPolls(b, Order, Fired(b, rd.ready), rd.req, rd.req.(r0 := x, r1 := y));
  }
}
