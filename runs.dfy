/**
 * Runs of the server loop: a finite sequence of passes, each given the
 * readiness and the request words seen by that pass. What readers observe
 * over a run: the latest accepted write (coalescing) and nothing while
 * their cell does not change (edge-triggering).
 */
module Runs {
  import opened Protocol
  import opened Arbiter

  /** The states a run goes through: the start state, then the state after each pass. */
  function States(b: Board, rounds: seq<Round>): (st: seq<Board>)
    ensures |st| == |rounds| + 1 && st[0] == b
    decreases |rounds|
  {
    if rounds == [] then [b]
    else
      var prior := States(b, rounds[..|rounds| - 1]);
      prior + [Step(prior[|rounds| - 1], rounds[|rounds| - 1]).board]
  }

  /** The state after the whole run. */
  function After(b: Board, rounds: seq<Round>): Board
  {
    States(b, rounds)[|rounds|]
  }

  /** The replies sent in each pass of the run. */
  function Transcript(b: Board, rounds: seq<Round>): (t: seq<seq<Reply>>)
  {
    seq(|rounds|, k requires 0 <= k < |rounds| => Step(States(b, rounds)[k], rounds[k]).replies)
  }

  /** Pass k of a run starts from state k and leaves state k + 1. */
  lemma {:induction false} StatesStep(b: Board, rounds: seq<Round>, k: nat)
    requires k < |rounds|
    ensures States(b, rounds)[k + 1] == Step(States(b, rounds)[k], rounds[k]).board
    decreases |rounds|
  {
    var n := |rounds| - 1;
    var prior := rounds[..n];
    if k < n {
      StatesStep(b, prior, k);
      assert prior[k] == rounds[k];
    }
  }

  /**
   * The word of the last write to cell i accepted in the first k passes,
   * or the initial content of the cell if there was none.
   */
  function LastWritten(b: Board, rounds: seq<Round>, i: Idx, k: nat): int
    requires k <= |rounds|
  {
    if k == 0 then b.Cell(i)
    else if Writer(i) in Fired(States(b, rounds)[k - 1], rounds[k - 1].ready) then rounds[k - 1].req.Word(Writer(i))
    else LastWritten(b, rounds, i, k - 1)
  }

  /** At every point of a run, each cell holds the last value written to it. */
  lemma {:induction false} CellHoldsLastWrite(b: Board, rounds: seq<Round>, i: Idx, k: nat)
    requires k <= |rounds|
    ensures States(b, rounds)[k].Cell(i) == LastWritten(b, rounds, i, k)
  {
    if k > 0 {
      CellHoldsLastWrite(b, rounds, i, k - 1);
      StatesStep(b, rounds, k - 1);
      StepEffect(States(b, rounds)[k - 1], rounds[k - 1]);
    }
  }

  /**
   * Coalescing: a reader serviced in pass k is sent the last value written
   * to its cell up to and including pass k; values overwritten before it
   * was serviced are never sent.
   */
  lemma DeliveryIsLastWrite(b: Board, rounds: seq<Round>, k: nat, i: Idx)
    requires k < |rounds|
    ensures forall m :: 0 <= m < |Transcript(b, rounds)[k]| && Transcript(b, rounds)[k][m].to == Reader(i) ==>
      Transcript(b, rounds)[k][m].value == LastWritten(b, rounds, i, k + 1)
  {
    RepliesOnlyToFired(States(b, rounds)[k], rounds[k]);
    StatesStep(b, rounds, k);
    CellHoldsLastWrite(b, rounds, i, k + 1);
  }

  /** One pass of `QuietUntilChanged`. */
  lemma QuietStep(s: Board, rd: Round, i: Idx, v: int)
    requires s.Cell(i) == v && s.LastSent(i) == v
    requires Writer(i) in Fired(s, rd.ready) ==> rd.req.Word(Writer(i)) == v
    ensures Reader(i) !in Fired(s, rd.ready)
    ensures Step(s, rd).board.Cell(i) == v && Step(s, rd).board.LastSent(i) == v
  {
    StepEffect(s, rd);
  }

  /**
   * Edge-triggering: once reader i is up to date, it is not serviced in the
   * first k passes as long as every write accepted to cell i in those passes
   * stores the value the cell already holds; the cell and the marker stay as
   * they were.
   */
  lemma {:induction false} QuietUntilChanged(b: Board, rounds: seq<Round>, i: Idx, k: nat)
    requires b.Cell(i) == b.LastSent(i) && k <= |rounds|
    requires forall j :: 0 <= j < k && Writer(i) in Fired(States(b, rounds)[j], rounds[j].ready) ==>
      rounds[j].req.Word(Writer(i)) == b.Cell(i)
    ensures States(b, rounds)[k].Cell(i) == b.Cell(i) && States(b, rounds)[k].LastSent(i) == b.LastSent(i)
    ensures forall j :: 0 <= j < k ==> Reader(i) !in Fired(States(b, rounds)[j], rounds[j].ready)
  {
    if k > 0 {
      QuietUntilChanged(b, rounds, i, k - 1);
      var st := States(b, rounds);
      QuietStep(st[k - 1], rounds[k - 1], i, b.Cell(i));
      StatesStep(b, rounds, k - 1);
    }
  }

  // ---------------------------------------------------------------------
  // Scenarios
  // ---------------------------------------------------------------------

  function WriteBy(i: Idx, v: int): Round
  {
    Round({Writer(i)}, if i == 0 then Requests(v, 0, READ_REQ, READ_REQ) else Requests(0, v, READ_REQ, READ_REQ))
  }

  const Poll0: Round := Round({Reader(0)}, Requests(0, 0, READ_REQ, READ_REQ))

  /**
   * Writers take turns through the guards: from (0, 0), W0 writes 3 giving
   * (3, 0); W1 is still eligible and writes 5 giving (3, 5); now only W0 may
   * write.
   */
  lemma WritersTakeTurns()
    ensures var st := States(Init(), [WriteBy(0, 3), WriteBy(1, 5)]);
      && st[1].cell0 == 3 && st[1].cell1 == 0 && Writer(1) in Interest(st[1])
      && st[2].cell0 == 3 && st[2].cell1 == 5 && Writer(0) in Interest(st[2]) && Writer(1) !in Interest(st[2])
  {
    var rs := [WriteBy(0, 3), WriteBy(1, 5)];
    var st := States(Init(), rs);
    StatesStep(Init(), rs, 0);
    StepEffect(Init(), rs[0]);
    StatesStep(Init(), rs, 1);
    StepEffect(st[1], rs[1]);
  }

  /**
   * Coalescing: after W1 writes 10, W0 writes 5 and then 7 in two passes in
   * a row (its guard holds at (0, 10) and at (5, 10)), and only then does R0
   * poll; it receives 7 and never 5.
   */
  lemma LaterWriteOverwritesEarlier()
    ensures Transcript(Init(), [WriteBy(1, 10), WriteBy(0, 5), WriteBy(0, 7), Poll0])[3] == [Reply(Reader(0), 7)]
  {
    var rs := [WriteBy(1, 10), WriteBy(0, 5), WriteBy(0, 7), Poll0];
    var st := States(Init(), rs);
    StatesStep(Init(), rs, 0);
    StepEffect(st[0], rs[0]);
    StatesStep(Init(), rs, 1);
    StepEffect(st[1], rs[1]);
    StatesStep(Init(), rs, 2);
    StepEffect(st[2], rs[2]);
    assert st[3] == Board(7, 10, -1, -1);
    StepAsChain(st[3], Poll0);
    assert Fired(st[3], Poll0.ready) == {Reader(0)};
  }

  /**
   * The start-up marker -1 is distinct from every value the writer clients
   * produce (0..99), but not from every value the server accepts: a first
   * write of -1 to cell 0 is never sent to R0.
   */
  lemma SentinelHidesFirstWriteOfMinusOne()
    ensures var b := After(Init(), [WriteBy(0, -1)]);
      b.Cell(0) == -1 && Reader(0) !in Interest(b)
  {
    StatesStep(Init(), [WriteBy(0, -1)], 0);
    StepEffect(Init(), WriteBy(0, -1));
  }
}
