/**
 * The server process of the blackboard: the arrays `cell` and `last_sent`
 * that it updates in place, one iteration of its loop (`Pass`) and the loop
 * itself over a finite schedule (`Serve`). Pipe I/O is abstracted: a pass is
 * given which request pipes have data (what `select` reports) and the word
 * at the head of each, and it returns the words it writes back.
 */
module Server {
  import opened Protocol
  import opened Arbiter
  import opened Runs

  class Blackboard {
    /** The two shared cells. */
    const cell: array<int>
    /** The value last sent to each reader. */
    const lastSent: array<int>

    ghost predicate Valid()
      reads this
    {
      cell.Length == 2 && lastSent.Length == 2 && cell != lastSent
    }

    /** The state held in the two arrays. */
    function Snapshot(): Board
      reads this, cell, lastSent
      requires Valid()
    {
      Board(cell[0], cell[1], lastSent[0], lastSent[1])
    }

    constructor ()
      ensures Valid() && fresh(cell) && fresh(lastSent)
      ensures Snapshot() == Init()
    {
      cell := new int[2](_ => 0);
      lastSent := new int[2](_ => -1);
    }

    /**
     * The guard section of the loop: a channel is added to the set handed
     * to `select` exactly when its guard holds on the current arrays.
     */
    method Guards() returns (interest: set<Role>)
      requires Valid()
      ensures interest == Interest(Snapshot())
    {
      interest := {};
      if WriterGuard(cell[0], cell[1]) {
        interest := interest + {Writer(0)};
      }
      if WriterGuard(cell[1], cell[0]) {
        interest := interest + {Writer(1)};
      }
      if ReaderGuard(cell[0], lastSent[0]) {
        interest := interest + {Reader(0)};
      }
      if ReaderGuard(cell[1], lastSent[1]) {
        interest := interest + {Reader(1)};
      }
      assert forall r :: r in interest <==> r in Interest(Snapshot());
    }

    /**
     * One iteration of the loop. The guards are evaluated once; `ready` is
     * the set of request pipes that have data when `select` returns, so the
     * channels serviced are those in both sets. They are serviced in the
     * order W0, W1, R0, R1 and the arrays are updated in place.
     */
    method Pass(ready: set<Role>, req: Requests) returns (replies: seq<Reply>)
      requires Valid()
      modifies cell, lastSent
      ensures Valid()
      ensures Outcome(Snapshot(), replies) == Step(old(Snapshot()), Round(ready, req))
    {
      ghost var start := Snapshot();
      var interest := Guards();
      var readfds := interest * ready;
      ghost var o := Outcome(start, []);
      replies := [];
      var val, temp;
      if Writer(0) in readfds {
        val := req.w0;
        cell[0] := val;
        val := ACK;
        replies := replies + [Reply(Writer(0), val)];
      }
      o := ServiceIf(o, Writer(0), readfds, req);
      assert Outcome(Snapshot(), replies) == o;
      if Writer(1) in readfds {
        val := req.w1;
        cell[1] := val;
        val := ACK;
        replies := replies + [Reply(Writer(1), val)];
      }
      o := ServiceIf(o, Writer(1), readfds, req);
      assert Outcome(Snapshot(), replies) == o;
      if Reader(0) in readfds {
        temp := req.r0;
        replies := replies + [Reply(Reader(0), cell[0])];
        lastSent[0] := cell[0];
      }
      o := ServiceIf(o, Reader(0), readfds, req);
      assert Outcome(Snapshot(), replies) == o;
      if Reader(1) in readfds {
        temp := req.r1;
        replies := replies + [Reply(Reader(1), cell[1])];
        lastSent[1] := cell[1];
      }
      o := ServiceIf(o, Reader(1), readfds, req);
      assert Outcome(Snapshot(), replies) == o;
      StepAsChain(start, Round(ready, req));
    }

    /**
     * The server loop, run for the passes of `rounds`: the arrays end in the
     * state the run leaves and the replies of each pass are returned in order.
     */
    method Serve(rounds: seq<Round>) returns (transcript: seq<seq<Reply>>)
      requires Valid()
      modifies cell, lastSent
      ensures Valid()
      ensures Snapshot() == After(old(Snapshot()), rounds)
      ensures transcript == Transcript(old(Snapshot()), rounds)
    {
      ghost var start := Snapshot();
      ghost var st := States(start, rounds);
      transcript := [];
      var k := 0;
      while k < |rounds|
        invariant 0 <= k <= |rounds|
        invariant Snapshot() == st[k]
        invariant transcript == Transcript(start, rounds)[..k]
      {
        var replies := Pass(rounds[k].ready, rounds[k].req);
        StatesStep(start, rounds, k);
        transcript := transcript + [replies];
        k := k + 1;
      }
    }
  }
}
