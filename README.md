# Blackboard server (Homework 6) in Dafny

The Homework 6 program is an inter-process "blackboard". One server process
holds two integer cells. Four client processes talk to it over pipes:

- writers W0 and W1 each send new values for their own cell;
- readers R0 and R1 each ask for the value of their own cell.

The server loop is `run_server`. In each pass it does three things:

1. It decides from four guards which request pipes it will listen to:
   - a writer may write only while its cell is not above the other cell;
   - a reader may read only when its cell differs from the last value that
     reader was sent.
2. It waits in `select` on just those pipes.
3. It services the pipes that are ready, in the fixed order W0, W1, R0, R1:
   - a writer's value is stored in its cell and the writer gets `ACK` (1);
   - a reader's request word (`READ_REQ`, 999) is read and thrown away, the
     reader gets its cell's current value, and that value becomes the
     reader's "last sent" marker.

At start-up the cells hold 0 and both markers hold -1.

The model has four modules:

- `Protocol` (protocol.dfy): the wire words `ACK` and `READ_REQ`, the four
  roles, the service order, and the words at the heads of the request pipes.
- `Arbiter` (arbiter.dfy): one pass as a pure state machine. This covers
  the state (`Board`), the guards (`Interest`), what `select` reports
  (`Fired`), the servicing (`Step`), and the properties of a single pass.
- `Runs` (runs.dfy): runs of the loop over a finite schedule of passes, and
  what readers observe over a run. Readers are sent the latest value written
  to their cell ("coalescing"). A reader is not serviced again while its
  cell does not change ("edge-triggered").
- `Server` (server.dfy): the server as imperative code. Class `Blackboard`
  keeps the arrays `cell` and `lastSent` and updates them in place. Its
  methods are proved against the functions of `Arbiter` and `Runs`:
  - `Guards` builds the interest set;
  - `Pass` is one loop iteration;
  - `Serve` is the loop run over a schedule.

The pipes, the processes and `select` are abstracted. Each pass is given a
`Round`, which holds:

- the set of request pipes that have data when `select` returns (`ready`);
- the word at the head of each of those pipes (`req`).

`select` leaves in `readfds` the intersection of the interest set and
`ready`. Each pass returns the words the server writes back, as `Reply`
values.

An empty intersection stands for `select` still waiting. That pass changes
nothing and sends nothing.

## Model

| member | source | states |
|---|---|---|
| Arbiter.Init | Homework6/BBserver.c:66-67 | Both cells start at 0 and both markers at -1. In that state all four channels are eligible. |
| Arbiter.Interest | Homework6/BBserver.c:94-116 | The interest set has only the four roles. At least one writer is always in it. Both writers are in it exactly when the cells are equal; otherwise only the writer of the strictly smaller cell is. Reader i is in it exactly when cell i differs from its last-sent marker. |
| Arbiter.Fired | Homework6/BBserver.c:118-122 | The set `select` reports is exactly the channels in both the interest set and the ready set. It is non-empty whenever both writers have data waiting. |
| Arbiter.Service | Homework6/BBserver.c:129-158 | The body of one `FD_ISSET` block (129-135, 138-144, 147-151 or 154-158). No contract of its own; its effect on each cell, marker and the replies is `Arbiter.ServiceIfEffect`. |
| Arbiter.ServiceIf | Homework6/BBserver.c:129-158 | One `FD_ISSET` block: service the channel only when it is in the set `select` returned. No contract of its own; its meaning is `Arbiter.ServiceIfEffect`. |
| Arbiter.ServiceIfEffect | Homework6/BBserver.c:129-158 | One block changes only what it services: a fired writer's cell takes its word, a fired reader's marker takes its cell, one reply (ACK or the cell) is appended; an unfired channel changes nothing. |
| Arbiter.Step | Homework6/BBserver.c:84-158 | One iteration of the loop. No contract of its own; its meaning is `Arbiter.StepAsChain`, `Arbiter.StepEffect`, `Arbiter.PickedInPriorityOrder`, `Arbiter.RepliesOnlyToFired` and `Arbiter.EveryFiredChannelAnswered`, and `Server.Blackboard.Pass` ties it to the arrays. |
| Arbiter.StepAsChain | Homework6/BBserver.c:128-158 | A pass is the four guarded blocks W0, W1, R0, R1 run one after another on the set fixed before `select`. |
| Arbiter.StepEffect | Homework6/BBserver.c:128-158 | After a pass, cell i holds W_i's word if W_i fired and is unchanged otherwise. Reader i's marker holds the final cell i if R_i fired and is unchanged otherwise. The replies are one per fired channel in service order: writers get ACK and readers get their cell after the pass's writes. |
| Arbiter.PickedInPriorityOrder | Homework6/BBserver.c:128-158 | The channels serviced are exactly the fired ones, each once, in strictly increasing W0 < W1 < R0 < R1 order. |
| Arbiter.RepliesOnlyToFired | Homework6/BBserver.c:95-158 | Every reply goes to a channel that was ready and whose guard held at the start of the pass. Replies come in strict service order, so no channel is answered twice. A writer reply is ACK and a reader reply is its cell's value at the end of the pass. |
| Arbiter.EveryFiredChannelAnswered | Homework6/BBserver.c:122-158 | Every channel that is ready and eligible at the start of a pass gets a reply in that pass. |
| Arbiter.ReaderQuietAfterService | Homework6/BBserver.c:147-158 | After reader i is serviced, its marker equals its cell, so it is not eligible in the next pass. |
| Arbiter.ReaderWakesOnlyOnChange | Homework6/BBserver.c:107-158 | An up-to-date reader is not serviced. It becomes eligible again in the next pass exactly when its writer was serviced in this pass with a different value. |
| Arbiter.DeliveryDiffersFromLast | Homework6/BBserver.c:107-116 | A reader serviced in a pass where its writer was not serviced is sent a value different from its previous marker, and its cell keeps that value through the pass. |
| Arbiter.SamePassWriteCanRepeatDelivery | Homework6/BBserver.c:107-151 | Reader guards are read before the same pass's writes. From cells (5, 9) with R0's marker at 3, W0 writes 3 and R0 is sent 3 again. |
| Arbiter.NoMidPassRecheck | Homework6/BBserver.c:95-151 | Guards are not re-evaluated mid-pass. From (4, 4) with markers (4, 4) and all pipes ready, both writers are serviced (giving (-3, 7)) and neither reader is. |
| Arbiter.ReadAfterWriteSamePass | Homework6/BBserver.c:129-151 | From start-up, a pass where W0 writes 42 and R0 is ready sends ACK to W0 and then 42 to R0. |
| Arbiter.PollWordIgnored | Homework6/BBserver.c:147-158 | The word a reader sends has no effect on the pass: any other poll words give the same state and replies. |
| Runs.States | Homework6/BBserver.c:84-159 | The states the `while(1)` loop goes through over a finite schedule: one more than the passes, starting with the start state. Each step is `Runs.StatesStep`; `Server.Blackboard.Serve` ties it to the arrays. |
| Runs.Transcript | Homework6/BBserver.c:84-159 | The replies written back in each pass of a run. No contract of its own; `Runs.DeliveryIsLastWrite` gives what readers receive in it and `Server.Blackboard.Serve` ties it to the loop. |
| Runs.StatesStep | Homework6/BBserver.c:84-159 | Pass k of a run starts from the k-th state and leaves the (k+1)-th. |
| Runs.CellHoldsLastWrite | Homework6/BBserver.c:128-144 | At every point of a run, each cell holds the word of the last write accepted to it, or its content at the start of the run (0 from start-up) if none was. |
| Runs.DeliveryIsLastWrite | Homework6/BBserver.c:128-158 | A reader serviced in pass k is sent the last value written to its cell up to and including pass k. Values overwritten before then are never sent. |
| Runs.QuietUntilChanged | Homework6/BBserver.c:106-158 | Once reader i is up to date, it is not serviced in any of the first k passes as long as every write accepted to cell i in those passes stores the value already there. Through those passes its cell and marker stay as they were. |
| Runs.WritersTakeTurns | Homework6/BBserver.c:94-144 | From start-up, W0 writes 3 and W1 is still allowed. W1 then writes 5, after which only W0 may write. |
| Runs.LaterWriteOverwritesEarlier | Homework6/BBserver.c:94-158 | From start-up W1 writes 10, then W0 writes 5 and 7 in two passes in a row (its guard holds at (0, 10) and at (5, 10)), and then R0 polls. R0 is sent exactly 7, never 5. |
| Runs.SentinelHidesFirstWriteOfMinusOne | Homework6/BBserver.c:66-110 | A first write of -1 to cell 0 leaves R0 ineligible, since it equals the start-up marker. |
| Server.Blackboard.constructor | Homework6/BBserver.c:66-67 | The arrays are fresh with both cells 0 and both markers -1. |
| Server.Blackboard.Guards | Homework6/BBserver.c:94-116 | The set built by the four guard tests on the arrays is exactly `Interest` of the current state. |
| Server.Blackboard.Pass | Homework6/BBserver.c:84-158 | One loop iteration updates the arrays in place to the state `Step` gives and returns exactly `Step`'s replies. |
| Server.Blackboard.Serve | Homework6/BBserver.c:84-159 | Running the loop over a schedule leaves the arrays in the run's final state and returns each pass's replies, in order. |

## Left out

- `run_writer`, `run_reader` and `main` (Homework6/BBserver.c:14-62, 162-217)
  are the client processes and the process and pipe set-up. They are not part
  of this model. Clients appear only through the words at the heads of the
  request pipes and the set of pipes that are ready.
- File descriptors, `FD_ZERO`/`FD_SET`/`FD_ISSET` and `max_fd` are left out.
  A set of roles stands for `readfds`.
- The `select` call itself is modelled as its result, the intersection
  with `ready`. Its return value is ignored by the source, and so are its
  errors (such as being interrupted by a signal); the model leaves them out
  too. Blocking while nothing is ready is a pass with an empty result.
- Failures, partial transfers and blocking of `read` and `write` on the
  pipes are left out. Every read yields one whole `int` and every reply is
  delivered.
- The `printf` tracing (lines 82, 134 and 143) has no effect on state and is
  left out.
- The endless `while(1)` loop is modelled over finite schedules of any
  length. Facts that hold for every finite prefix are stated that way.
- C `int` is 32 bits wide. Cells and words are unbounded integers here,
  because the server only copies words and compares them with `<=` and
  `!=`, so no arithmetic wraps.

## Notes on the source's behaviour

- Edge-triggering is not strict. Reader guards are evaluated before
  `select`, and writes in the same pass happen before the reader is
  serviced. So a reader can be sent the value it was already sent last time:
  a write in the same pass can put that value back into its cell
  (`Arbiter.SamePassWriteCanRepeatDelivery`). Across passes the guarantee
  does hold (`Arbiter.DeliveryDiffersFromLast`, `Runs.QuietUntilChanged`).
- The start-up marker -1 collides with a written value of -1
  (`Runs.SentinelHidesFirstWriteOfMinusOne`). The writer clients only
  produce values 0 to 99 (line 20), so this does not arise with them.
- If W0 alone is serviced in the first pass and writes v > 0, its guard
  `cell[0] <= cell[1]` stays false until W1 writes a value >= v; the same
  holds with the writers swapped. Back-to-back writes by one writer are
  possible once the other cell is ahead: after W1 writes 10, W0 writes 5 and
  then 7 in consecutive passes (`Runs.LaterWriteOverwritesEarlier`).
