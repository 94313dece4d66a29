/**
 The stream adapter of internal/transport/stream_conn.go: a byte stream re-chunked
 through two bounded channels and a pending buffer.

 A `select` takes any branch that is ready; which one it took is a parameter. The
 functions on `Conn` are the atomic steps and `StreamConn` runs them in place.
 */
module Stream {
  import opened Common

  type Bytes = seq<byte>

  /** The buffer size of both channels. */
  const CAPACITY: nat := 64

  /** A branch of the select statements. */
  datatype Pick = Channel | Timer | DeadlineChanged | LocalDone | RemoteDone | Canceled

  datatype Outcome = Data(bytes: Bytes) | Wrote(n: nat) | Timeout | Closed | StreamEnded | Remote(err: nat)

  function Flatten(chunks: seq<Bytes>): Bytes {
    if chunks == [] then [] else chunks[0] + Flatten(chunks[1..])
  }

  lemma {:induction false} FlattenAppend(chunks: seq<Bytes>, b: Bytes)
    ensures Flatten(chunks + [b]) == Flatten(chunks) + b
  {
    if chunks == [] {
      assert chunks + [b] == [b];
      assert Flatten([b]) == b + Flatten([]);
    } else {
      assert (chunks + [b])[1..] == chunks[1..] + [b];
      FlattenAppend(chunks[1..], b);
    }
  }

  datatype Conn = Conn(
    pending: Bytes,
    readCh: seq<Bytes>,
    writeCh: seq<Bytes>,
    localDone: bool,
    remoteDone: bool,         // remoteDone and readCh are closed together, once
    remoteErr: nat,
    canceled: bool,
    pumping: bool,            // writePump has not returned
    hand: Bytes,              // the chunk writePump has received and not yet sent
    accepted: Bytes,          // history: bytes enqueueRead accepted
    returned: Bytes,          // history: bytes Read returned
    written: Bytes,           // history: bytes Write accepted
    sent: Bytes)              // history: bytes whose send succeeded
  {
    /** The branches `Read` can take. */
    predicate ReadReady(pick: Pick) {
      match pick
      case Channel => readCh != [] || remoteDone
      case LocalDone => localDone
      case RemoteDone => false
      case Canceled => canceled
      case _ => true
    }

    /** `Read` with a buffer of `n` bytes, ending in branch `pick`. */
    function Read(n: nat, pick: Pick): (Conn, Outcome)
      requires ReadReady(pick) && pick != DeadlineChanged
    {
      if n == 0 then (this, Data([]))
      else if pending != [] then
        var k := if n < |pending| then n else |pending|;
        (this.(pending := pending[k..], returned := returned + pending[..k]), Data(pending[..k]))
      else match pick
        case Channel =>
          if readCh == [] then (this, Remote(remoteErr))
          else
            var b := readCh[0];
            var k := if n < |b| then n else |b|;
            (this.(readCh := readCh[1..], pending := b[k..], returned := returned + b[..k]), Data(b[..k]))
        case Timer => (this, Timeout)
        case _ => (this, Closed)
    }

    predicate EnqueueReady(pick: Pick) {
      match pick
      case Channel => |readCh| < CAPACITY
      case LocalDone => localDone
      case RemoteDone => remoteDone
      case Canceled => canceled
      case _ => false
    }

    /** `enqueueRead`, with the closed check and the send as one step. */
    function Enqueue(p: Bytes, pick: Pick): (Conn, Outcome)
      requires EnqueueReady(pick)
    {
      if p == [] then (this, Wrote(0))
      else if remoteDone || pick != Channel then (this, Closed)
      else (this.(readCh := readCh + [p], accepted := accepted + p), Wrote(|p|))
    }

    predicate WriteReady(pick: Pick) {
      match pick
      case Channel => |writeCh| < CAPACITY
      case LocalDone => localDone
      case RemoteDone => remoteDone
      case Canceled => canceled
      case _ => true
    }

    function Write(p: Bytes, pick: Pick): (Conn, Outcome)
      requires WriteReady(pick) && pick != DeadlineChanged
    {
      if p == [] then (this, Wrote(0))
      else match pick
        case Channel => (this.(writeCh := writeCh + [p], written := written + p), Wrote(|p|))
        case Timer => (this, Timeout)
        case RemoteDone => (this, StreamEnded)
        case _ => (this, Closed)
    }

    predicate PumpReady(pick: Pick) {
      && pumping && hand == []
      && match pick
         case Channel => writeCh != []
         case LocalDone => localDone
         case RemoteDone => remoteDone
         case Canceled => canceled
         case _ => false
    }

    /** `writePump` takes branch `pick`; an empty chunk goes round the loop. */
    function Take(pick: Pick): Conn
      requires PumpReady(pick)
    {
      if pick != Channel then this.(pumping := false)
      else this.(writeCh := writeCh[1..], hand := writeCh[0])
    }

    /** `writePump` sends the chunk in its hand; `err` is what `send` answers, None for success. */
    function Send(err: Option<nat>): Conn
      requires pumping && hand != []
    {
      if err.Some? then this.(pumping := false, hand := []).Finish(err.value)
      else this.(sent := sent + hand, hand := [])
    }

    /** `finishRemote`; only the first call has an effect. */
    function Finish(err: nat): Conn {
      if remoteDone then this
      else this.(remoteDone := true, remoteErr := err, canceled := true)
    }

    function Close(): Conn {
      this.(localDone := true, canceled := true)
    }
  }

  const FRESH: Conn := Conn([], [], [], false, false, 0, false, true, [], [], [], [], [])

  datatype Action =
    | DoRead(n: nat, pick: Pick)
    | DoEnqueue(p: Bytes, pick: Pick)
    | DoWrite(p: Bytes, pick: Pick)
    | DoTake(pick: Pick)
    | DoSend(answer: Option<nat>)
    | DoFinish(err: nat)
    | DoClose
    | DoCancel                    // the parent context ends

  predicate Enabled(c: Conn, a: Action) {
    match a
    case DoRead(_, pick) => c.ReadReady(pick) && pick != DeadlineChanged
    case DoEnqueue(_, pick) => c.EnqueueReady(pick)
    case DoWrite(_, pick) => c.WriteReady(pick) && pick != DeadlineChanged
    case DoTake(pick) => c.PumpReady(pick)
    case DoSend(_) => c.pumping && c.hand != []
    case _ => true
  }

  function Next(c: Conn, a: Action): Conn
    requires Enabled(c, a)
  {
    match a
    case DoRead(n, pick) => c.Read(n, pick).0
    case DoEnqueue(p, pick) => c.Enqueue(p, pick).0
    case DoWrite(p, pick) => c.Write(p, pick).0
    case DoTake(pick) => c.Take(pick)
    case DoSend(answer) => c.Send(answer)
    case DoFinish(err) => c.Finish(err)
    case DoClose => c.Close()
    case DoCancel => c.(canceled := true)
  }

  ghost predicate StepAt(run: seq<Conn>, i: int) {
    0 <= i < |run| - 1 ==> Steps(run[i], run[i + 1])
  }

  ghost predicate Steps(c: Conn, c': Conn) {
    exists a :: Enabled(c, a) && c' == Next(c, a)
  }

  ghost predicate IsRun(run: seq<Conn>) {
    run != [] && run[0] == FRESH && forall i :: StepAt(run, i)
  }

  // --- The invariant --------------------------------------------------------

  ghost predicate ReadInv(c: Conn) {
    && c.returned + c.pending + Flatten(c.readCh) == c.accepted
    && (forall i :: 0 <= i < |c.readCh| ==> c.readCh[i] != [])
    && |c.readCh| <= CAPACITY
    && (c.remoteDone ==> c.canceled)
  }

  ghost predicate WriteInv(c: Conn) {
    && c.sent <= c.written
    && (c.pumping ==> c.sent + c.hand + Flatten(c.writeCh) == c.written)
    && |c.writeCh| <= CAPACITY
  }

  /** Moving the first `k` bytes of `b` across a boundary. */
  lemma Shift(a: Bytes, b: Bytes, k: nat, rest: Bytes)
    requires k <= |b|
    ensures (a + b[..k]) + b[k..] + rest == a + b + rest
  {
    assert b == b[..k] + b[k..];
  }

  lemma ReadKeepsOrder(c: Conn, n: nat, pick: Pick)
    requires ReadInv(c) && c.ReadReady(pick) && pick != DeadlineChanged
    ensures ReadInv(c.Read(n, pick).0)
  {
    if n > 0 && c.pending != [] {
      Shift(c.returned, c.pending, if n < |c.pending| then n else |c.pending|, Flatten(c.readCh));
    } else if n > 0 && pick == Channel && c.readCh != [] {
      var b := c.readCh[0];
      Shift(c.returned, b, if n < |b| then n else |b|, Flatten(c.readCh[1..]));
      assert c.returned + c.pending + (b + Flatten(c.readCh[1..])) == c.returned + b + Flatten(c.readCh[1..]);
    }
  }

  lemma EnqueueKeepsOrder(c: Conn, p: Bytes, pick: Pick)
    requires ReadInv(c) && c.EnqueueReady(pick)
    ensures ReadInv(c.Enqueue(p, pick).0)
  {
    FlattenAppend(c.readCh, p);
    assert c.returned + c.pending + (Flatten(c.readCh) + p) == (c.returned + c.pending + Flatten(c.readCh)) + p;
  }

  lemma ReadInvStep(c: Conn, a: Action)
    requires ReadInv(c) && Enabled(c, a)
    ensures ReadInv(Next(c, a))
  {
    match a
    case DoRead(n, pick) => ReadKeepsOrder(c, n, pick);
    case DoEnqueue(p, pick) => EnqueueKeepsOrder(c, p, pick);
    case _ =>
  }

  lemma WriteKeepsOrder(c: Conn, p: Bytes, pick: Pick)
    requires WriteInv(c) && c.WriteReady(pick) && pick != DeadlineChanged
    ensures WriteInv(c.Write(p, pick).0)
  {
    FlattenAppend(c.writeCh, p);
    assert c.sent + c.hand + (Flatten(c.writeCh) + p) == (c.sent + c.hand + Flatten(c.writeCh)) + p;
  }

  lemma TakeKeepsOrder(c: Conn, pick: Pick)
    requires WriteInv(c) && c.PumpReady(pick)
    ensures WriteInv(c.Take(pick))
  {
    if pick == Channel {
      assert c.sent + c.hand + (c.writeCh[0] + Flatten(c.writeCh[1..])) == c.sent + c.writeCh[0] + Flatten(c.writeCh[1..]);
    }
  }

  lemma SendKeepsOrder(c: Conn, err: Option<nat>)
    requires WriteInv(c) && c.pumping && c.hand != []
    ensures WriteInv(c.Send(err))
  {
    if err.None? {
      assert c.written == (c.sent + c.hand) + Flatten(c.writeCh);
      assert (c.sent + c.hand) + [] + Flatten(c.writeCh) == (c.sent + c.hand) + Flatten(c.writeCh);
    }
  }

  lemma WriteInvStep(c: Conn, a: Action)
    requires WriteInv(c) && Enabled(c, a)
    ensures WriteInv(Next(c, a))
  {
    match a
    case DoWrite(p, pick) => WriteKeepsOrder(c, p, pick);
    case DoTake(pick) => TakeKeepsOrder(c, pick);
    case DoSend(answer) => SendKeepsOrder(c, answer);
    case _ =>
  }

  lemma {:induction false} RunInv(run: seq<Conn>, i: nat)
    requires IsRun(run) && i < |run|
    ensures ReadInv(run[i]) && WriteInv(run[i])
    decreases i
  {
    if i > 0 {
      RunInv(run, i - 1);
      assert StepAt(run, i - 1);
      var a :| Enabled(run[i - 1], a) && run[i] == Next(run[i - 1], a);
      ReadInvStep(run[i - 1], a);
      WriteInvStep(run[i - 1], a);
    }
  }

  // --- Main results ---------------------------------------------------------

  /** Read order: whatever the buffer sizes, nothing is lost, repeated or reordered. */
  lemma ReadOrder(run: seq<Conn>, i: nat)
    requires IsRun(run) && i < |run|
    ensures run[i].returned + run[i].pending + Flatten(run[i].readCh) == run[i].accepted
    ensures run[i].returned <= run[i].accepted
  {
    RunInv(run, i);
    assert run[i].accepted == run[i].returned + (run[i].pending + Flatten(run[i].readCh));
  }

  /** Write order: the bytes sent are a prefix of the bytes Write accepted; while the pump runs, the rest is in its hand or queued. */
  lemma WriteOrder(run: seq<Conn>, i: nat)
    requires IsRun(run) && i < |run|
    ensures run[i].sent <= run[i].written
    ensures run[i].pumping ==> run[i].sent + run[i].hand + Flatten(run[i].writeCh) == run[i].written
  {
    RunInv(run, i);
  }

  /** A read that returns data returns at least one byte and at most its buffer, the next ones in order. */
  lemma ReadProgress(run: seq<Conn>, i: nat, n: nat, pick: Pick)
    requires IsRun(run) && i < |run| && n > 0
    requires run[i].ReadReady(pick) && pick != DeadlineChanged
    ensures var (c', r) := run[i].Read(n, pick);
            && (r.Data? ==> 0 < |r.bytes| <= n && c'.returned == run[i].returned + r.bytes)
            && (!r.Data? ==> c' == run[i])
  {
    RunInv(run, i);
  }

  /**
   When a read reports the end of the remote stream, every byte ever accepted has
   been returned, and no byte will be accepted any more.
   */
  lemma EndMeansComplete(run: seq<Conn>, i: nat, j: nat, n: nat, pick: Pick)
    requires IsRun(run) && i <= j < |run| && n > 0
    requires run[i].ReadReady(pick) && pick != DeadlineChanged && run[i].Read(n, pick).1.Remote?
    ensures run[i].returned == run[i].accepted == run[j].accepted && run[j].returned == run[i].returned
  {
    ReadOrder(run, i);
    for k := i to j
      invariant run[k].remoteDone && run[k].accepted == run[i].accepted
    {
      assert StepAt(run, k);
    }
    assert run[i].readCh == [] && Flatten(run[i].readCh) == [];
    ReadOrder(run, j);
    ReturnedGrows(run, i, j);
  }

  lemma ReturnedGrows(run: seq<Conn>, i: nat, j: nat)
    requires IsRun(run) && i <= j < |run|
    ensures run[i].returned <= run[j].returned
  {
    for k := i to j
      invariant run[i].returned <= run[k].returned
    {
      assert StepAt(run, k);
    }
  }

  /** Some branch makes a read report a closed connection. */
  ghost predicate MayClose(c: Conn, n: nat) {
    exists pick :: c.ReadReady(pick) && pick != DeadlineChanged && c.Read(n, pick).1 == Closed
  }

  /**
   A read that reports a closed connection promises no such thing. It is possible
   exactly when nothing is pending and the connection was closed or canceled, which
   the remote end alone brings about; and it then leaves accepted bytes unread
   exactly when the channel still holds a chunk.
   */
  lemma ClosedReadIff(run: seq<Conn>, i: nat, n: nat)
    requires IsRun(run) && i < |run| && n > 0
    ensures var c := run[i];
            && (MayClose(c, n) <==> c.pending == [] && (c.localDone || c.canceled))
            && (c.remoteDone ==> c.canceled)
            && (MayClose(c, n) ==> (c.returned != c.accepted <==> c.readCh != []))
  {
    RunInv(run, i);
    var c := run[i];
    if c.pending == [] && c.localDone {
      assert c.ReadReady(LocalDone) && c.Read(n, LocalDone).1 == Closed;
    } else if c.pending == [] && c.canceled {
      assert c.ReadReady(Canceled) && c.Read(n, Canceled).1 == Closed;
    }
    assert c.readCh != [] ==> |Flatten(c.readCh)| >= |c.readCh[0]|;
  }

  /** The remote end alone does it: it sends `p` and ends, and the next read may report a closed connection. */
  lemma RemoteEndMayTruncate(p: Bytes, n: nat) returns (run: seq<Conn>)
    requires p != [] && n > 0
    ensures IsRun(run)
    ensures var c := run[|run| - 1];
            && c.remoteDone && !c.localDone && c.accepted == p && c.returned == []
            && c.ReadReady(Canceled) && c.Read(n, Canceled) == (c, Closed)
  {
    var sent := Next(FRESH, DoEnqueue(p, Channel));
    var ended := Next(sent, DoFinish(0));
    run := [FRESH, sent, ended];
    assert Steps(FRESH, sent) && Steps(sent, ended);
    forall i ensures StepAt(run, i) {
      assert 0 <= i < 2 ==> i == 0 || i == 1;
    }
  }

  // --- What the answers say -----------------------------------------------------

  /** A run together with the steps it took. */
  ghost predicate IsTrace(run: seq<Conn>, acts: seq<Action>) {
    |run| == |acts| + 1 && run[0] == FRESH && forall i :: TraceAt(run, acts, i)
  }

  ghost predicate TraceAt(run: seq<Conn>, acts: seq<Action>, i: int)
    requires |run| == |acts| + 1
  {
    0 <= i < |acts| ==> Enabled(run[i], acts[i]) && run[i + 1] == Next(run[i], acts[i])
  }

  /** The bytes that went each of the four ways. */
  datatype Flow = Flow(accepted: Bytes, returned: Bytes, written: Bytes, sent: Bytes)

  /** The bytes of one step: those of a write or an enqueue answered with their number, those answered by a read, and those sent without an error. */
  function Moved(c: Conn, a: Action): Flow
    requires Enabled(c, a)
  {
    match a
    case DoRead(n, pick) =>
      var r := c.Read(n, pick).1;
      Flow([], if r.Data? then r.bytes else [], [], [])
    case DoEnqueue(p, pick) => Flow(if c.Enqueue(p, pick).1 == Wrote(|p|) then p else [], [], [], [])
    case DoWrite(p, pick) => Flow([], [], if c.Write(p, pick).1 == Wrote(|p|) then p else [], [])
    case DoSend(answer) => Flow([], [], [], if answer.None? then c.hand else [])
    case _ => Flow([], [], [], [])
  }

  /** The bytes of the first `i` steps. */
  ghost function Flows(run: seq<Conn>, acts: seq<Action>, i: nat): Flow
    requires IsTrace(run, acts) && i <= |acts|
  {
    if i == 0 then Flow([], [], [], [])
    else
      assert TraceAt(run, acts, i - 1);
      var f, m := Flows(run, acts, i - 1), Moved(run[i - 1], acts[i - 1]);
      Flow(f.accepted + m.accepted, f.returned + m.returned, f.written + m.written, f.sent + m.sent)
  }

  ghost predicate Moves(c: Conn, c': Conn, m: Flow) {
    && c'.accepted == c.accepted + m.accepted && c'.returned == c.returned + m.returned
    && c'.written == c.written + m.written && c'.sent == c.sent + m.sent
  }

  lemma ReadMoves(c: Conn, n: nat, pick: Pick)
    requires Enabled(c, DoRead(n, pick))
    ensures Moves(c, Next(c, DoRead(n, pick)), Moved(c, DoRead(n, pick)))
  {
  }

  lemma WriteMoves(c: Conn, p: Bytes, pick: Pick)
    ensures Enabled(c, DoWrite(p, pick)) ==> Moves(c, Next(c, DoWrite(p, pick)), Moved(c, DoWrite(p, pick)))
    ensures Enabled(c, DoEnqueue(p, pick)) ==> Moves(c, Next(c, DoEnqueue(p, pick)), Moved(c, DoEnqueue(p, pick)))
  {
  }

  lemma NothingMoves(c: Conn, c': Conn)
    requires c'.accepted == c.accepted && c'.returned == c.returned && c'.written == c.written && c'.sent == c.sent
    ensures Moves(c, c', Flow([], [], [], []))
  {
  }

  lemma MovedNext(c: Conn, a: Action)
    requires Enabled(c, a)
    ensures Moves(c, Next(c, a), Moved(c, a))
  {
    match a
    case DoRead(n, pick) => ReadMoves(c, n, pick);
    case DoWrite(p, pick) => WriteMoves(c, p, pick);
    case DoEnqueue(p, pick) => WriteMoves(c, p, pick);
    case DoSend(_) =>
    case _ => NothingMoves(c, Next(c, a));
  }

  /**
   Over every run the histories are what the answers said: the bytes written are those
   of exactly the writes answered with their number, the bytes accepted likewise, the
   bytes returned are those that reads answered, and the bytes sent those that `send`
   took.
   */
  lemma {:induction false} HistoriesAreAnswers(run: seq<Conn>, acts: seq<Action>, i: nat)
    requires IsTrace(run, acts) && i <= |acts|
    ensures var c := run[i]; Flows(run, acts, i) == Flow(c.accepted, c.returned, c.written, c.sent)
  {
    if i > 0 {
      HistoriesAreAnswers(run, acts, i - 1);
      assert TraceAt(run, acts, i - 1);
      MovedNext(run[i - 1], acts[i - 1]);
    }
  }

  lemma TraceIsRun(run: seq<Conn>, acts: seq<Action>)
    requires IsTrace(run, acts)
    ensures IsRun(run)
  {
    forall i ensures StepAt(run, i) {
      assert TraceAt(run, acts, i);
    }
  }

  /**
   End to end, in terms of answers only: what reads answered is a prefix of what
   enqueues were told was taken, and what was sent a prefix of what writes were told
   was taken.
   */
  lemma AnswersInOrder(run: seq<Conn>, acts: seq<Action>, i: nat)
    requires IsTrace(run, acts) && i <= |acts|
    ensures var f := Flows(run, acts, i); f.returned <= f.accepted && f.sent <= f.written
  {
    HistoriesAreAnswers(run, acts, i);
    TraceIsRun(run, acts);
    ReadOrder(run, i);
    WriteOrder(run, i);
  }

  /** Only a closed or canceled connection, or its own timer, ends a read that has nothing to take. */
  lemma ReadBlocksIff(c: Conn)
    ensures (forall pick :: c.ReadReady(pick) ==> pick == Timer || pick == DeadlineChanged) <==>
            c.readCh == [] && !c.remoteDone && !c.localDone && !c.canceled
  {
    assert c.ReadReady(Channel) <==> c.readCh != [] || c.remoteDone;
    assert c.ReadReady(LocalDone) <==> c.localDone;
    assert c.ReadReady(Canceled) <==> c.canceled;
  }

  /** The channels hold 64 chunks, and only when they are full does an open connection make a sender wait. */
  lemma SendBlocksIff(c: Conn)
    requires |c.writeCh| <= 64 && |c.readCh| <= 64
    ensures (forall pick :: c.WriteReady(pick) ==> pick == Timer || pick == DeadlineChanged) <==>
            |c.writeCh| == 64 && !c.localDone && !c.remoteDone && !c.canceled
    ensures (forall pick :: !c.EnqueueReady(pick)) <==>
            |c.readCh| == 64 && !c.localDone && !c.remoteDone && !c.canceled
  {
    assert c.WriteReady(Channel) <==> |c.writeCh| < 64;
    assert c.WriteReady(LocalDone) <==> c.localDone;
    assert c.WriteReady(RemoteDone) <==> c.remoteDone;
    assert c.WriteReady(Canceled) <==> c.canceled;
    assert c.EnqueueReady(Channel) <==> |c.readCh| < 64;
    assert c.EnqueueReady(LocalDone) <==> c.localDone;
    assert c.EnqueueReady(RemoteDone) <==> c.remoteDone;
    assert c.EnqueueReady(Canceled) <==> c.canceled;
  }

  /** The pump waits exactly when there is nothing to take and the connection is open. */
  lemma PumpBlocksIff(c: Conn)
    requires c.pumping && c.hand == []
    ensures (forall pick :: !c.PumpReady(pick)) <==> c.writeCh == [] && !c.localDone && !c.remoteDone && !c.canceled
  {
    assert c.PumpReady(Channel) <==> c.writeCh != [];
    assert c.PumpReady(LocalDone) <==> c.localDone;
    assert c.PumpReady(RemoteDone) <==> c.remoteDone;
    assert c.PumpReady(Canceled) <==> c.canceled;
  }

  /** Once the remote end has finished and everything was returned, a read can report it, with the remote's own error. */
  lemma EndCanBeReported(c: Conn, n: nat)
    requires c.remoteDone && c.pending == [] && c.readCh == [] && n > 0
    ensures c.ReadReady(Channel) && c.Read(n, Channel) == (c, Remote(c.remoteErr))
  {
  }

  /** The first end of the remote stream is the one that is reported, and it cancels; a local close does not end it. */
  lemma EndIsFirst(c: Conn, err: nat, later: nat)
    requires !c.remoteDone
    ensures var ended := c.Finish(err);
            ended.remoteDone && ended.canceled && ended.remoteErr == err && ended.Finish(later) == ended
    ensures var closed := Next(c, DoClose); closed.localDone && closed.canceled && !closed.remoteDone
    ensures Next(c, DoFinish(err)).remoteDone && Next(c, DoCancel).canceled && !Next(c, DoCancel).remoteDone
  {
  }

  /** With something to return, a read answers data: always when bytes are pending, else when it takes a chunk. */
  lemma ReadAnswersData(c: Conn, n: nat, pick: Pick)
    requires c.ReadReady(pick) && pick != DeadlineChanged && n > 0
    ensures c.Read(n, pick).1.Data? <==> c.pending != [] || (pick == Channel && c.readCh != [])
  {
  }

  /** A write or an enqueue that takes the channel is answered with the number of its bytes, any other with an error. */
  lemma WriteAnswers(c: Conn, p: Bytes, pick: Pick)
    requires p != []
    ensures c.WriteReady(pick) && pick != DeadlineChanged ==>
              (c.Write(p, pick).1 == Wrote(|p|) <==> pick == Channel) && (c.Write(p, pick).0 == c <==> pick != Channel)
    ensures c.EnqueueReady(pick) ==>
              && (c.Enqueue(p, pick).1 == Wrote(|p|) <==> pick == Channel && !c.remoteDone)
              && (c.Enqueue(p, pick).0 == c <==> pick != Channel || c.remoteDone)
  {
  }

  // --- The connection in place ------------------------------------------------

  /** The outcomes of a select loop that ends at its last one. */
  ghost predicate Script(picks: seq<Pick>) {
    && picks != [] && picks[|picks| - 1] != DeadlineChanged
    && forall i :: 0 <= i < |picks| - 1 ==> picks[i] == DeadlineChanged
  }

  class StreamConn {
    var pending: Bytes
    var readCh: seq<Bytes>
    var writeCh: seq<Bytes>
    var localDone: bool
    var remoteDone: bool
    var remoteErr: nat
    var canceled: bool
    var pumping: bool
    var hand: Bytes
    ghost var accepted: Bytes
    ghost var returned: Bytes
    ghost var written: Bytes
    ghost var sent: Bytes

    ghost function View(): Conn
      reads this
    {
      Conn(pending, readCh, writeCh, localDone, remoteDone, remoteErr, canceled, pumping, hand,
           accepted, returned, written, sent)
    }

    constructor ()
      ensures View() == FRESH
    {
      pending, readCh, writeCh := [], [], [];
      localDone, remoteDone, remoteErr, canceled, pumping := false, false, 0, false, true;
      hand, accepted, returned, written, sent := [], [], [], [], [];
    }

    /** `picks` are the branches the select took; a deadline change goes round the loop. */
    method Read(n: nat, picks: seq<Pick>) returns (r: Outcome)
      requires Script(picks) && View().ReadReady(picks[|picks| - 1])
      modifies this
      ensures (View(), r) == old(View()).Read(n, picks[|picks| - 1])
      ensures var pick := picks[|picks| - 1];
              if n == 0 then r == Data([]) && unchanged(this)
              else if old(pending) != [] then
                && r.Data? && r.bytes + pending == old(pending)
                && |r.bytes| == (if n < |old(pending)| then n else |old(pending)|) && readCh == old(readCh)
              else if pick == Channel && old(readCh) != [] then
                && r.Data? && r.bytes + pending == old(readCh)[0]
                && |r.bytes| == (if n < |old(readCh)[0]| then n else |old(readCh)[0]|) && readCh == old(readCh)[1..]
              else
                && unchanged(this)
                && r == match pick
                        case Channel => Remote(remoteErr)
                        case Timer => Timeout
                        case _ => Closed
    {
      if n == 0 {
        return Data([]);
      }
      if |pending| > 0 {
        var k := if n < |pending| then n else |pending|;
        r := Data(pending[..k]);
        returned := returned + pending[..k];
        pending := pending[k..];
        return;
      }
      var i := 0;
      while picks[i] == DeadlineChanged
        invariant 0 <= i < |picks| && View() == old(View())
        decreases |picks| - i
      {
        i := i + 1;
      }
      match picks[i]
      case Channel =>
        if |readCh| == 0 {
          return Remote(remoteErr);
        }
        var b := readCh[0];
        readCh := readCh[1..];
        var k := if n < |b| then n else |b|;
        if k < |b| {
          pending := b[k..];
        } else {
          assert pending == b[k..];
        }
        returned := returned + b[..k];
        r := Data(b[..k]);
      case Timer => r := Timeout;
      case _ => r := Closed;
    }

    method Write(p: Bytes, picks: seq<Pick>) returns (r: Outcome)
      requires Script(picks) && View().WriteReady(picks[|picks| - 1])
      modifies this
      ensures (View(), r) == old(View()).Write(p, picks[|picks| - 1])
      ensures var pick := picks[|picks| - 1];
              if p == [] then r == Wrote(0) && unchanged(this)
              else if pick == Channel then
                r == Wrote(|p|) && writeCh == old(writeCh) + [p] && written == old(written) + p
              else unchanged(this) && r == if pick == Timer then Timeout else if pick == RemoteDone then StreamEnded else Closed
    {
      if |p| == 0 {
        return Wrote(0);
      }
      var i := 0;
      while picks[i] == DeadlineChanged
        invariant 0 <= i < |picks| && View() == old(View())
        decreases |picks| - i
      {
        i := i + 1;
      }
      match picks[i]
      case Channel =>
        writeCh := writeCh + [p];
        written := written + p;
        r := Wrote(|p|);
      case Timer => r := Timeout;
      case RemoteDone => r := StreamEnded;
      case _ => r := Closed;
    }

    method EnqueueRead(p: Bytes, pick: Pick) returns (r: Outcome)
      requires View().EnqueueReady(pick)
      modifies this
      ensures (View(), r) == old(View()).Enqueue(p, pick)
      ensures if p == [] then r == Wrote(0) && unchanged(this)
              else if pick == Channel && !old(remoteDone) then
                r == Wrote(|p|) && readCh == old(readCh) + [p] && accepted == old(accepted) + p
              else r == Closed && unchanged(this)
    {
      if |p| == 0 {
        return Wrote(0);
      }
      if remoteDone || pick != Channel {
        return Closed;
      }
      readCh := readCh + [p];
      accepted := accepted + p;
      r := Wrote(|p|);
    }

    method Close()
      modifies this
      ensures View() == old(View()).Close() && localDone && canceled
    {
      canceled := true;
      localDone := true;
    }

    method FinishRemote(err: nat)
      modifies this
      ensures View() == old(View()).Finish(err)
      ensures remoteDone && (if old(remoteDone) then unchanged(this) else remoteErr == err && canceled)
    {
      if !remoteDone {
        remoteErr, remoteDone, canceled := err, true, true;
      }
    }

    /** The select of `writePump`. */
    method PumpTake(pick: Pick)
      requires View().PumpReady(pick)
      modifies this
      ensures View() == old(View()).Take(pick)
      ensures if pick == Channel then pumping && [hand] + writeCh == old(writeCh)
              else !pumping && hand == [] && writeCh == old(writeCh)
    {
      if pick != Channel {
        pumping := false;
        return;
      }
      hand := writeCh[0];
      writeCh := writeCh[1..];
    }

    /** The send of `writePump`. */
    method PumpSend(err: Option<nat>)
      requires pumping && hand != []
      modifies this
      ensures View() == old(View()).Send(err)
      ensures hand == [] && pumping == err.None?
      ensures if err.None? then sent == old(sent) + old(hand) else sent == old(sent) && remoteDone
      ensures err.Some? && !old(remoteDone) ==> remoteErr == err.value
    {
      if err.Some? {
        pumping, hand := false, [];
        FinishRemote(err.value);
        return;
      }
      sent := sent + hand;
      hand := [];
    }

    /** One iteration of the loop in `writePump`, when nothing comes between. */
    method PumpOnce(pick: Pick, err: Option<nat>)
      requires View().PumpReady(pick)
      modifies this
      ensures var taken := old(View()).Take(pick);
              View() == if taken.pumping && taken.hand != [] then taken.Send(err) else taken
    {
      PumpTake(pick);
      if pumping && |hand| > 0 {
        PumpSend(err);
      }
    }
  }

  /** `limitedBuffer`: keeps the first `limit` bytes of everything written to it. */
  class LimitedBuffer {
    const limit: int
    var buf: Bytes
    ghost var all: Bytes

    /** The buffer is the longest prefix of all the bytes written that fits the limit. */
    ghost predicate Valid()
      reads this
    {
      buf <= all && |buf| == if limit <= 0 then 0 else if |all| < limit then |all| else limit
    }

    constructor (limit: int)
      ensures Valid() && this.limit == limit && all == []
    {
      this.limit, buf, all := limit, [], [];
    }

    method Write(p: Bytes) returns (n: nat)
      requires Valid()
      modifies this
      ensures Valid() && all == old(all) + p && n == |p|
    {
      n := |p|;
      all := all + p;
      if limit <= 0 {
        return;
      }
      var remaining := limit - |buf|;
      if remaining <= 0 {
        return;
      }
      assert buf == old(all);
      if |p| > remaining {
        buf := buf + p[..remaining];
      } else {
        buf := buf + p;
      }
    }
  }

}
