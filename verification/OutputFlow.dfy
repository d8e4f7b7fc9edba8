/**
 Credit-based flow control of a supervised process's output: two pump threads reserve credit for every chunk
 and send it; a control thread takes acknowledgements. The critical sections are methods of `OutputCredit`;
 the threads are a state machine over every interleaving of them.
 */
module OutputFlow {

  const MAX_OUTSTANDING_BYTES := 256 * 1024
  const MAX_OUTSTANDING_FRAMES := 1024
  const MAX_CHUNK := 16 * 1024
  const MAX_SEQUENCE := 9007199254740991

  // ---------------------------------------------------------------- the ledger

  datatype Credit = Credit(outstanding: map<int, int>, bytes: int, next: int, discarded: bool)

  const INITIAL_CREDIT := Credit(map[], 0, 1, false)

  /** The bytes reserved under the sequences below `n`. */
  function BytesBelow(outstanding: map<int, int>, n: nat): int {
    if n == 0 then 0 else BytesBelow(outstanding, n - 1) + if n - 1 in outstanding then outstanding[n - 1] else 0
  }

  ghost predicate ValidCredit(c: Credit) {
    && 1 <= c.next
    && (forall k :: k in c.outstanding ==> 1 <= k < c.next && 1 <= c.outstanding[k] <= MAX_CHUNK)
    && c.bytes == BytesBelow(c.outstanding, c.next)
    && 0 <= c.bytes <= MAX_OUTSTANDING_BYTES
    && |c.outstanding| <= MAX_OUTSTANDING_FRAMES
    && (c.discarded ==> c.outstanding == map[])
  }

  datatype Outcome = OutOfBound | Blocked | Refused | Exhausted | Reserved(sequence: int)

  function Discarded(c: Credit): Credit { c.(outstanding := map[], bytes := 0, discarded := true) }

  function ReserveOutcome(c: Credit, bytes: int, connected: bool): Outcome {
    if bytes < 1 || bytes > MAX_CHUNK then OutOfBound
    else if c.discarded || !connected then Refused
    else if c.bytes + bytes > MAX_OUTSTANDING_BYTES || |c.outstanding| >= MAX_OUTSTANDING_FRAMES then Blocked
    else if c.next > MAX_SEQUENCE then Exhausted
    else Reserved(c.next)
  }

  function AfterReserve(c: Credit, bytes: int, connected: bool): Credit {
    match ReserveOutcome(c, bytes, connected)
    case Refused => Discarded(c)
    case Reserved(sequence) => Credit(c.outstanding[sequence := bytes], c.bytes + bytes, c.next + 1, c.discarded)
    case _ => c
  }

  predicate Acknowledgeable(c: Credit, sequence: int, bytes: int) {
    !c.discarded && sequence >= 1 && bytes >= 1 && sequence in c.outstanding && c.outstanding[sequence] == bytes
  }

  function AfterAcknowledge(c: Credit, sequence: int): Credit
    requires sequence in c.outstanding
  {
    c.(outstanding := c.outstanding - {sequence}, bytes := c.bytes - c.outstanding[sequence])
  }

  predicate Settled(c: Credit) { c.discarded || c.bytes == 0 }

  lemma {:induction false} BytesBelowAgree(a: map<int, int>, b: map<int, int>, n: nat)
    requires forall k :: 0 <= k < n ==> (k in a <==> k in b) && (k in a ==> a[k] == b[k])
    ensures BytesBelow(a, n) == BytesBelow(b, n)
  {
    if n > 0 { BytesBelowAgree(a, b, n - 1); }
  }

  lemma {:induction false} BytesBelowRemove(m: map<int, int>, k: int, n: nat)
    requires k in m && 0 <= k < n
    ensures BytesBelow(m - {k}, n) == BytesBelow(m, n) - m[k]
  {
    if k == n - 1 { BytesBelowAgree(m, m - {k}, n - 1); } else { BytesBelowRemove(m, k, n - 1); }
  }

  lemma {:induction false} NothingBelow(m: map<int, int>, n: nat)
    requires forall k :: k in m ==> m[k] >= 1
    ensures BytesBelow(m, n) >= 0
    ensures BytesBelow(m, n) == 0 ==> forall k :: 0 <= k < n ==> k !in m
  {
    if n > 0 { NothingBelow(m, n - 1); }
  }

  lemma ReserveIsValid(c: Credit, bytes: int, connected: bool)
    requires ValidCredit(c)
    ensures ValidCredit(AfterReserve(c, bytes, connected))
  {
    match ReserveOutcome(c, bytes, connected)
    case Reserved(sequence) => GrantIsValid(c, bytes);
    case Refused => DiscardIsValid(c);
    case _ =>
  }

  lemma GrantIsValid(c: Credit, bytes: int)
    requires ValidCredit(c) && 1 <= bytes <= MAX_CHUNK && c.bytes + bytes <= MAX_OUTSTANDING_BYTES
    requires |c.outstanding| < MAX_OUTSTANDING_FRAMES && !c.discarded
    ensures ValidCredit(Credit(c.outstanding[c.next := bytes], c.bytes + bytes, c.next + 1, false))
  {
    BytesBelowAgree(c.outstanding[c.next := bytes], c.outstanding, c.next);
    assert c.next !in c.outstanding;
  }

  lemma DiscardIsValid(c: Credit)
    requires ValidCredit(c)
    ensures ValidCredit(Discarded(c))
  {
    EmptyHoldsNothing(c.next);
  }

  lemma {:induction false} EmptyHoldsNothing(n: nat)
    ensures BytesBelow(map[], n) == 0
  {
    if n > 0 { EmptyHoldsNothing(n - 1); }
  }

  lemma AcknowledgeIsValid(c: Credit, sequence: int)
    requires ValidCredit(c) && sequence in c.outstanding
    ensures ValidCredit(AfterAcknowledge(c, sequence))
  {
    var left := c.outstanding - {sequence};
    BytesBelowRemove(c.outstanding, sequence, c.next);
    NothingBelow(left, c.next);
    assert left.Keys == c.outstanding.Keys - {sequence};
    assert |left| == |left.Keys| == |c.outstanding.Keys| - 1;
  }

  /** The ledger is settled exactly when it was discarded or nothing is outstanding. */
  lemma SettledMeansEmpty(c: Credit)
    requires ValidCredit(c)
    ensures Settled(c) <==> c.discarded || c.outstanding == map[]
  {
    NothingBelow(c.outstanding, c.next);
    EmptyHoldsNothing(c.next);
    if c.bytes == 0 { assert forall k :: k !in c.outstanding; }
  }

  /** The fields of the ledger and its critical sections. */
  class OutputCredit {
    const operationId: string
    var outstanding: map<int, int>
    var outstandingBytes: int
    var nextSequence: int
    var discarded: bool

    ghost function State(): Credit
      reads this
    {
      Credit(outstanding, outstandingBytes, nextSequence, discarded)
    }

    constructor (expectedOperationId: string)
      ensures operationId == expectedOperationId && State() == INITIAL_CREDIT && ValidCredit(State())
    {
      operationId := expectedOperationId;
      outstanding, outstandingBytes, nextSequence, discarded := map[], 0, 1, false;
    }

    /** One pass through the waiting loop; `Blocked` waits for a pulse and tries again. */
    method TryReserve(bytes: int, connected: bool) returns (outcome: Outcome)
      requires ValidCredit(State())
      modifies this
      ensures outcome == ReserveOutcome(old(State()), bytes, connected)
      ensures State() == AfterReserve(old(State()), bytes, connected) && ValidCredit(State())
    {
      ReserveIsValid(State(), bytes, connected);
      if bytes < 1 || bytes > MAX_CHUNK { return OutOfBound; }
      if !discarded && connected
         && (outstandingBytes > MAX_OUTSTANDING_BYTES - bytes || |outstanding| >= MAX_OUTSTANDING_FRAMES)
      { return Blocked; }
      if discarded || !connected {
        DiscardLocked();
        return Refused;
      }
      if nextSequence > MAX_SEQUENCE { return Exhausted; }
      outcome := Reserved(nextSequence);
      outstanding := outstanding[nextSequence := bytes];
      nextSequence := nextSequence + 1;
      outstandingBytes := outstandingBytes + bytes;
    }

    /** False stands for the exception. */
    method Acknowledge(acknowledgedOperationId: string, sequence: int, bytes: int) returns (ok: bool)
      requires ValidCredit(State())
      modifies this
      ensures ok <==> acknowledgedOperationId == operationId && Acknowledgeable(old(State()), sequence, bytes)
      ensures State() == if ok then AfterAcknowledge(old(State()), sequence) else old(State())
      ensures ValidCredit(State())
    {
      if discarded { return false; }
      if acknowledgedOperationId != operationId || sequence < 1 || bytes < 1
         || sequence !in outstanding || outstanding[sequence] != bytes
      { return false; }
      AcknowledgeIsValid(State(), sequence);
      var expectedBytes := outstanding[sequence];
      outstanding := outstanding - {sequence};
      outstandingBytes := outstandingBytes - expectedBytes;
      return true;
    }

    method DiscardLocked()
      requires ValidCredit(State())
      modifies this
      ensures State() == Discarded(old(State())) && ValidCredit(State())
    {
      DiscardIsValid(State());
      discarded := true;
      outstanding := map[];
      outstandingBytes := 0;
    }
  }

  // ---------------------------------------------------------------- the threads

  type Chunk = seq<bv8>

  datatype Stream = StdOut | StdErr

  datatype Both<T> = Both(out: T, err: T) {
    function At(stream: Stream): T { if stream.StdOut? then out else err }

    function Put(stream: Stream, value: T): Both<T> { if stream.StdOut? then Both(value, err) else Both(out, value) }
  }

  /** Where a pump thread stands: reading its pipe, waiting for the send lock, holding it, or in the middle of a send. */
  datatype Pump = Reading | Waiting(chunk: Chunk) | Holding(chunk: Chunk) | Sending(chunk: Chunk) | Ended

  datatype Frame = Frame(stream: Stream, data: Chunk)

  /**
   `issued` is the frame of sequence k at k - 1; `sent` are the sequences in the order in which the writer wrote them;
   `pumped` are the chunks read from each pipe; `acked` the acknowledged sequences. These four are the history.
   */
  datatype System = System(
    credit: Credit, pump: Both<Pump>, connected: bool, queued: bool, failed: bool, terminated: bool,
    pumped: Both<seq<Chunk>>, issued: seq<Frame>, sent: seq<int>, acked: seq<int>)

  const START := System(INITIAL_CREDIT, Both(Reading, Reading), true, false, false, false, Both([], []), [], [], [])

  datatype Event =
    | Read(stream: Stream, chunk: Chunk)
    | ReachEnd(stream: Stream)
    | ReadFails(stream: Stream)
    | Lock(stream: Stream)
    | Reserve(stream: Stream)
    | Write
    | SendReturns(stream: Stream)
    | SendThrows(stream: Stream)
    | Acknowledge(ours: bool, sequence: int, bytes: int)
    | Terminate
    | Disconnect

  predicate Locks(p: Pump) { p.Holding? || p.Sending? }

  function Fail(s: System, stream: Stream): System {
    s.(credit := Discarded(s.credit), pump := s.pump.Put(stream, Ended), failed := true)
  }

  function Reserving(s: System, stream: Stream, chunk: Chunk): System {
    var credit := AfterReserve(s.credit, |chunk|, s.connected);
    match ReserveOutcome(s.credit, |chunk|, s.connected)
    case OutOfBound => Fail(s, stream)
    case Exhausted => Fail(s, stream)
    case Blocked => s
    case Refused => s.(credit := credit, pump := s.pump.Put(stream, Reading))
    case Reserved(sequence) =>
      s.(credit := credit, pump := s.pump.Put(stream, Sending(chunk)), queued := true, issued := s.issued + [Frame(stream, chunk)])
  }

  /** The state after an event; an event that cannot happen in a state changes nothing. */
  function Next(s: System, e: Event): System {
    match e
    case Read(stream, chunk) =>
      if s.pump.At(stream).Reading? && 1 <= |chunk| <= MAX_CHUNK
      then s.(pump := s.pump.Put(stream, Waiting(chunk)), pumped := s.pumped.Put(stream, s.pumped.At(stream) + [chunk])) else s
    case ReachEnd(stream) => if s.pump.At(stream).Reading? then s.(pump := s.pump.Put(stream, Ended)) else s
    case ReadFails(stream) => if s.pump.At(stream).Reading? then Fail(s, stream) else s
    case Lock(stream) =>
      if s.pump.At(stream).Waiting? && !Locks(s.pump.out) && !Locks(s.pump.err)
      then s.(pump := s.pump.Put(stream, Holding(s.pump.At(stream).chunk))) else s
    case Reserve(stream) =>
      if s.pump.At(stream).Holding? then Reserving(s, stream, s.pump.At(stream).chunk) else s
    case Write =>
      if s.queued then s.(queued := false, sent := s.sent + [|s.issued|]) else s
    case SendReturns(stream) =>
      if s.pump.At(stream).Sending? then
        if !s.connected then s.(credit := Discarded(s.credit), pump := s.pump.Put(stream, Reading))
        else if !s.queued then s.(pump := s.pump.Put(stream, Reading)) else s
      else s
    case SendThrows(stream) => if s.pump.At(stream).Sending? then Fail(s, stream) else s
    case Acknowledge(ours, sequence, bytes) =>
      if ours && Acknowledgeable(s.credit, sequence, bytes)
      then s.(credit := AfterAcknowledge(s.credit, sequence), acked := s.acked + [sequence]) else s.(failed := true)
    case Terminate => s.(credit := Discarded(s.credit), terminated := true)
    case Disconnect => s.(connected := false)
  }

  function Run(s: System, events: seq<Event>): System
    decreases |events|
  {
    if events == [] then s else Run(Next(s, events[0]), events[1..])
  }

  // ---------------------------------------------------------------- invariants

  /** The chunks issued for one stream, in order. */
  function IssuedOn(issued: seq<Frame>, stream: Stream): seq<Chunk> {
    if issued == [] then []
    else
      var last := issued[|issued| - 1];
      IssuedOn(issued[..|issued| - 1], stream) + if last.stream == stream then [last.data] else []
  }

  /** The chunk that a pump has read but not yet reserved credit for. */
  function Pending(p: Pump): seq<Chunk> { if p.Waiting? || p.Holding? then [p.chunk] else [] }

  /** At most one pump is inside the send lock, and a frame is queued only for it or after a failed send. */
  ghost predicate Exclusive(s: System) {
    && !(Locks(s.pump.out) && Locks(s.pump.err))
    && (s.queued ==> s.pump.out.Sending? || s.pump.err.Sending? || s.credit.discarded)
  }

  /** Sequences are fresh, and leave in order: all that were issued, except one that is still queued. */
  ghost predicate InOrder(s: System) {
    && (forall k :: 0 <= k < |s.sent| ==> s.sent[k] == k + 1)
    && |s.issued| == |s.sent| + (if s.queued then 1 else 0)
    && s.credit.next == |s.issued| + 1
  }

  /** While nothing is discarded, every chunk read from a pipe was issued in order, or is pending. */
  ghost predicate Faithful(s: System) {
    !s.credit.discarded ==>
      && FaithfulOn(s.pumped.out, s.issued, StdOut, s.pump.out)
      && FaithfulOn(s.pumped.err, s.issued, StdErr, s.pump.err)
  }

  ghost predicate FaithfulOn(pumped: seq<Chunk>, issued: seq<Frame>, stream: Stream, pump: Pump) {
    pumped == IssuedOn(issued, stream) + Pending(pump)
  }

  /** While nothing is discarded, each issued sequence is either outstanding, with its size, or acknowledged, once. */
  ghost predicate Accounted(s: System) {
    && (forall i, j :: 0 <= i < j < |s.acked| ==> s.acked[i] != s.acked[j])
    && (forall k :: k in s.acked ==> 1 <= k <= |s.issued| && k !in s.credit.outstanding)
    && (forall k :: k in s.credit.outstanding ==> 1 <= k <= |s.issued| && s.credit.outstanding[k] == |s.issued[k - 1].data|)
    && (!s.credit.discarded ==> forall k :: 1 <= k <= |s.issued| ==> k in s.acked || k in s.credit.outstanding)
  }

  /** Credit is discarded only for a cause. */
  ghost predicate DiscardedForCause(s: System) { s.credit.discarded ==> !s.connected || s.failed || s.terminated }

  predicate Fits(p: Pump) { p.Waiting? || p.Holding? ==> 1 <= |p.chunk| <= MAX_CHUNK }

  ghost predicate ChunksFit(s: System) { Fits(s.pump.out) && Fits(s.pump.err) }

  ghost predicate Invariant(s: System) {
    ValidCredit(s.credit) && Exclusive(s) && InOrder(s) && Faithful(s) && Accounted(s) && DiscardedForCause(s) && ChunksFit(s)
  }

  lemma StartIsInvariant()
    ensures Invariant(START)
  {
  }

  lemma IssueOne(issued: seq<Frame>, frame: Frame, stream: Stream)
    ensures IssuedOn(issued + [frame], stream) == IssuedOn(issued, stream) + if frame.stream == stream then [frame.data] else []
  {
    assert (issued + [frame])[..|issued|] == issued;
  }

  lemma FailKeeps(s: System, stream: Stream)
    requires Invariant(s)
    ensures Invariant(Fail(s, stream))
  {
    DiscardIsValid(s.credit);
  }

  lemma GrantKeeps(s: System, stream: Stream, chunk: Chunk)
    requires Invariant(s) && s.pump.At(stream) == Holding(chunk) && ReserveOutcome(s.credit, |chunk|, s.connected).Reserved?
    ensures Invariant(Reserving(s, stream, chunk))
  {
    ReserveIsValid(s.credit, |chunk|, s.connected);
    GrantIsFaithful(s, stream, chunk);
    GrantIsAccounted(s, stream, chunk);
    GrantIsOrdered(s, stream, chunk);
  }

  lemma GrantIsOrdered(s: System, stream: Stream, chunk: Chunk)
    requires Exclusive(s) && InOrder(s) && ChunksFit(s)
    requires s.pump.At(stream) == Holding(chunk) && ReserveOutcome(s.credit, |chunk|, s.connected).Reserved?
    ensures Exclusive(Reserving(s, stream, chunk)) && InOrder(Reserving(s, stream, chunk)) && ChunksFit(Reserving(s, stream, chunk))
  {
  }

  /** The chunk that was pending is now issued. */
  lemma OwnStreamMovesOn(pumped: seq<Chunk>, issued: seq<Frame>, stream: Stream, chunk: Chunk)
    requires FaithfulOn(pumped, issued, stream, Holding(chunk))
    ensures FaithfulOn(pumped, issued + [Frame(stream, chunk)], stream, Sending(chunk))
  {
    var frame := Frame(stream, chunk);
    IssueOne(issued, frame, stream);
    assert IssuedOn(issued + [frame], stream) + Pending(Sending(chunk)) == IssuedOn(issued, stream) + [chunk];
  }

  lemma OtherStreamStays(pumped: seq<Chunk>, issued: seq<Frame>, stream: Stream, pump: Pump, frame: Frame)
    requires FaithfulOn(pumped, issued, stream, pump) && frame.stream != stream
    ensures FaithfulOn(pumped, issued + [frame], stream, pump)
  {
    IssueOne(issued, frame, stream);
    assert IssuedOn(issued, stream) + [] == IssuedOn(issued, stream);
  }

  lemma GrantIsFaithful(s: System, stream: Stream, chunk: Chunk)
    requires Faithful(s) && s.pump.At(stream) == Holding(chunk) && ReserveOutcome(s.credit, |chunk|, s.connected).Reserved?
    ensures Faithful(Reserving(s, stream, chunk))
  {
    var frame := Frame(stream, chunk);
    match stream
    case StdOut =>
      OwnStreamMovesOn(s.pumped.out, s.issued, StdOut, chunk);
      OtherStreamStays(s.pumped.err, s.issued, StdErr, s.pump.err, frame);
    case StdErr =>
      OwnStreamMovesOn(s.pumped.err, s.issued, StdErr, chunk);
      OtherStreamStays(s.pumped.out, s.issued, StdOut, s.pump.out, frame);
  }

  lemma GrantIsAccounted(s: System, stream: Stream, chunk: Chunk)
    requires Invariant(s) && ReserveOutcome(s.credit, |chunk|, s.connected).Reserved?
    ensures Accounted(Reserving(s, stream, chunk))
  {
  }

  lemma ReservingKeeps(s: System, stream: Stream)
    requires Invariant(s) && s.pump.At(stream).Holding?
    ensures Invariant(Reserving(s, stream, s.pump.At(stream).chunk))
  {
    var chunk := s.pump.At(stream).chunk;
    match ReserveOutcome(s.credit, |chunk|, s.connected)
    case OutOfBound => FailKeeps(s, stream);
    case Exhausted => FailKeeps(s, stream);
    case Blocked =>
    case Refused => ReadyAgainKeeps(s, stream);
    case Reserved(_) => GrantKeeps(s, stream, chunk);
  }

  /** A send that finds the credit discarded or the writer gone gives up its chunk. */
  lemma ReadyAgainKeeps(s: System, stream: Stream)
    requires Invariant(s) && (s.credit.discarded || !s.connected)
    ensures Invariant(s.(credit := Discarded(s.credit), pump := s.pump.Put(stream, Reading)))
  {
    DiscardIsValid(s.credit);
  }

  lemma AcknowledgeKeeps(s: System, sequence: int, bytes: int)
    requires Invariant(s) && Acknowledgeable(s.credit, sequence, bytes)
    ensures Invariant(Next(s, Acknowledge(true, sequence, bytes)))
  {
    AcknowledgeIsValid(s.credit, sequence);
    var next := Next(s, Acknowledge(true, sequence, bytes));
    assert forall k :: k in next.acked <==> k in s.acked || k == sequence;
  }

  /** Where nothing is issued, sent, acknowledged or credited, the accounts stay right. */
  lemma SameBooks(s: System, next: System)
    requires InOrder(s) && Accounted(s) && ValidCredit(s.credit)
    requires next.credit == s.credit && next.issued == s.issued && next.sent == s.sent && next.acked == s.acked && next.queued == s.queued
    ensures InOrder(next) && Accounted(next) && ValidCredit(next.credit)
  {
  }

  lemma ReadOn(pumped: seq<Chunk>, issued: seq<Frame>, stream: Stream, chunk: Chunk)
    requires FaithfulOn(pumped, issued, stream, Reading)
    ensures FaithfulOn(pumped + [chunk], issued, stream, Waiting(chunk))
  {
    assert IssuedOn(issued, stream) + [] == IssuedOn(issued, stream);
  }

  lemma ReadKeeps(s: System, stream: Stream, chunk: Chunk)
    requires Invariant(s)
    ensures Invariant(Next(s, Read(stream, chunk)))
  {
    SameBooks(s, Next(s, Read(stream, chunk)));
    ReadIsFaithful(s, stream, chunk);
    ReadIsExclusive(s, stream, chunk);
  }

  lemma ReadIsFaithful(s: System, stream: Stream, chunk: Chunk)
    requires Faithful(s)
    ensures Faithful(Next(s, Read(stream, chunk)))
  {
    if s.pump.At(stream).Reading? && !s.credit.discarded { ReadOn(s.pumped.At(stream), s.issued, stream, chunk); }
  }

  lemma ReadIsExclusive(s: System, stream: Stream, chunk: Chunk)
    requires Exclusive(s) && DiscardedForCause(s) && ChunksFit(s)
    ensures Exclusive(Next(s, Read(stream, chunk))) && DiscardedForCause(Next(s, Read(stream, chunk))) && ChunksFit(Next(s, Read(stream, chunk)))
  {
  }

  lemma LockKeeps(s: System, stream: Stream)
    requires Invariant(s)
    ensures Invariant(Next(s, Lock(stream)))
  {
    SameBooks(s, Next(s, Lock(stream)));
  }

  lemma WriteKeeps(s: System)
    requires Invariant(s)
    ensures Invariant(Next(s, Write))
  {
  }

  lemma SendReturnsKeeps(s: System, stream: Stream)
    requires Invariant(s)
    ensures Invariant(Next(s, SendReturns(stream)))
  {
    if !s.connected { ReadyAgainKeeps(s, stream); }
  }

  lemma ReachEndKeeps(s: System, stream: Stream)
    requires Invariant(s)
    ensures Invariant(Next(s, ReachEnd(stream)))
  {
    SameBooks(s, Next(s, ReachEnd(stream)));
  }

  lemma TerminateKeeps(s: System)
    requires Invariant(s)
    ensures Invariant(Next(s, Terminate))
  {
    DiscardIsValid(s.credit);
  }

  lemma DisconnectKeeps(s: System)
    requires Invariant(s)
    ensures Invariant(Next(s, Disconnect))
  {
  }

  /** The events of one pump thread, and of the send that it is in. */
  predicate ByPump(e: Event) { e.Read? || e.ReachEnd? || e.ReadFails? || e.Lock? || e.Reserve? }

  predicate BySend(e: Event) { e.Write? || e.SendReturns? || e.SendThrows? }

  lemma PumpKeeps(s: System, e: Event)
    requires Invariant(s) && ByPump(e)
    ensures Invariant(Next(s, e))
  {
    match e
    case Read(stream, chunk) => ReadKeeps(s, stream, chunk);
    case ReachEnd(stream) => ReachEndKeeps(s, stream);
    case ReadFails(stream) => FailKeeps(s, stream);
    case Lock(stream) => LockKeeps(s, stream);
    case Reserve(stream) => if s.pump.At(stream).Holding? { ReservingKeeps(s, stream); }
  }

  lemma SendKeeps(s: System, e: Event)
    requires Invariant(s) && BySend(e)
    ensures Invariant(Next(s, e))
  {
    match e
    case Write => WriteKeeps(s);
    case SendReturns(stream) => SendReturnsKeeps(s, stream);
    case SendThrows(stream) => FailKeeps(s, stream);
  }

  lemma ControlKeeps(s: System, e: Event)
    requires Invariant(s) && !ByPump(e) && !BySend(e)
    ensures Invariant(Next(s, e))
  {
    match e
    case Acknowledge(ours, sequence, bytes) =>
      if ours && Acknowledgeable(s.credit, sequence, bytes) { AcknowledgeKeeps(s, sequence, bytes); } else { RejectKeeps(s, e); }
    case Terminate => TerminateKeeps(s);
    case Disconnect => DisconnectKeeps(s);
  }

  lemma RejectKeeps(s: System, e: Event)
    requires Invariant(s) && e.Acknowledge? && !(e.ours && Acknowledgeable(s.credit, e.sequence, e.bytes))
    ensures Invariant(Next(s, e))
  {
  }

  /** Every step of a thread keeps the invariants. */
  lemma NextKeeps(s: System, e: Event)
    requires Invariant(s)
    ensures Invariant(Next(s, e))
  {
    if ByPump(e) { PumpKeeps(s, e); } else if BySend(e) { SendKeeps(s, e); } else { ControlKeeps(s, e); }
  }

  /** The invariants hold after every interleaving. */
  lemma {:induction false} AlwaysInvariant(s: System, events: seq<Event>)
    requires Invariant(s)
    ensures Invariant(Run(s, events))
    decreases |events|
  {
    if events != [] {
      NextKeeps(s, events[0]);
      AlwaysInvariant(Next(s, events[0]), events[1..]);
    }
  }

  // ---------------------------------------------------------------- what a settled end means

  predicate PipesEnded(s: System) { s.pump.out.Ended? && s.pump.err.Ended? }

  /** Both pipes ended and no credit is outstanding, though a pipe may have failed. */
  predicate SettledEnd(s: System) { PipesEnded(s) && Settled(s.credit) }

  predicate OutputEnded(s: System) { SettledEnd(s) && !s.failed }

  /** Every chunk read from either pipe was sent, in order, and acknowledged exactly once. */
  ghost predicate Complete(s: System) {
    && s.pumped.out == IssuedOn(s.issued, StdOut) && s.pumped.err == IssuedOn(s.issued, StdErr)
    && s.sent == seq(|s.issued|, i => i + 1)
    && (forall k :: 1 <= k <= |s.issued| <==> k in s.acked)
    && (forall i, j :: 0 <= i < j < |s.acked| ==> s.acked[i] != s.acked[j])
  }

  lemma EndedIsComplete(s: System)
    requires Invariant(s) && OutputEnded(s) && s.connected && !s.terminated
    ensures Complete(s)
  {
    SettledMeansEmpty(s.credit);
  }

  /**
   Once both pipes ended and the credit is settled, with the writer connected and nothing terminated, every chunk read
   from either pipe was sent in order and acknowledged exactly once.
   */
  lemma NaturalEndIsComplete(events: seq<Event>)
    requires var s := Run(START, events); OutputEnded(s) && s.connected && !s.terminated
    ensures Complete(Run(START, events))
  {
    StartIsInvariant();
    AlwaysInvariant(START, events);
    EndedIsComplete(Run(START, events));
  }

  /** What the pump and writer threads can do on their own. */
  predicate InBackground(e: Event) { !e.Acknowledge? && !e.Terminate? }

  /** An ended pipe neither fails nor moves any more, and what is settled then stays settled. */
  lemma BackgroundKeeps(s: System, e: Event)
    requires InBackground(e)
    ensures Next(s, e).terminated == s.terminated
    ensures PipesEnded(s) ==> PipesEnded(Next(s, e)) && Next(s, e).failed == s.failed
    ensures SettledEnd(s) ==> SettledEnd(Next(s, e))
    ensures Next(s, e).connected ==> s.connected
  {
  }

  // ---------------------------------------------------------------- conservation of bytes

  function IssuedBytes(issued: seq<Frame>): int {
    if issued == [] then 0 else IssuedBytes(issued[..|issued| - 1]) + |issued[|issued| - 1].data|
  }

  /** The bytes of the issued frames whose sequence number is acknowledged. */
  function AckedBytes(issued: seq<Frame>, acked: set<int>): int {
    if issued == [] then 0
    else AckedBytes(issued[..|issued| - 1], acked) + if |issued| in acked then |issued[|issued| - 1].data| else 0
  }

  function AckedSet(s: System): set<int> { set k | k in s.acked }

  lemma {:induction false} BytesSplit(issued: seq<Frame>, acked: set<int>, outstanding: map<int, int>)
    requires forall k :: 1 <= k <= |issued| ==> (k in acked <==> k !in outstanding)
    requires forall k :: 1 <= k <= |issued| && k in outstanding ==> outstanding[k] == |issued[k - 1].data|
    requires 0 !in outstanding
    ensures IssuedBytes(issued) == AckedBytes(issued, acked) + BytesBelow(outstanding, |issued| + 1)
  {
    if issued == [] {
      assert BytesBelow(outstanding, 0) == 0;
    } else {
      BytesSplit(issued[..|issued| - 1], acked, outstanding);
    }
  }

  /** Until anything is discarded, reserved bytes are acknowledged or outstanding, and never more than the limit is outstanding. */
  lemma BytesAreConserved(events: seq<Event>)
    ensures var s := Run(START, events);
      && 0 <= s.credit.bytes <= MAX_OUTSTANDING_BYTES && |s.credit.outstanding| <= MAX_OUTSTANDING_FRAMES
      && (!s.credit.discarded ==> IssuedBytes(s.issued) == AckedBytes(s.issued, AckedSet(s)) + s.credit.bytes)
  {
    StartIsInvariant();
    AlwaysInvariant(START, events);
    var s := Run(START, events);
    if !s.credit.discarded { BytesSplit(s.issued, AckedSet(s), s.credit.outstanding); }
  }
}
