/**
 * The reconciliation bridge between the queue store and the hardware number display.
 *
 * The bridge keeps a session cache of the values it last sent (current number, next
 * number, waiting count). On each store change it sends only the commands whose field
 * differs from the cache, in the order CALL, TAKE, QUEUE. A configuration update to
 * (0, 1) is a reset and sends RESET instead. A `REQ` line from the peer is answered
 * with a full STATE line, and a `Nguoi tiep theo:<n>` line inserts ticket n and moves
 * the next number to n + 1.
 *
 * The serial port is reduced to its readiness flag and the log of lines written to it;
 * a send while the port is not ready is dropped, and the cache is updated anyway.
 */
module Bridge {
  import opened Wrappers
  import opened Text
  import opened QueueStore
  import opened QueueService
  import opened Protocol

  /** The values the bridge believes the peer shows: last current, last next, last waiting count. */
  datatype Cache = Cache(current: int, next: int, waiting: int)

  /** The cache a fresh bridge starts with, and the one a reset leaves. */
  const InitialCache: Cache := Cache(0, 1, 0)

  /** What a peer that received every command for a cache shows: TAKE carries next - 1. */
  function View(c: Cache): Display {
    Display(c.current, c.next - 1, c.waiting)
  }

  /**
   * The configuration update that the web's reset produces: exactly the numbers of
   * the cache a freshly started bridge holds, with nobody waiting.
   */
  predicate IsResetSignature(current: int, next: int)
    ensures IsResetSignature(current, next) <==> Cache(current, next, 0) == InitialCache
  {
    current == 0 && next == 1
  }

  // ---- the diff --------------------------------------------------------------

  /** The commands a sync to (current, next, waiting) sends from a cache, in order. */
  function Diff(cache: Cache, current: int, next: int, waiting: int): (cmds: seq<Command>)
    ensures |cmds| <= 3
  {
    (if current != cache.current then [Call(current)] else [])
    + (if next != cache.next then [Take(next - 1)] else [])
    + (if waiting != cache.waiting then [Queue(waiting)] else [])
  }

  /** The lines that reach the port for a series of commands: none when the port is not ready. */
  function Transmit(ready: bool, cmds: seq<Command>): seq<string> {
    if ready then RenderAll(cmds) else []
  }

  /** The position of a command kind in the order a sync sends them. */
  function Rank(cmd: Command): nat {
    match cmd
    case Call(_) => 0
    case Take(_) => 1
    case Queue(_) => 2
    case _ => 3
  }

  /**
   * Minimality: a CALL, TAKE or QUEUE is sent exactly when its field differs from the
   * cache, and it carries the new value (TAKE carries next - 1); nothing else is sent.
   */
  lemma DiffMinimal(cache: Cache, current: int, next: int, waiting: int)
    ensures Call(current) in Diff(cache, current, next, waiting) <==> current != cache.current
    ensures Take(next - 1) in Diff(cache, current, next, waiting) <==> next != cache.next
    ensures Queue(waiting) in Diff(cache, current, next, waiting) <==> waiting != cache.waiting
    ensures forall cmd | cmd in Diff(cache, current, next, waiting) ::
              cmd == Call(current) || cmd == Take(next - 1) || cmd == Queue(waiting)
  {
  }

  /** The commands of a sync are sent in the order CALL, TAKE, QUEUE, each at most once. */
  lemma DiffOrdered(cache: Cache, current: int, next: int, waiting: int)
    ensures forall i, j :: 0 <= i < j < |Diff(cache, current, next, waiting)| ==>
              Rank(Diff(cache, current, next, waiting)[i]) < Rank(Diff(cache, current, next, waiting)[j])
  {
  }

  /**
   * The display after a sync's commands: each field that differed from the cache takes
   * its new value, and every other field keeps what the display showed.
   */
  lemma {:induction false} DiffApplied(d: Display, cache: Cache, current: int, next: int, waiting: int)
    ensures ApplyAll(d, Diff(cache, current, next, waiting)) == Display(
              if current != cache.current then current else d.current,
              if next != cache.next then next - 1 else d.total,
              if waiting != cache.waiting then waiting else d.waiting)
  {
    var a := if current != cache.current then [Call(current)] else [];
    var b := if next != cache.next then [Take(next - 1)] else [];
    var c := if waiting != cache.waiting then [Queue(waiting)] else [];
    ApplyAllConcat(d, a + b, c);
    ApplyAllConcat(d, a, b);
  }

  /**
   * Convergence: when the display shows the cache, the lines of a sync bring it to the
   * new state, as the peer reads them.
   */
  lemma SyncConverges(d: Display, cache: Cache, current: int, next: int, waiting: int)
    requires d == View(cache)
    ensures ApplyAll(d, PeerRead(Transmit(true, Diff(cache, current, next, waiting))))
         == View(Cache(current, next, waiting))
  {
    PeerReadsRendered(Diff(cache, current, next, waiting));
    DiffApplied(d, cache, current, next, waiting);
  }

  /** A second sync to the same values sends nothing. */
  lemma SyncIdempotent(current: int, next: int, waiting: int)
    ensures Diff(Cache(current, next, waiting), current, next, waiting) == []
  {
  }

  /** The full-state command for a cache, and what it does to any display. */
  function StateOf(cache: Cache): (cmd: Command)
    ensures forall d :: Apply(d, cmd) == View(cache)
  {
    State(cache.current, cache.next - 1, cache.waiting)
  }

  /** RESET brings any display to the view of the initial cache. */
  lemma ResetConverges(d: Display)
    ensures ApplyAll(d, PeerRead(Transmit(true, [Reset]))) == View(InitialCache)
  {
    PeerReadsRendered([Reset]);
  }

  /** A resync brings any display, however stale, to the view of the new cache. */
  lemma ResyncConverges(d: Display, cache: Cache)
    ensures ApplyAll(d, PeerRead(Transmit(true, [StateOf(cache)]))) == View(cache)
  {
    PeerReadsRendered([StateOf(cache)]);
  }

  // ---- a ticket issued by the peer --------------------------------------------

  /**
   * createTicketFromArduino on the store: insert a waiting ticket n; if the store refuses
   * it, stop; otherwise set next number to n + 1, whatever it was.
   */
  function PeerTicketEffect(s: Snapshot, n: int): (r: Snapshot)
    ensures HasLiveTicket(s.tickets, n) ==> r == s
    ensures !HasLiveTicket(s.tickets, n) ==> r.tickets == s.tickets + [Ticket(n, Waiting)]
    ensures !HasLiveTicket(s.tickets, n) ==> r.config == if s.config.Some? then Some(s.config.value.(nextNumber := n + 1)) else None
  {
    var inserted := InsertTicket(s, n);
    if inserted.1 then SetNextNumber(inserted.0, n + 1) else inserted.0
  }

  /** An accepted peer ticket is listed as waiting, the queue grows by one, and numbering resumes after it. */
  lemma PeerTicketQueued(s: Snapshot, n: int)
    requires s.config.Some? && !HasLiveTicket(s.tickets, n)
    ensures n in GetQueueStatus(PeerTicketEffect(s, n)).waiting
    ensures GetQueueStatus(PeerTicketEffect(s, n)).totalQueue == GetQueueStatus(s).totalQueue + 1
    ensures PeerTicketEffect(s, n).config.value.nextNumber == n + 1
    ensures PeerTicketEffect(s, n).config.value.currentNumber == s.config.value.currentNumber
  {
    var r := PeerTicketEffect(s, n);
    CountAfterAppend(s.tickets, Ticket(n, Waiting), Waiting);
    StatusListsWaitingTickets(r, n);
    assert r.tickets[|s.tickets|] == Ticket(n, Waiting);
  }

  // ---- the bridge ------------------------------------------------------------

  class ArduinoBridge {
    /** The queue store the bridge reads and writes. */
    const store: Store
    /** Set when the port opens, cleared on a port error or close. */
    var isReady: bool
    var lastCurrentNumber: int
    var lastNextNumber: int
    var lastWaitingCount: int
    /** Every line written to the port, oldest first. */
    var output: seq<string>

    constructor (store: Store)
      ensures this.store == store && !isReady
      ensures LastSent() == InitialCache && output == []
    {
      this.store := store;
      isReady := false;
      lastCurrentNumber, lastNextNumber, lastWaitingCount := 0, 1, 0;
      output := [];
    }

    function LastSent(): Cache
      reads this
    {
      Cache(lastCurrentNumber, lastNextNumber, lastWaitingCount)
    }

    /** getWaitingCount as a value: the number of waiting tickets (GetQueueStatus reports the same count as totalQueue). */
    function WaitingCount(): nat
      reads store
    {
      CountStatus(store.tickets, Waiting)
    }

    /**
     * The outcome of a sync to (current, next) from the given cache and output: a CALL,
     * a TAKE and a QUEUE line for each field that differs from the cache, in that order,
     * written only while the port is ready (these are the lines of Diff, by TransmitDiff);
     * and the cache set to the new values whether or not they were written.
     */
    predicate SyncedFrom(before: Cache, sent: seq<string>, current: int, next: int)
      reads this, store
    {
      && output == sent
           + LineIf(isReady, current != before.current, Call(current))
           + LineIf(isReady, next != before.next, Take(next - 1))
           + LineIf(isReady, WaitingCount() != before.waiting, Queue(WaitingCount()))
      && LastSent() == Cache(current, next, WaitingCount())
    }

    /** The outcome of a full-state send from the given cache and output. */
    predicate ResyncedFrom(before: Cache, sent: seq<string>)
      reads this, store
    {
      match store.config
      case None => output == sent && LastSent() == before
      case Some(c) =>
        var cache := Cache(c.currentNumber, c.nextNumber, WaitingCount());
        output == sent + Transmit(isReady, [StateOf(cache)]) && LastSent() == cache
    }

    /** sendToArduino: the line is written only when the port is ready; otherwise it is dropped. */
    method SendToArduino(message: string)
      modifies this`output
      ensures output == old(output) + (if isReady then [message] else [])
    {
      if isReady {
        output := output + [message];
      }
    }

    /** getWaitingCount: the number of tickets whose status is waiting. */
    method GetWaitingCount() returns (n: nat)
      ensures n == WaitingCount()
    {
      n := CountStatus(store.tickets, Waiting);
    }

    /** syncStateToArduino: send each field that differs from the cache and record it. */
    method SyncStateToArduino(currentNumber: int, nextNumber: int)
      modifies this`output, this`lastCurrentNumber, this`lastNextNumber, this`lastWaitingCount
      ensures SyncedFrom(old(LastSent()), old(output), currentNumber, nextNumber)
    {
      var waitingCount := GetWaitingCount();
      SyncCurrent(currentNumber);
      SyncNext(nextNumber);
      SyncWaiting(waitingCount);
    }

    /** The CALL block of syncStateToArduino. */
    method SyncCurrent(currentNumber: int)
      modifies this`output, this`lastCurrentNumber
      ensures output == old(output) + LineIf(isReady, currentNumber != old(lastCurrentNumber), Call(currentNumber))
      ensures lastCurrentNumber == currentNumber
    {
      if currentNumber != lastCurrentNumber {
        SendToArduino(Render(Call(currentNumber)));
        lastCurrentNumber := currentNumber;
      }
    }

    /** The TAKE block of syncStateToArduino: it carries the total issued, next - 1. */
    method SyncNext(nextNumber: int)
      modifies this`output, this`lastNextNumber
      ensures output == old(output) + LineIf(isReady, nextNumber != old(lastNextNumber), Take(nextNumber - 1))
      ensures lastNextNumber == nextNumber
    {
      var totalTickets := nextNumber - 1;
      if nextNumber != lastNextNumber {
        SendToArduino(Render(Take(totalTickets)));
        lastNextNumber := nextNumber;
      }
    }

    /** The QUEUE block of syncStateToArduino. */
    method SyncWaiting(waitingCount: int)
      modifies this`output, this`lastWaitingCount
      ensures output == old(output) + LineIf(isReady, waitingCount != old(lastWaitingCount), Queue(waitingCount))
      ensures lastWaitingCount == waitingCount
    {
      if waitingCount != lastWaitingCount {
        SendToArduino(Render(Queue(waitingCount)));
        lastWaitingCount := waitingCount;
      }
    }

    /** sendCurrentStateToArduino: without a configuration row nothing happens; otherwise a full STATE line. */
    method SendCurrentStateToArduino()
      modifies this`output, this`lastCurrentNumber, this`lastNextNumber, this`lastWaitingCount
      ensures ResyncedFrom(old(LastSent()), old(output))
    {
      var config := store.config;
      if config.None? {
        return;
      }
      var waitingCount := GetWaitingCount();
      var currentNumber := config.value.currentNumber;
      var totalTickets := config.value.nextNumber - 1;
      SendToArduino(Render(State(currentNumber, totalTickets, waitingCount)));
      lastCurrentNumber := currentNumber;
      lastNextNumber := config.value.nextNumber;
      lastWaitingCount := waitingCount;
    }

    /** The configuration-update handler: the reset signature sends RESET, anything else is synced. */
    method OnConfigUpdate(newCurrent: int, newNext: int)
      modifies this`output, this`lastCurrentNumber, this`lastNextNumber, this`lastWaitingCount
      ensures IsResetSignature(newCurrent, newNext) ==>
                output == old(output) + Transmit(isReady, [Reset]) && LastSent() == InitialCache
      ensures !IsResetSignature(newCurrent, newNext) ==> SyncedFrom(old(LastSent()), old(output), newCurrent, newNext)
    {
      if IsResetSignature(newCurrent, newNext) {
        SendToArduino(Render(Reset));
        lastCurrentNumber, lastNextNumber, lastWaitingCount := 0, 1, 0;
      } else {
        SyncStateToArduino(newCurrent, newNext);
      }
    }

    /** The tickets handler: re-read the configuration row and sync to it; without one, nothing. */
    method OnTicketsChange()
      modifies this`output, this`lastCurrentNumber, this`lastNextNumber, this`lastWaitingCount
      ensures store.config.None? ==> output == old(output) && LastSent() == old(LastSent())
      ensures store.config.Some? ==>
                SyncedFrom(old(LastSent()), old(output), store.config.value.currentNumber, store.config.value.nextNumber)
    {
      var config := store.config;
      if config.Some? {
        SyncStateToArduino(config.value.currentNumber, config.value.nextNumber);
      }
    }

    /** createTicketFromArduino: insert the peer's ticket; only when that succeeds, move the next number past it. */
    method CreateTicketFromArduino(ticketNumber: int)
      modifies store
      ensures store.Contents() == PeerTicketEffect(old(store.Contents()), ticketNumber)
    {
      var ok := store.Insert(ticketNumber);
      if !ok {
        return;
      }
      store.UpdateNextNumber(ticketNumber + 1);
    }

    /** handleArduinoMessage: dispatch a received line as ParsePeerLine classifies it. */
    method HandleArduinoMessage(line: string)
      modifies this`output, this`lastCurrentNumber, this`lastNextNumber, this`lastWaitingCount, store
      ensures ParsePeerLine(line) == ResyncRequest ==>
                store.Contents() == old(store.Contents()) && ResyncedFrom(old(LastSent()), old(output))
      ensures ParsePeerLine(line).NewTicket? ==>
                && store.Contents() == PeerTicketEffect(old(store.Contents()), ParsePeerLine(line).number)
                && output == old(output) && LastSent() == old(LastSent())
      ensures ParsePeerLine(line) == Informational ==>
                store.Contents() == old(store.Contents()) && output == old(output) && LastSent() == old(LastSent())
    {
      match ParsePeerLine(line)
      case ResyncRequest =>
        SendCurrentStateToArduino();
      case NewTicket(ticketNumber) =>
        CreateTicketFromArduino(ticketNumber);
      case Informational =>
    }
  }

  /** The lines of one command sent when its field changed. */
  function LineIf(ready: bool, changed: bool, cmd: Command): seq<string> {
    if ready && changed then [Render(cmd)] else []
  }

  lemma TransmitDiff(ready: bool, cache: Cache, current: int, next: int, waiting: int)
    ensures Transmit(ready, Diff(cache, current, next, waiting))
         == LineIf(ready, current != cache.current, Call(current))
          + LineIf(ready, next != cache.next, Take(next - 1))
          + LineIf(ready, waiting != cache.waiting, Queue(waiting))
  {
    var a := if current != cache.current then [Call(current)] else [];
    var b := if next != cache.next then [Take(next - 1)] else [];
    var c := if waiting != cache.waiting then [Queue(waiting)] else [];
    RenderAllConcat(a + b, c);
    RenderAllConcat(a, b);
    forall cmd | true ensures RenderAll([cmd]) == [Render(cmd)] {
      assert RenderAll([cmd]) == [Render(cmd)] + RenderAll([]);
    }
  }
}
