/**
 * Worked scenarios that drive the store, the queue operations and the bridge together,
 * each ending in the exact lines written to the peer or the exact state of the store.
 */
module Scenarios {
  import opened Wrappers
  import opened Text
  import opened QueueStore
  import opened QueueService
  import opened Protocol
  import opened Bridge

  // ---- concrete facts the scenarios rest on -------------------------------------

  /**
   * The resync request as the display sends it: REQ ended by a carriage return.
   * It is spelled as empty leading padding, REQ and the terminator, the shape
   * ResyncRequestPadded recognises.
   */
  const RequestLine: string := "" + "REQ" + "\r"

  /** A one-digit number is written as its digit. */
  lemma DigitText(d: nat)
    requires d < 10
    ensures IntToString(d) == [DigitChar(d)]
  {
  }

  /** The STATE line after three numbers were taken and the first was called. */
  lemma StateLineOneThreeTwo()
    ensures Render(State(1, 3, 2)) == "STATE current=1;total=3;waiting=2"
  {
    DigitText(1);
    DigitText(3);
    DigitText(2);
    assert DigitChar(1) == '1' && DigitChar(3) == '3' && DigitChar(2) == '2';
  }

  lemma StateLineFourFiveZero()
    ensures Render(State(4, 5, 0)) == "STATE current=4;total=5;waiting=0"
  {
    DigitText(4);
    DigitText(5);
    DigitText(0);
    assert DigitChar(4) == '4' && DigitChar(5) == '5' && DigitChar(0) == '0';
  }

  lemma QueueLineOne()
    ensures Render(Queue(1)) == "QUEUE 1"
  {
    DigitText(1);
    assert DigitChar(1) == '1';
  }

  /** The one line a resync from a cache writes to a ready port. */
  lemma ResyncLine(cache: Cache)
    ensures Transmit(true, [StateOf(cache)]) == [Render(State(cache.current, cache.next - 1, cache.waiting))]
  {
    assert RenderAll([StateOf(cache)]) == [Render(StateOf(cache))] + RenderAll([]);
  }

  /** The counts of a three-ticket table, ticket by ticket. */
  lemma CountThree(a: Ticket, b: Ticket, c: Ticket, status: TicketStatus)
    ensures CountStatus([a, b, c], status)
         == (if a.status == status then 1 else 0) + (if b.status == status then 1 else 0) + (if c.status == status then 1 else 0)
  {
    assert [a, b, c][..2] == [a, b] && [a, b][..1] == [a] && [a][..0] == [];
    assert CountStatus([a], status) == (if a.status == status then 1 else 0);
    assert CountStatus([a, b], status) == CountStatus([a], status) + (if b.status == status then 1 else 0);
    assert CountStatus([a, b, c], status) == CountStatus([a, b], status) + (if c.status == status then 1 else 0);
  }

  /** The first of three tickets taken in order is the one callNext serves. */
  lemma CallNextAfterThreeTakes()
    ensures CallNextEffect(Snapshot(Some(Config(0, 4)), [Ticket(1, Waiting), Ticket(2, Waiting), Ticket(3, Waiting)]))
         == Snapshot(Some(Config(1, 4)), [Ticket(1, Serving), Ticket(2, Waiting), Ticket(3, Waiting)])
  {
    var tickets := [Ticket(1, Waiting), Ticket(2, Waiting), Ticket(3, Waiting)];
    var lowest := LowestWaiting(tickets);
    assert tickets[0].status == Waiting;
    assert lowest == Some(0) by {
      assert tickets[lowest.value].number <= tickets[0].number;
    }
    CountThree(tickets[0], tickets[1], tickets[2], Serving);
    assert SingleServing(tickets).None?;
  }

  // ---- the scenarios -----------------------------------------------------------

  /** A line that reads as a resync request, handed to the message handler, resynchronises the bridge and leaves the store alone. */
  method AnswerResync(bridge: ArduinoBridge, line: string)
    requires ParsePeerLine(line) == ResyncRequest
    modifies bridge`output, bridge`lastCurrentNumber, bridge`lastNextNumber, bridge`lastWaitingCount, bridge.store
    ensures bridge.store.Contents() == old(bridge.store.Contents())
    ensures bridge.ResyncedFrom(old(bridge.LastSent()), old(bridge.output))
  {
    bridge.HandleArduinoMessage(line);
  }

  /** A resync of a ready bridge over a present row appends exactly that row's STATE line. */
  lemma ResyncAnswer(bridge: ArduinoBridge, before: Cache, sent: seq<string>, current: int, next: int)
    requires bridge.isReady && bridge.store.config == Some(Config(current, next))
    requires bridge.ResyncedFrom(before, sent)
    ensures bridge.output == sent + [Render(State(current, next - 1, bridge.WaitingCount()))]
  {
    ResyncLine(Cache(current, next, bridge.WaitingCount()));
  }

  /** From (current 0, next 1) three numbers are taken, returning 1, 2 and 3. */
  method TakeThree(store: Store) returns (issued: seq<int>)
    requires store.Contents() == Snapshot(Some(Config(0, 1)), [])
    modifies store
    ensures issued == [1, 2, 3]
    ensures store.Contents() == Snapshot(Some(Config(0, 4)), [Ticket(1, Waiting), Ticket(2, Waiting), Ticket(3, Waiting)])
  {
    TakeNumberKeepsNumbering(store.Contents());
    var a := TakeNumber(store);
    TakeNumberKeepsNumbering(store.Contents());
    var b := TakeNumber(store);
    TakeNumberKeepsNumbering(store.Contents());
    var c := TakeNumber(store);
    issued := [a, b, c];
  }

  /** Staff then call the next customer, which serves ticket 1. */
  method TakeThreeThenCall(store: Store) returns (issued: seq<int>)
    requires store.Contents() == Snapshot(Some(Config(0, 1)), [])
    modifies store
    ensures issued == [1, 2, 3]
    ensures store.Contents() == Snapshot(Some(Config(1, 4)), [Ticket(1, Serving), Ticket(2, Waiting), Ticket(3, Waiting)])
  {
    issued := TakeThree(store);
    CallNextAfterThreeTakes();
    CallNext(store);
  }

  /** After those steps a resync request from the peer is answered with the full state. */
  method TakeThreeCallOneResync() returns (issued: seq<int>, line: string)
    ensures issued == [1, 2, 3]
    ensures line == "STATE current=1;total=3;waiting=2"
  {
    var store := new Store(Some(Config(0, 1)), []);
    issued := TakeThreeThenCall(store);
    line := ResyncAfterOneCall(store);
  }

  /** A display that asks for the state once 1 is served and 2, 3 wait gets exactly one STATE line. */
  method ResyncAfterOneCall(store: Store) returns (line: string)
    requires store.Contents() == Snapshot(Some(Config(1, 4)), [Ticket(1, Serving), Ticket(2, Waiting), Ticket(3, Waiting)])
    modifies store
    ensures line == "STATE current=1;total=3;waiting=2"
  {
    var bridge := new ArduinoBridge(store);
    bridge.isReady := true;
    ResyncRequestPadded("", "\r");
    ghost var before, sent := bridge.LastSent(), bridge.output;
    AnswerResync(bridge, RequestLine);
    ResyncAnswer(bridge, before, sent, 1, 4);
    CountThree(Ticket(1, Serving), Ticket(2, Waiting), Ticket(3, Waiting), Waiting);
    StateLineOneThreeTwo();
    line := bridge.output[0];
  }

  /** When the store already holds its waiting numbers in ascending order, the status lists them in that order. */
  lemma StatusOfAscendingWaiting(s: Snapshot, w: seq<int>)
    requires WaitingNumbers(s.tickets) == w && Ascending(w)
    ensures GetQueueStatus(s).waiting == w
  {
    AscendingUnique(GetQueueStatus(s).waiting, w);
  }

  /** The peer's ticket 7, taken while ticket 3 is served and 4 waits with next number 5, is appended and moves the next number to 8. */
  lemma PeerSevenInserted()
    ensures PeerTicketEffect(Snapshot(Some(Config(3, 5)), [Ticket(3, Serving), Ticket(4, Waiting)]), 7)
         == Snapshot(Some(Config(3, 8)), [Ticket(3, Serving), Ticket(4, Waiting), Ticket(7, Waiting)])
  {
    var tickets := [Ticket(3, Serving), Ticket(4, Waiting)];
    assert !HasLiveTicket(tickets, 7);
  }

  /** Ticket 7 then waits behind ticket 4. */
  lemma PeerSevenQueued()
    ensures GetQueueStatus(Snapshot(Some(Config(3, 8)), [Ticket(3, Serving), Ticket(4, Waiting), Ticket(7, Waiting)])).waiting == [4, 7]
  {
    var tickets := [Ticket(3, Serving), Ticket(4, Waiting)];
    assert WaitingNumbers(tickets + [Ticket(7, Waiting)]) == [4, 7] by {
      assert tickets[..1] == [Ticket(3, Serving)] && tickets[..1][..0] == [];
      assert WaitingNumbers(tickets[..1]) == [];
      assert WaitingNumbers(tickets) == [4];
      WaitingNumbersAfterAppend(tickets, 7);
    }
    assert tickets + [Ticket(7, Waiting)] == [Ticket(3, Serving), Ticket(4, Waiting), Ticket(7, Waiting)];
    StatusOfAscendingWaiting(Snapshot(Some(Config(3, 8)), tickets + [Ticket(7, Waiting)]), [4, 7]);
  }

  /** The peer issues ticket 7 while the next number is 5: ticket 7 waits behind 4, and the next number becomes 8. */
  method PeerIssuesSeven() returns (waiting: seq<int>, nextNumber: int)
    ensures waiting == [4, 7]
    ensures nextNumber == 8
  {
    var store := new Store(Some(Config(3, 5)), [Ticket(3, Serving), Ticket(4, Waiting)]);
    var bridge := new ArduinoBridge(store);
    var line := TicketPrefix + IntToString(7) + "\r";
    TicketLineRoundTrip(7, "", "\r");
    assert "" + TicketPrefix == TicketPrefix;
    bridge.HandleArduinoMessage(line);
    PeerSevenInserted();
    PeerSevenQueued();
    var status := GetQueueStatus(store.Contents());
    waiting, nextNumber := status.waiting, status.nextNumber;
  }

  /** Only the waiting count changed, from 2 to 1: exactly one QUEUE line is sent. */
  method OnlyWaitingChanged() returns (lines: seq<string>)
    ensures lines == ["QUEUE 1"]
  {
    var tickets := [Ticket(3, Serving), Ticket(4, Completed), Ticket(5, Waiting)];
    var store := new Store(Some(Config(3, 6)), tickets);
    var bridge := new ArduinoBridge(store);
    bridge.isReady := true;
    bridge.lastCurrentNumber, bridge.lastNextNumber, bridge.lastWaitingCount := 3, 6, 2;
    CountThree(tickets[0], tickets[1], tickets[2], Waiting);
    bridge.OnTicketsChange();
    QueueLineOne();
    lines := bridge.output;
  }

  /**
   * The update (4, 6) arrives while the port is down, then again once it is open:
   * the second notification writes nothing.
   */
  method DroppedThenRenotified(store: Store) returns (bridge: ArduinoBridge)
    ensures fresh(bridge) && bridge.store == store
    ensures bridge.isReady && bridge.output == []
    ensures bridge.LastSent() == Cache(4, 6, CountStatus(store.tickets, Waiting))
  {
    bridge := new ArduinoBridge(store);
    bridge.OnConfigUpdate(4, 6);
    bridge.isReady := true;
    bridge.OnConfigUpdate(4, 6);
  }

  /**
   * A change synced while the port is down is lost: the cache records it anyway, so
   * once the port is back a second notification sends nothing; only a resync request
   * brings the peer up to date.
   */
  method DroppedChangeNeedsResync() returns (afterSync: seq<string>, afterRequest: seq<string>)
    ensures afterSync == []
    ensures afterRequest == ["STATE current=4;total=5;waiting=0"]
  {
    var store := new Store(Some(Config(4, 6)), []);
    var bridge := DroppedThenRenotified(store);
    afterSync := bridge.output;
    ResyncRequestPadded("", "\r");
    ghost var before, sent := bridge.LastSent(), bridge.output;
    AnswerResync(bridge, RequestLine);
    ResyncAnswer(bridge, before, sent, 4, 6);
    StateLineFourFiveZero();
    afterRequest := bridge.output;
  }

  /** The reset signature sends a single RESET and clears the cache. */
  method ResetFromWeb() returns (lines: seq<string>, cache: Cache)
    ensures lines == ["RESET"] && cache == Cache(0, 1, 0)
  {
    var store := new Store(Some(Config(0, 1)), []);
    var bridge := new ArduinoBridge(store);
    bridge.isReady := true;
    bridge.lastCurrentNumber, bridge.lastNextNumber, bridge.lastWaitingCount := 9, 12, 2;
    bridge.OnConfigUpdate(0, 1);
    lines, cache := bridge.output, bridge.LastSent();
  }

  // ---- properties over any bridge ------------------------------------------------

  /** Idempotence: a second sync to the same values, with the store unchanged, writes nothing more. */
  method SyncTwice(bridge: ArduinoBridge, current: int, next: int) returns (first: seq<string>, second: seq<string>)
    modifies bridge
    ensures second == first
    ensures bridge.LastSent() == Cache(current, next, bridge.WaitingCount())
  {
    bridge.SyncStateToArduino(current, next);
    first := bridge.output;
    bridge.SyncStateToArduino(current, next);
    second := bridge.output;
  }

  /**
   * A sync while the port is down writes nothing yet records the new values; once the
   * port is ready again, the same sync finds nothing changed, so the dropped commands
   * are never sent.
   */
  method DroppedNotRetried(bridge: ArduinoBridge, current: int, next: int)
    requires !bridge.isReady
    modifies bridge
    ensures bridge.isReady && bridge.output == old(bridge.output)
    ensures bridge.LastSent() == Cache(current, next, bridge.WaitingCount())
  {
    bridge.SyncStateToArduino(current, next);
    bridge.isReady := true;
    bridge.SyncStateToArduino(current, next);
  }
}
