/**
 * The queue store shared by the web services and the bridge: the configuration row
 * (current number, next number) and the ticket rows. Timestamps and row ids are not
 * modelled; a ticket is identified by its position in the ticket list.
 */
module QueueStore {
  import opened Wrappers

  datatype TicketStatus = Waiting | Serving | Completed

  datatype Ticket = Ticket(number: int, status: TicketStatus)

  /** The configuration row: the number being served (0 = none) and the number the next ticket gets. */
  datatype Config = Config(currentNumber: int, nextNumber: int)

  /** One observation of the whole store; `config` is None when the configuration row is absent. */
  datatype Snapshot = Snapshot(config: Option<Config>, tickets: seq<Ticket>)

  // ---- queries ---------------------------------------------------------------

  /** A ticket that is not completed holds its number. */
  predicate IsLive(t: Ticket) {
    t.status != Completed
  }

  predicate HasLiveTicket(tickets: seq<Ticket>, number: int) {
    exists i :: 0 <= i < |tickets| && IsLive(tickets[i]) && tickets[i].number == number
  }

  /** The number of tickets with the given status. */
  function CountStatus(tickets: seq<Ticket>, status: TicketStatus): (n: nat)
    ensures n <= |tickets|
  {
    if tickets == [] then 0
    else CountStatus(tickets[..|tickets| - 1], status) + (if tickets[|tickets| - 1].status == status then 1 else 0)
  }

  /** The number a ticket contributes to the waiting list: its own if it waits, none otherwise. */
  function WaitingPart(t: Ticket): seq<int> {
    if t.status == Waiting then [t.number] else []
  }

  /** The numbers of the waiting tickets, in store order. */
  function WaitingNumbers(tickets: seq<Ticket>): (ws: seq<int>)
    ensures |ws| == CountStatus(tickets, Waiting)
  {
    if tickets == [] then []
    else WaitingNumbers(tickets[..|tickets| - 1]) + WaitingPart(tickets[|tickets| - 1])
  }

  /** `x` is the number of a waiting ticket exactly when it appears in WaitingNumbers. */
  lemma {:induction false} WaitingNumbersMembers(tickets: seq<Ticket>, x: int)
    ensures x in WaitingNumbers(tickets) <==>
            exists i :: 0 <= i < |tickets| && tickets[i].status == Waiting && tickets[i].number == x
  {
    if tickets != [] {
      var init, last := tickets[..|tickets| - 1], tickets[|tickets| - 1];
      assert WaitingNumbers(tickets) == WaitingNumbers(init) + WaitingPart(last);
      WaitingNumbersMembers(init, x);
      if x in WaitingNumbers(init) {
        var i :| 0 <= i < |init| && init[i].status == Waiting && init[i].number == x;
        assert tickets[i] == init[i];
      }
      if exists i :: 0 <= i < |tickets| && tickets[i].status == Waiting && tickets[i].number == x {
        var i :| 0 <= i < |tickets| && tickets[i].status == Waiting && tickets[i].number == x;
        if i < |init| {
          assert init[i] == tickets[i];
        } else {
          assert x in WaitingPart(last);
        }
      }
    }
  }

  /** A status has count zero exactly when no ticket has it. */
  lemma {:induction false} CountZeroIffNone(tickets: seq<Ticket>, status: TicketStatus)
    ensures CountStatus(tickets, status) == 0 <==> forall i :: 0 <= i < |tickets| ==> tickets[i].status != status
  {
    if tickets != [] {
      var init := tickets[..|tickets| - 1];
      CountZeroIffNone(init, status);
      assert forall i :: 0 <= i < |init| ==> init[i] == tickets[i];
    }
  }

  /** Changing one ticket's status moves it from one count to another. */
  lemma {:induction false} CountAfterSetStatus(tickets: seq<Ticket>, i: nat, status: TicketStatus, counted: TicketStatus)
    requires i < |tickets|
    ensures var after := tickets[i := tickets[i].(status := status)];
      CountStatus(after, counted) + (if tickets[i].status == counted then 1 else 0)
      == CountStatus(tickets, counted) + (if status == counted then 1 else 0)
  {
    var after := tickets[i := tickets[i].(status := status)];
    var last := |tickets| - 1;
    if i == last {
      assert after[..last] == tickets[..last];
    } else {
      assert after[..last] == tickets[..last][i := tickets[i].(status := status)];
      CountAfterSetStatus(tickets[..last], i, status, counted);
    }
  }

  lemma MultisetShift(a: multiset<int>, b: multiset<int>, c: multiset<int>, d: multiset<int>, p: multiset<int>)
    requires a + c == b + d
    ensures a + p + c == b + p + d
  {
    assert a + p + c == (a + c) + p;
    assert b + p + d == (b + d) + p;
  }

  /** Changing one ticket's status moves its number in or out of the waiting numbers. */
  lemma {:induction false} WaitingAfterSetStatus(tickets: seq<Ticket>, i: nat, status: TicketStatus)
    requires i < |tickets|
    ensures var after := tickets[i := tickets[i].(status := status)];
      multiset(WaitingNumbers(after)) + multiset(WaitingPart(tickets[i]))
      == multiset(WaitingNumbers(tickets)) + multiset(WaitingPart(after[i]))
  {
    var after := tickets[i := tickets[i].(status := status)];
    var last := |tickets| - 1;
    var init := tickets[..last];
    assert WaitingNumbers(after) == WaitingNumbers(after[..last]) + WaitingPart(after[last]);
    assert WaitingNumbers(tickets) == WaitingNumbers(init) + WaitingPart(tickets[last]);
    if i == last {
      assert after[..last] == init;
    } else {
      var initAfter := init[i := init[i].(status := status)];
      assert after[..last] == initAfter;
      assert after[last] == tickets[last];
      WaitingAfterSetStatus(init, i, status);
      assert init[i] == tickets[i] && initAfter[i] == after[i];
      MultisetShift(multiset(WaitingNumbers(initAfter)), multiset(WaitingNumbers(init)),
                    multiset(WaitingPart(tickets[i])), multiset(WaitingPart(after[i])),
                    multiset(WaitingPart(tickets[last])));
    }
  }

  /** Completing a serving ticket leaves the waiting numbers as they were. */
  lemma CompletingKeepsWaiting(tickets: seq<Ticket>, j: nat)
    requires j < |tickets| && tickets[j].status == Serving
    ensures multiset(WaitingNumbers(tickets[j := tickets[j].(status := Completed)])) == multiset(WaitingNumbers(tickets))
  {
    var after := tickets[j := tickets[j].(status := Completed)];
    WaitingAfterSetStatus(tickets, j, Completed);
    assert multiset(WaitingPart(tickets[j])) == multiset{};
    assert multiset(WaitingPart(after[j])) == multiset{};
    var a, b := multiset(WaitingNumbers(after)), multiset(WaitingNumbers(tickets));
    assert a + multiset{} == b + multiset{};
    assert a + multiset{} == a && b + multiset{} == b;
  }

  /** Serving a waiting ticket takes its number out of the waiting numbers. */
  lemma ServingRemovesWaiting(tickets: seq<Ticket>, i: nat)
    requires i < |tickets| && tickets[i].status == Waiting
    ensures multiset(WaitingNumbers(tickets[i := tickets[i].(status := Serving)]))
         == multiset(WaitingNumbers(tickets)) - multiset{tickets[i].number}
  {
    var after := tickets[i := tickets[i].(status := Serving)];
    WaitingAfterSetStatus(tickets, i, Serving);
    assert multiset(WaitingPart(tickets[i])) == multiset{tickets[i].number};
    assert multiset(WaitingPart(after[i])) == multiset{};
    var a, b := multiset(WaitingNumbers(after)), multiset(WaitingNumbers(tickets));
    assert a + multiset{tickets[i].number} == b + multiset{};
    assert b + multiset{} == b;
  }

  lemma CountAfterAppend(tickets: seq<Ticket>, t: Ticket, counted: TicketStatus)
    ensures CountStatus(tickets + [t], counted) == CountStatus(tickets, counted) + (if t.status == counted then 1 else 0)
  {
    assert (tickets + [t])[..|tickets|] == tickets;
  }

  lemma WaitingNumbersAfterAppend(tickets: seq<Ticket>, number: int)
    ensures WaitingNumbers(tickets + [Ticket(number, Waiting)]) == WaitingNumbers(tickets) + [number]
  {
    assert (tickets + [Ticket(number, Waiting)])[..|tickets|] == tickets;
  }

  // ---- the store's primitive updates, as functions of a snapshot ---------------

  /**
   * Inserting a waiting ticket. The store refuses a number that a non-completed ticket
   * already holds; otherwise the ticket is appended.
   */
  function InsertTicket(s: Snapshot, number: int): (r: (Snapshot, bool))
    ensures r.1 <==> !HasLiveTicket(s.tickets, number)
    ensures r.0.config == s.config
    ensures r.0.tickets == if r.1 then s.tickets + [Ticket(number, Waiting)] else s.tickets
  {
    if HasLiveTicket(s.tickets, number) then (s, false)
    else (s.(tickets := s.tickets + [Ticket(number, Waiting)]), true)
  }

  /** Updating the configuration row by its id: no row, no change. */
  function SetNextNumber(s: Snapshot, n: int): (r: Snapshot)
    ensures r.tickets == s.tickets
    ensures r.config.Some? <==> s.config.Some?
    ensures s.config.Some? ==> r.config.value == Config(s.config.value.currentNumber, n)
  {
    match s.config
    case None => s
    case Some(c) => s.(config := Some(c.(nextNumber := n)))
  }

  function SetCurrentNumber(s: Snapshot, n: int): (r: Snapshot)
    ensures r.tickets == s.tickets
    ensures r.config.Some? <==> s.config.Some?
    ensures s.config.Some? ==> r.config.value == Config(n, s.config.value.nextNumber)
  {
    match s.config
    case None => s
    case Some(c) => s.(config := Some(c.(currentNumber := n)))
  }

  function SetTicketStatus(s: Snapshot, i: nat, status: TicketStatus): (r: Snapshot)
    requires i < |s.tickets|
    ensures r.config == s.config && |r.tickets| == |s.tickets|
    ensures r.tickets[i] == Ticket(s.tickets[i].number, status)
    ensures forall j :: 0 <= j < |s.tickets| && j != i ==> r.tickets[j] == s.tickets[j]
  {
    s.(tickets := s.tickets[i := s.tickets[i].(status := status)])
  }

  /** The store itself: one configuration row (possibly absent) and the ticket table. */
  class Store {
    var config: Option<Config>
    var tickets: seq<Ticket>

    constructor (config: Option<Config>, tickets: seq<Ticket>)
      ensures this.config == config && this.tickets == tickets
    {
      this.config := config;
      this.tickets := tickets;
    }

    function Contents(): Snapshot
      reads this
    {
      Snapshot(config, tickets)
    }

    method Insert(number: int) returns (ok: bool)
      modifies this
      ensures (Contents(), ok) == InsertTicket(old(Contents()), number)
    {
      ok := !HasLiveTicket(tickets, number);
      if ok {
        tickets := tickets + [Ticket(number, Waiting)];
      }
    }

    method UpdateNextNumber(n: int)
      modifies this
      ensures Contents() == SetNextNumber(old(Contents()), n)
    {
      if config.Some? {
        config := Some(config.value.(nextNumber := n));
      }
    }

    method UpdateCurrentNumber(n: int)
      modifies this
      ensures Contents() == SetCurrentNumber(old(Contents()), n)
    {
      if config.Some? {
        config := Some(config.value.(currentNumber := n));
      }
    }

    method UpdateStatus(i: nat, status: TicketStatus)
      requires i < |tickets|
      modifies this
      ensures Contents() == SetTicketStatus(old(Contents()), i, status)
    {
      tickets := tickets[i := tickets[i].(status := status)];
    }
  }
}
