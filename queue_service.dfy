/**
 * The web side's queue operations: the status projection shown to every page, a
 * customer taking a number, and staff calling the next customer. Each exported
 * operation is one atomic step against the store.
 */
module QueueService {
  import opened Wrappers
  import opened QueueStore

  /** What every view shows: the number being served, the next number, the waiting numbers. */
  datatype QueueStatus = QueueStatus(currentNumber: int, nextNumber: int, waiting: seq<int>, totalQueue: nat)

  predicate Ascending(xs: seq<int>) {
    forall i, j :: 0 <= i < j < |xs| ==> xs[i] <= xs[j]
  }

  // ---- ordering the waiting numbers (the store's `order by ticket_number`) ------

  function InsertAscending(x: int, xs: seq<int>): (r: seq<int>)
    ensures |r| == |xs| + 1
    ensures multiset(r) == multiset(xs) + multiset{x}
  {
    if xs == [] || x <= xs[0] then [x] + xs
    else
      assert xs == [xs[0]] + xs[1..];
      [xs[0]] + InsertAscending(x, xs[1..])
  }

  /** Inserting into an ascending sequence keeps it ascending. */
  lemma {:induction false} InsertAscendingSorted(x: int, xs: seq<int>)
    requires Ascending(xs)
    ensures Ascending(InsertAscending(x, xs))
  {
    if xs == [] || x <= xs[0] {
      AscendingBelow(x, xs);
      ConsAscending(x, xs);
    } else {
      var tail := xs[1..];
      assert xs == [xs[0]] + tail;
      InsertAscendingSorted(x, tail);
      AscendingBelow(xs[0], tail);
      ConsAscending(xs[0], InsertAscending(x, tail));
    }
  }

  /** A bound on the head of an ascending sequence bounds all of it. */
  lemma AscendingBelow(h: int, xs: seq<int>)
    requires Ascending(xs) && (xs == [] || h <= xs[0])
    ensures forall y | y in multiset(xs) :: h <= y
  {
    forall y | y in multiset(xs) ensures h <= y {
      assert y in xs;
    }
  }

  /** Putting in front a value no larger than every element keeps a sequence ascending. */
  lemma ConsAscending(h: int, rest: seq<int>)
    requires Ascending(rest)
    requires forall y | y in multiset(rest) :: h <= y
    ensures Ascending([h] + rest)
  {
    forall i, j | 0 <= i < j < |[h] + rest| ensures ([h] + rest)[i] <= ([h] + rest)[j] {
      if i == 0 {
        assert rest[j - 1] in multiset(rest);
      }
    }
  }

  function SortAscending(xs: seq<int>): (r: seq<int>)
    ensures Ascending(r) && multiset(r) == multiset(xs)
  {
    if xs == [] then []
    else
      assert xs == xs[..|xs| - 1] + [xs[|xs| - 1]];
      var sorted := SortAscending(xs[..|xs| - 1]);
      InsertAscendingSorted(xs[|xs| - 1], sorted);
      InsertAscending(xs[|xs| - 1], sorted)
  }

  lemma AscendingHeadIsLeast(a: seq<int>, x: int)
    requires Ascending(a) && x in a
    ensures a[0] <= x
  {
  }

  lemma TailMultiset(a: seq<int>)
    requires a != []
    ensures multiset(a[1..]) == multiset(a) - multiset{a[0]}
  {
    assert a == [a[0]] + a[1..];
  }

  /** An ascending sequence is determined by its elements. */
  lemma {:induction false} AscendingUnique(a: seq<int>, b: seq<int>)
    requires Ascending(a) && Ascending(b) && multiset(a) == multiset(b)
    ensures a == b
  {
    assert |a| == |b| by {
      assert |a| == |multiset(a)| && |b| == |multiset(b)|;
    }
    if a != [] {
      assert a[0] == b[0] by {
        assert a[0] in multiset(b) && b[0] in multiset(a);
        AscendingHeadIsLeast(a, b[0]);
        AscendingHeadIsLeast(b, a[0]);
      }
      assert multiset(a[1..]) == multiset(b[1..]) by {
        TailMultiset(a);
        TailMultiset(b);
      }
      AscendingUnique(a[1..], b[1..]);
      assert a == [a[0]] + a[1..] && b == [b[0]] + b[1..];
    }
  }

  // ---- getQueueStatus --------------------------------------------------------

  /** `config?.next_number || 1`: an absent row or a zero next number reads as 1. */
  function NextToIssue(s: Snapshot): (n: int)
    ensures n != 0
    ensures s.config.Some? && s.config.value.nextNumber != 0 ==> n == s.config.value.nextNumber
    ensures s.config.None? || s.config.value.nextNumber == 0 ==> n == 1
  {
    if s.config.Some? && s.config.value.nextNumber != 0 then s.config.value.nextNumber else 1
  }

  /** `config?.current_number || 0`: an absent row reads as 0 (a zero number is 0 either way). */
  function CurrentOrZero(s: Snapshot): (n: int)
    ensures s.config.None? ==> n == 0
    ensures s.config.Some? ==> n == s.config.value.currentNumber
  {
    if s.config.Some? then s.config.value.currentNumber else 0
  }

  /** The projection every view reads: waiting numbers ascending, totalQueue their count. */
  function GetQueueStatus(s: Snapshot): (q: QueueStatus)
    ensures Ascending(q.waiting)
    ensures multiset(q.waiting) == multiset(WaitingNumbers(s.tickets))
    ensures q.totalQueue == |q.waiting| == CountStatus(s.tickets, Waiting)
    ensures s.config.None? ==> q.currentNumber == 0 && q.nextNumber == 1
    ensures s.config.Some? ==> q.currentNumber == s.config.value.currentNumber
    ensures q.nextNumber == if s.config.Some? && s.config.value.nextNumber != 0 then s.config.value.nextNumber else 1
  {
    var waiting := SortAscending(WaitingNumbers(s.tickets));
    assert |waiting| == |multiset(waiting)| == |multiset(WaitingNumbers(s.tickets))| == |WaitingNumbers(s.tickets)|;
    QueueStatus(CurrentOrZero(s), NextToIssue(s), waiting, |waiting|)
  }

  /** The waiting list holds exactly the numbers of the waiting tickets. */
  lemma StatusListsWaitingTickets(s: Snapshot, x: int)
    ensures x in GetQueueStatus(s).waiting <==>
            exists i :: 0 <= i < |s.tickets| && s.tickets[i].status == Waiting && s.tickets[i].number == x
  {
    var q := GetQueueStatus(s);
    assert x in q.waiting <==> x in multiset(q.waiting);
    assert x in WaitingNumbers(s.tickets) <==> x in multiset(WaitingNumbers(s.tickets));
    WaitingNumbersMembers(s.tickets, x);
  }

  // ---- takeNumber ------------------------------------------------------------

  /**
   * takeNumber: the issued number is `next_number || 1`; a waiting ticket with it is
   * inserted (the store refuses a number a live ticket holds, and that refusal is
   * ignored) and the configuration row's next number becomes the issued number + 1.
   */
  function TakeNumberEffect(s: Snapshot): (r: (Snapshot, int))
    ensures r.1 == NextToIssue(s)
    ensures r.0.tickets == if HasLiveTicket(s.tickets, r.1) then s.tickets else s.tickets + [Ticket(r.1, Waiting)]
    ensures s.config.None? ==> r.0.config.None?
    ensures s.config.Some? ==> r.0.config == Some(Config(s.config.value.currentNumber, r.1 + 1))
  {
    var k := NextToIssue(s);
    var inserted := InsertTicket(s, k).0;
    (SetNextNumber(inserted, k + 1), k)
  }

  method TakeNumber(store: Store) returns (ticketNumber: int)
    modifies store
    ensures (store.Contents(), ticketNumber) == TakeNumberEffect(old(store.Contents()))
  {
    var config := store.config;
    ticketNumber := if config.Some? && config.value.nextNumber != 0 then config.value.nextNumber else 1;
    var _ := store.Insert(ticketNumber);
    store.UpdateNextNumber(ticketNumber + 1);
  }

  /** The numbering invariant: the configuration row exists and every live ticket is below the next number. */
  predicate IssuedBelowNext(s: Snapshot) {
    && s.config.Some?
    && s.config.value.nextNumber >= 1
    && forall i :: 0 <= i < |s.tickets| && IsLive(s.tickets[i]) ==> s.tickets[i].number < s.config.value.nextNumber
  }

  /** `k` successive takeNumber calls, with the numbers they return. */
  function TakeNumbers(s: Snapshot, k: nat): (r: (Snapshot, seq<int>))
    ensures |r.1| == k
    ensures k > 0 ==> r.1[0] == NextToIssue(s)
    decreases k
  {
    if k == 0 then (s, [])
    else
      var (first, n) := TakeNumberEffect(s);
      var (last, ns) := TakeNumbers(first, k - 1);
      (last, [n] + ns)
  }

  /** The numbers from, from + 1, ..., from + count - 1. */
  function Consecutive(from: int, count: nat): (r: seq<int>)
    ensures |r| == count
    ensures forall i :: 0 <= i < count ==> r[i] == from + i
    decreases count
  {
    if count == 0 then [] else [from] + Consecutive(from + 1, count - 1)
  }

  /** Under the numbering invariant takeNumber never collides, and keeps the invariant. */
  lemma TakeNumberKeepsNumbering(s: Snapshot)
    requires IssuedBelowNext(s)
    ensures var (after, n) := TakeNumberEffect(s);
      && n == s.config.value.nextNumber
      && after.tickets == s.tickets + [Ticket(n, Waiting)]
      && IssuedBelowNext(after)
  {
    var n := s.config.value.nextNumber;
    assert !HasLiveTicket(s.tickets, n);
  }

  /**
   * Successive takeNumber calls from a configuration row whose next number n0 is
   * positive return n0, n0+1, ..., with no duplicate and no gap, and leave next at n0 + k.
   */
  lemma {:induction false} TakeNumbersConsecutive(s: Snapshot, k: nat)
    requires s.config.Some? && s.config.value.nextNumber >= 1
    ensures TakeNumbers(s, k).1 == Consecutive(s.config.value.nextNumber, k)
    ensures TakeNumbers(s, k).0.config == Some(Config(s.config.value.currentNumber, s.config.value.nextNumber + k))
    decreases k
  {
    if k > 0 {
      var n0 := s.config.value.nextNumber;
      TakeNumbersConsecutive(TakeNumberEffect(s).0, k - 1);
      ConsecutiveStep(n0, k);
    }
  }

  /** Successive takeNumber calls keep the numbering invariant. */
  lemma {:induction false} TakeNumbersKeepNumbering(s: Snapshot, k: nat)
    requires IssuedBelowNext(s)
    ensures IssuedBelowNext(TakeNumbers(s, k).0)
    decreases k
  {
    if k > 0 {
      TakeNumberKeepsNumbering(s);
      TakeNumbersKeepNumbering(TakeNumberEffect(s).0, k - 1);
    }
  }

  /** Each of those calls adds one waiting ticket, carrying the number it returned. */
  lemma {:induction false} TakeNumbersAddWaiting(s: Snapshot, k: nat)
    requires IssuedBelowNext(s)
    ensures WaitingNumbers(TakeNumbers(s, k).0.tickets) == WaitingNumbers(s.tickets) + TakeNumbers(s, k).1
    ensures CountStatus(TakeNumbers(s, k).0.tickets, Waiting) == CountStatus(s.tickets, Waiting) + k
    decreases k
  {
    if k > 0 {
      var n0 := s.config.value.nextNumber;
      var first := TakeNumberEffect(s).0;
      TakeNumberKeepsNumbering(s);
      WaitingNumbersAfterAppend(s.tickets, n0);
      TakeNumbersAddWaiting(first, k - 1);
      TakeNumbersConsecutive(first, k - 1);
      SnocThenAppend(WaitingNumbers(s.tickets), n0, TakeNumbers(first, k - 1).1);
    }
  }

  lemma ConsecutiveStep(from: int, count: nat)
    requires count > 0
    ensures Consecutive(from, count) == [from] + Consecutive(from + 1, count - 1)
  {
  }

  lemma SnocThenAppend(a: seq<int>, n: int, rest: seq<int>)
    ensures (a + [n]) + rest == a + ([n] + rest)
  {
  }

  /** Without a configuration row the update reaches no row: every takeNumber returns 1. */
  lemma {:induction false} TakeNumbersWithoutConfig(s: Snapshot, k: nat)
    requires s.config.None?
    ensures var (after, issued) := TakeNumbers(s, k);
      after.config.None? && |issued| == k && forall i :: 0 <= i < k ==> issued[i] == 1
    decreases k
  {
    if k > 0 {
      var (first, n) := TakeNumberEffect(s);
      TakeNumbersWithoutConfig(first, k - 1);
    }
  }

  // ---- callNext --------------------------------------------------------------

  /** The first waiting ticket in `order by ticket_number limit 1`: a waiting ticket of least number. */
  function LowestWaiting(tickets: seq<Ticket>): (r: Option<nat>)
    ensures r.None? <==> forall i :: 0 <= i < |tickets| ==> tickets[i].status != Waiting
    ensures r.Some? ==> r.value < |tickets| && tickets[r.value].status == Waiting
    ensures r.Some? ==> forall j :: 0 <= j < |tickets| && tickets[j].status == Waiting ==>
                          tickets[r.value].number <= tickets[j].number
  {
    if tickets == [] then None
    else
      var last := |tickets| - 1;
      var best := LowestWaiting(tickets[..last]);
      if tickets[last].status != Waiting then best
      else if best.Some? && tickets[best.value].number <= tickets[last].number then best
      else Some(last)
  }

  /** A serving ticket is the only one when exactly one ticket is serving. */
  lemma OnlyServing(tickets: seq<Ticket>, i: nat)
    requires i < |tickets| && tickets[i].status == Serving && CountStatus(tickets, Serving) == 1
    ensures forall j :: 0 <= j < |tickets| && j != i ==> tickets[j].status != Serving
  {
    var after := tickets[i := tickets[i].(status := Completed)];
    CountAfterSetStatus(tickets, i, Completed, Serving);
    CountZeroIffNone(after, Serving);
    assert forall j :: 0 <= j < |tickets| && j != i ==> after[j] == tickets[j];
  }

  /** The first ticket with a status, or |tickets|. */
  function FindStatus(tickets: seq<Ticket>, status: TicketStatus): (i: nat)
    ensures i <= |tickets|
    ensures i < |tickets| ==> tickets[i].status == status
    ensures i == |tickets| ==> CountStatus(tickets, status) == 0
  {
    CountZeroIffNone(tickets, status);
    if exists i :: 0 <= i < |tickets| && tickets[i].status == status then
      FirstIndex(tickets, status)
    else |tickets|
  }

  function FirstIndex(tickets: seq<Ticket>, status: TicketStatus): (i: nat)
    requires exists i :: 0 <= i < |tickets| && tickets[i].status == status
    ensures i < |tickets| && tickets[i].status == status
  {
    if tickets[0].status == status then 0
    else
      assert exists i :: 0 <= i < |tickets[1..]| && tickets[1..][i].status == status by {
        var i :| 0 <= i < |tickets| && tickets[i].status == status;
        assert tickets[1..][i - 1] == tickets[i];
      }
      1 + FirstIndex(tickets[1..], status)
  }

  /** `.eq('status', 'serving').maybeSingle()`: a row only when exactly one ticket is serving. */
  function SingleServing(tickets: seq<Ticket>): (r: Option<nat>)
    ensures r.Some? <==> CountStatus(tickets, Serving) == 1
    ensures r.Some? ==> r.value < |tickets| && tickets[r.value].status == Serving
    ensures r.Some? ==> forall j :: 0 <= j < |tickets| && j != r.value ==> tickets[j].status != Serving
  {
    if CountStatus(tickets, Serving) == 1 then
      var i := FindStatus(tickets, Serving);
      OnlyServing(tickets, i);
      Some(i)
    else None
  }

  /**
   * callNext: with no waiting ticket nothing happens; otherwise the single serving
   * ticket (if the serving query finds exactly one) is completed, the lowest waiting
   * ticket becomes serving and its number becomes the current number.
   */
  function CallNextEffect(s: Snapshot): (r: Snapshot)
    ensures |r.tickets| == |s.tickets|
  {
    match LowestWaiting(s.tickets)
    case None => s
    case Some(i) =>
      var completed := match SingleServing(s.tickets)
        case Some(j) => SetTicketStatus(s, j, Completed)
        case None => s;
      SetCurrentNumber(SetTicketStatus(completed, i, Serving), s.tickets[i].number)
  }

  method CallNext(store: Store)
    modifies store
    ensures store.Contents() == CallNextEffect(old(store.Contents()))
  {
    var nextTicket := LowestWaiting(store.tickets);
    if nextTicket.None? {
      return;
    }
    var number := store.tickets[nextTicket.value].number;
    var currentTicket := SingleServing(store.tickets);
    if currentTicket.Some? {
      store.UpdateStatus(currentTicket.value, Completed);
    }
    store.UpdateStatus(nextTicket.value, Serving);
    store.UpdateCurrentNumber(number);
  }

  /** callNext on an empty queue leaves the store exactly as it was. */
  lemma CallNextOnEmptyQueue(s: Snapshot)
    requires GetQueueStatus(s).totalQueue == 0
    ensures CallNextEffect(s) == s
  {
    CountZeroIffNone(s.tickets, Waiting);
  }

  /**
   * callNext promotes a lowest-numbered waiting ticket, records its number as current,
   * completes the ticket that was the only serving one, and changes no other ticket
   * and not the next number.
   */
  lemma CallNextPromotesLowest(s: Snapshot)
    requires GetQueueStatus(s).totalQueue > 0
    ensures LowestWaiting(s.tickets).Some?
    ensures var i := LowestWaiting(s.tickets).value; var r := CallNextEffect(s);
      && s.tickets[i].status == Waiting
      && (forall j :: 0 <= j < |s.tickets| && s.tickets[j].status == Waiting ==> s.tickets[i].number <= s.tickets[j].number)
      && r.tickets[i] == Ticket(s.tickets[i].number, Serving)
      && (s.config.Some? ==> r.config == Some(Config(s.tickets[i].number, s.config.value.nextNumber)))
      && (s.config.None? ==> r.config.None?)
      && (forall j :: 0 <= j < |s.tickets| && j != i && s.tickets[j].status != Serving ==> r.tickets[j] == s.tickets[j])
      && (CountStatus(s.tickets, Serving) == 1 ==>
            forall j :: 0 <= j < |s.tickets| && s.tickets[j].status == Serving ==> r.tickets[j] == s.tickets[j].(status := Completed))
      && (CountStatus(s.tickets, Serving) != 1 ==>
            forall j :: 0 <= j < |s.tickets| && j != i ==> r.tickets[j] == s.tickets[j])
  {
    CountZeroIffNone(s.tickets, Waiting);
  }

  /** callNext keeps at most one ticket serving, and leaves exactly one serving after a call. */
  lemma CallNextSingleServing(s: Snapshot)
    requires GetQueueStatus(s).totalQueue > 0
    requires CountStatus(s.tickets, Serving) <= 1
    ensures CountStatus(CallNextEffect(s).tickets, Serving) == 1
  {
    CountZeroIffNone(s.tickets, Waiting);
    var i := LowestWaiting(s.tickets).value;
    var completed := match SingleServing(s.tickets)
      case Some(j) => SetTicketStatus(s, j, Completed)
      case None => s;
    match SingleServing(s.tickets) {
      case Some(j) =>
        CountAfterSetStatus(s.tickets, j, Completed, Serving);
        assert CountStatus(completed.tickets, Serving) == 0;
      case None =>
        assert CountStatus(completed.tickets, Serving) == 0;
    }
    assert completed.tickets[i] == s.tickets[i];
    CountAfterSetStatus(completed.tickets, i, Serving, Serving);
  }

  /** callNext takes exactly the promoted number out of the waiting numbers. */
  lemma CallNextRemovesPromoted(s: Snapshot)
    requires CountStatus(s.tickets, Waiting) > 0
    ensures LowestWaiting(s.tickets).Some?
    ensures multiset(WaitingNumbers(CallNextEffect(s).tickets))
      == multiset(WaitingNumbers(s.tickets)) - multiset{s.tickets[LowestWaiting(s.tickets).value].number}
  {
    CountZeroIffNone(s.tickets, Waiting);
    var i := LowestWaiting(s.tickets).value;
    var completed := match SingleServing(s.tickets)
      case Some(j) => SetTicketStatus(s, j, Completed)
      case None => s;
    if SingleServing(s.tickets).Some? {
      CompletingKeepsWaiting(s.tickets, SingleServing(s.tickets).value);
    }
    assert completed.tickets[i] == s.tickets[i];
    ServingRemovesWaiting(completed.tickets, i);
    assert CallNextEffect(s).tickets == completed.tickets[i := completed.tickets[i].(status := Serving)];
  }

  /** The promoted number is the head of the ascending waiting list. */
  lemma PromotedIsHead(s: Snapshot)
    requires GetQueueStatus(s).totalQueue > 0
    ensures LowestWaiting(s.tickets).Some?
    ensures s.tickets[LowestWaiting(s.tickets).value].number == GetQueueStatus(s).waiting[0]
  {
    CountZeroIffNone(s.tickets, Waiting);
    var i := LowestWaiting(s.tickets).value;
    var x := s.tickets[i].number;
    var w := GetQueueStatus(s).waiting;
    StatusListsWaitingTickets(s, x);
    StatusListsWaitingTickets(s, w[0]);
    AscendingHeadIsLeast(w, x);
  }

  lemma CallNextWaitingMultiset(s: Snapshot)
    requires GetQueueStatus(s).totalQueue > 0
    ensures multiset(GetQueueStatus(CallNextEffect(s)).waiting) == multiset(GetQueueStatus(s).waiting[1..])
  {
    CallNextRemovesPromoted(s);
    PromotedIsHead(s);
    TailMultiset(GetQueueStatus(s).waiting);
  }

  /** An ascending sequence with the elements of an ascending sequence's tail is that tail. */
  lemma AscendingTail(a: seq<int>, b: seq<int>)
    requires a != [] && Ascending(a) && Ascending(b) && multiset(b) == multiset(a[1..])
    ensures b == a[1..]
  {
    AscendingUnique(b, a[1..]);
  }

  /** After callNext the waiting list is the old one without its head. */
  lemma CallNextWaitingIsTail(s: Snapshot)
    requires GetQueueStatus(s).totalQueue > 0
    ensures GetQueueStatus(CallNextEffect(s)).waiting == GetQueueStatus(s).waiting[1..]
  {
    CallNextWaitingMultiset(s);
    AscendingTail(GetQueueStatus(s).waiting, GetQueueStatus(CallNextEffect(s)).waiting);
  }

  /**
   * Seen through getQueueStatus, callNext serves the head of the waiting list and
   * leaves its tail waiting; the next number stays.
   */
  lemma CallNextServesHead(s: Snapshot)
    requires s.config.Some?
    requires GetQueueStatus(s).totalQueue > 0
    ensures GetQueueStatus(CallNextEffect(s)).currentNumber == GetQueueStatus(s).waiting[0]
    ensures GetQueueStatus(CallNextEffect(s)).waiting == GetQueueStatus(s).waiting[1..]
    ensures GetQueueStatus(CallNextEffect(s)).nextNumber == GetQueueStatus(s).nextNumber
  {
    CallNextPromotesLowest(s);
    PromotedIsHead(s);
    CallNextWaitingIsTail(s);
  }
}
