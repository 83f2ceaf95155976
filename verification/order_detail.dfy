/** The order page's tracking timeline and review rule: five fixed
    milestones, which of them count as completed for the order's status,
    which are drawn, and when the review buttons appear. */
module OrderDetail {
  import opened Store

  datatype Milestone = OrderPlaced | ProcessingStep | ShippedStep | OutForDelivery | DeliveredStep

  /** The timeline in the order it is drawn. */
  const Timeline: seq<Milestone> := [OrderPlaced, ProcessingStep, ShippedStep, OutForDelivery, DeliveredStep]

  function Label(m: Milestone): string
  {
    match m
    case OrderPlaced => "Order Placed"
    case ProcessingStep => "Processing"
    case ShippedStep => "Shipped"
    case OutForDelivery => "Out for Delivery"
    case DeliveredStep => "Delivered"
  }

  /** Whether a milestone is marked completed for an order in `status`. */
  predicate Completed(m: Milestone, status: OrderStatus)
  {
    match m
    case OrderPlaced => true
    case ProcessingStep => status == Processing || status == Shipped || status == Delivered
    case ShippedStep => status == Shipped || status == Delivered
    case OutForDelivery => status == Delivered
    case DeliveredStep => status == Delivered
  }

  datatype TrackingEvent = TrackingEvent(milestone: Milestone, completed: bool)

  function Events(status: OrderStatus): (es: seq<TrackingEvent>)
    ensures |es| == |Timeline|
    ensures forall i :: 0 <= i < |es| ==> es[i] == TrackingEvent(Timeline[i], Completed(Timeline[i], status))
  {
    seq(|Timeline|, i requires 0 <= i < |Timeline| => TrackingEvent(Timeline[i], Completed(Timeline[i], status)))
  }

  /** `events.findIndex(e => e.completed)`, -1 when none is. */
  function FirstCompleted(es: seq<TrackingEvent>): (r: int)
    ensures -1 <= r < |es|
    ensures r >= 0 ==> es[r].completed && forall j :: 0 <= j < r ==> !es[j].completed
    ensures r == -1 ==> forall j :: 0 <= j < |es| ==> !es[j].completed
  {
    if |es| == 0 then -1
    else if es[0].completed then 0
    else
      var r := FirstCompleted(es[1..]);
      if r == -1 then -1 else r + 1
  }

  /** The events at positions `from` onwards that are drawn: the completed
      ones and any at or before one past the first completed one. */
  function ShownFrom(es: seq<TrackingEvent>, from: nat, first: int): (r: seq<TrackingEvent>)
    requires from <= |es|
    ensures |r| <= |es| - from
    decreases |es| - from
  {
    if from == |es| then []
    else (if es[from].completed || from <= first + 1 then [es[from]] else []) + ShownFrom(es, from + 1, first)
  }

  /** `getTrackingEvents(status)`. */
  function TrackingEvents(status: OrderStatus): seq<TrackingEvent>
  {
    var es := Events(status);
    ShownFrom(es, 0, FirstCompleted(es))
  }

  /** Completion only ever moves forward along the timeline: a completed
      milestone has every earlier one completed too. */
  lemma CompletionIsPrefix(status: OrderStatus, i: nat, j: nat)
    requires i <= j < |Timeline|
    requires Completed(Timeline[j], status)
    ensures Completed(Timeline[i], status)
  {
  }

  /** How many milestones are completed for each status. */
  function CompletedCount(status: OrderStatus): nat
  {
    match status
    case Pending => 1
    case Cancelled => 1
    case Processing => 2
    case Shipped => 3
    case Delivered => 5
  }

  lemma CompletedCountExact(status: OrderStatus, i: nat)
    requires i < |Timeline|
    ensures Completed(Timeline[i], status) <==> i < CompletedCount(status)
  {
  }

  /** Once the first event is completed, a suffix of a completed prefix is
      shown exactly up to `max(count, first + 2)`. */
  lemma {:induction false} ShownFromPrefix(es: seq<TrackingEvent>, from: nat, count: nat)
    requires from <= |es| && 2 <= count <= |es|
    requires forall i :: 0 <= i < |es| ==> (es[i].completed <==> i < count)
    ensures ShownFrom(es, from, 0) == if from < count then es[from..count] else []
    decreases |es| - from
  {
    if from < |es| {
      ShownFromPrefix(es, from + 1, count);
      if from < count {
        assert es[from..count] == [es[from]] + es[from + 1..count];
      }
    }
  }

  /** The timeline drawn is a prefix of the five milestones, as long as
      the completed part but never shorter than two: five when delivered,
      three when shipped, two otherwise. */
  lemma TrackingEventsArePrefix(status: OrderStatus)
    ensures var n := if CompletedCount(status) < 2 then 2 else CompletedCount(status);
      TrackingEvents(status) == Events(status)[..n]
    ensures |TrackingEvents(status)| == if status == Delivered then 5 else if status == Shipped then 3 else 2
  {
    var es := Events(status);
    assert es[0].completed;
    assert FirstCompleted(es) == 0;
    var n := if CompletedCount(status) < 2 then 2 else CompletedCount(status);
    if CompletedCount(status) >= 2 {
      forall i | 0 <= i < |es|
        ensures es[i].completed <==> i < n
      {
        CompletedCountExact(status, i);
      }
      ShownFromPrefix(es, 0, n);
    } else {
      ShownFromOne(es);
    }
  }

  /** With only the first milestone completed, the first two are drawn. */
  lemma ShownFromOne(es: seq<TrackingEvent>)
    requires |es| == 5 && es[0].completed
    requires forall i :: 1 <= i < 5 ==> !es[i].completed
    ensures ShownFrom(es, 0, 0) == es[..2]
  {
    assert ShownFrom(es, 4, 0) == [];
    assert ShownFrom(es, 3, 0) == [];
    assert ShownFrom(es, 2, 0) == [];
    assert ShownFrom(es, 1, 0) == [es[1]];
  }

  /** The review controls appear on an order's items exactly when the
      order is delivered. */
  function CanReview(status: OrderStatus): (r: bool)
    ensures r <==> status == Delivered
  {
    status == Delivered
  }

  /** Whenever a review may be written, the whole timeline is drawn and
      completed. */
  lemma ReviewableMeansFullyTracked(status: OrderStatus)
    requires CanReview(status)
    ensures |TrackingEvents(status)| == |Timeline|
    ensures forall i :: 0 <= i < |TrackingEvents(status)| ==> TrackingEvents(status)[i].completed
  {
    TrackingEventsArePrefix(status);
  }
}
