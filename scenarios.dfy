/** The purchase scenarios of the service's test suite, and the edge cases
    the implementation lets through, stated as client methods and lemmas. */
module Scenarios {
  import opened Domain
  import opened TicketService

  lemma SumTwo(x: TicketTypeRequest, y: TicketTypeRequest, f: TicketTypeRequest -> int)
    ensures Sum([x, y], f) == f(x) + f(y)
  {
    assert [x, y][..1] == [x];
    assert [x][..0] == [];
    assert Sum([x], f) == Sum([], f) + f(x);
  }

  /** The aggregates of a two-line purchase, line by line. */
  lemma AggregatesOfTwo(x: TicketTypeRequest, y: TicketTypeRequest)
    ensures TotalTickets([x, y]) == x.noOfTickets + y.noOfTickets
    ensures TotalPrice([x, y]) == PricePerRequest(x) + PricePerRequest(y)
    ensures forall t :: CountOf([x, y], t) == TicketsOfType(t)(x) + TicketsOfType(t)(y)
    ensures forall t :: HasType([x, y], t) <==> x.ticketType == t || y.ticketType == t
  {
    SumTwo(x, y, Tickets);
    SumTwo(x, y, PricePerRequest);
    forall t ensures CountOf([x, y], t) == TicketsOfType(t)(x) + TicketsOfType(t)(y) {
      SumTwo(x, y, TicketsOfType(t));
    }
    forall t ensures HasType([x, y], t) <==> x.ticketType == t || y.ticketType == t {
      assert [x, y][0] == x && [x, y][1] == y;
    }
  }

  /** Two adults and a child: pays 50, then reserves 3 seats. */
  method PurchaseAdultsAndChild() returns (outcome: Outcome, calls: seq<Call>)
    ensures outcome == Pass
    ensures calls == [MakePayment(1, 50), ReserveSeat(1, 3)]
  {
    var rs := [TicketTypeRequest(2, ADULT), TicketTypeRequest(1, CHILD)];
    AggregatesOfTwo(rs[0], rs[1]);
    outcome, calls := PurchaseTickets(1, rs);
  }

  /** Twenty-one adults: the ticket limit is exceeded and nothing is called. */
  method PurchaseOverLimit() returns (outcome: Outcome, calls: seq<Call>)
    ensures outcome == Fail(MaximumLimitExceeded) && calls == []
  {
    var rs := [TicketTypeRequest(21, ADULT)];
    outcome, calls := PurchaseTickets(1, rs);
  }

  /** One adult and two infants: too many infants, nothing is called. */
  method PurchaseTooManyInfants() returns (outcome: Outcome, calls: seq<Call>)
    ensures outcome == Fail(InfantsExceedAdults) && calls == []
  {
    var rs := [TicketTypeRequest(1, ADULT), TicketTypeRequest(2, INFANT)];
    AggregatesOfTwo(rs[0], rs[1]);
    outcome, calls := PurchaseTickets(1, rs);
  }

  /** One child and two infants, no adult: the ratio rule is checked before
      the accompaniment rule, so it is the ratio rule that fails. */
  method PurchaseChildAndInfantsAlone() returns (outcome: Outcome, calls: seq<Call>)
    ensures outcome == Fail(InfantsExceedAdults) && calls == []
  {
    var rs := [TicketTypeRequest(1, CHILD), TicketTypeRequest(2, INFANT)];
    AggregatesOfTwo(rs[0], rs[1]);
    outcome, calls := PurchaseTickets(1, rs);
  }

  /** A child alone fails the accompaniment rule. */
  method PurchaseChildAlone() returns (outcome: Outcome, calls: seq<Call>)
    ensures outcome == Fail(ChildOrInfantWithoutAdult) && calls == []
  {
    var rs := [TicketTypeRequest(1, CHILD)];
    assert HasType(rs, CHILD);
    outcome, calls := PurchaseTickets(1, rs);
  }

  /** A request for zero adults still makes ADULT a key of the map, so a
      child with "zero adults" passes the accompaniment rule. */
  method PurchaseChildWithZeroAdults() returns (outcome: Outcome, calls: seq<Call>)
    ensures outcome == Pass
    ensures calls == [MakePayment(1, 10), ReserveSeat(1, 1)]
  {
    var rs := [TicketTypeRequest(0, ADULT), TicketTypeRequest(1, CHILD)];
    AggregatesOfTwo(rs[0], rs[1]);
    outcome, calls := PurchaseTickets(1, rs);
  }

  /** Counts are not checked for sign: a negative child count lowers both
      the payment and the seats below zero. */
  method PurchaseNegativeCount() returns (outcome: Outcome, calls: seq<Call>)
    ensures outcome == Pass
    ensures calls == [MakePayment(1, -10), ReserveSeat(1, -2)]
  {
    var rs := [TicketTypeRequest(1, ADULT), TicketTypeRequest(-3, CHILD)];
    AggregatesOfTwo(rs[0], rs[1]);
    outcome, calls := PurchaseTickets(1, rs);
  }

  /** No requests at all: every rule passes and zero is paid and reserved. */
  method PurchaseNothing() returns (outcome: Outcome, calls: seq<Call>)
    ensures outcome == Pass
    ensures calls == [MakePayment(1, 0), ReserveSeat(1, 0)]
  {
    outcome, calls := PurchaseTickets(1, []);
  }

}
