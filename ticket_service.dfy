/** The ticket purchase operation: aggregate the requests, validate three
    business rules in a fixed order, then pay and reserve seats. */
module TicketService {
  import opened Domain

  const MaxTicketsPerPurchase: int := 20

  /** The fare table, as the service initialises it. */
  const TicketFare: map<Type, int> := map[INFANT := 0, CHILD := 10, ADULT := 20]

  /** The published fares, by exhaustive case analysis: an independent
      statement of the table above. */
  function Fare(t: Type): nat
  {
    match t
    case ADULT => 20
    case CHILD => 10
    case INFANT => 0
  }

  /** The three business-rule violations a purchase can raise. */
  datatype PurchaseError =
    | MaximumLimitExceeded
    | InfantsExceedAdults
    | ChildOrInfantWithoutAdult

  function Message(e: PurchaseError): string
  {
    match e
    case MaximumLimitExceeded => "Maximum limit of tickets per purchase exceeded"
    case InfantsExceedAdults => "Number of infants cannot exceed the number of adults"
    case ChildOrInfantWithoutAdult => "Child or infant ticket cannot be purchased without an adult ticket"
  }

  /** Each rule violation carries its own text. */
  lemma MessagesDistinct(e1: PurchaseError, e2: PurchaseError)
    ensures Message(e1) == Message(e2) <==> e1 == e2
  {
  }

  /** Either the purchase went through or it raised one rule violation. */
  datatype Outcome = Pass | Fail(error: PurchaseError)

  /** A call made to one of the two external collaborators. */
  datatype Call =
    | MakePayment(accountId: int, totalAmountToPay: int)
    | ReserveSeat(accountId: int, totalSeatsToAllocate: int)

  function GetOrDefault(m: map<Type, int>, k: Type, d: int): int
  {
    if k in m then m[k] else d
  }

  // ---------------------------------------------------------------------------
  // Price

  /** The rate looked up in the fare table, zero for a type it lacks. */
  function Rate(t: Type): int
  {
    GetOrDefault(TicketFare, t, 0)
  }

  lemma FareTableComplete(t: Type)
    ensures t in TicketFare && TicketFare[t] == Fare(t)
    ensures Rate(t) == Fare(t)
  {
  }

  /** Price of one request line: rate times count. */
  function PricePerRequest(r: TicketTypeRequest): (price: int)
    ensures price == Fare(r.ticketType) * r.noOfTickets
    ensures r.ticketType == INFANT ==> price == 0
  {
    Rate(r.ticketType) * r.noOfTickets
  }

  /** Count times published fare. */
  function ListedPrice(r: TicketTypeRequest): int { r.noOfTickets * Fare(r.ticketType) }

  // ---------------------------------------------------------------------------
  // Aggregates, specified over the whole request sequence

  function Tickets(r: TicketTypeRequest): int { r.noOfTickets }

  function TicketsOfType(t: Type): TicketTypeRequest -> int
  {
    (r: TicketTypeRequest) => if r.ticketType == t then r.noOfTickets else 0
  }

  /** Total number of tickets over all requests. */
  function TotalTickets(rs: seq<TicketTypeRequest>): int { Sum(rs, Tickets) }

  /** Total number of tickets in the requests of type `t`. */
  function CountOf(rs: seq<TicketTypeRequest>, t: Type): int { Sum(rs, TicketsOfType(t)) }

  /** Total price over all requests. */
  function TotalPrice(rs: seq<TicketTypeRequest>): int { Sum(rs, PricePerRequest) }

  /** Some request has type `t` (whatever its count). */
  predicate HasType(rs: seq<TicketTypeRequest>, t: Type)
  {
    exists i :: 0 <= i < |rs| && rs[i].ticketType == t
  }

  /** The per-type map the aggregation builds: a key for every type that
      some request has, mapped to that type's summed count. */
  function PerType(rs: seq<TicketTypeRequest>): map<Type, int>
  {
    map t | t in AllTypes && HasType(rs, t) :: CountOf(rs, t)
  }

  /** The map update of one aggregation step: add the count to the type's
      entry, or create the entry with the count. */
  function Compute(m: map<Type, int>, r: TicketTypeRequest): map<Type, int>
  {
    m[r.ticketType := if r.ticketType in m then m[r.ticketType] + r.noOfTickets else r.noOfTickets]
  }

  lemma {:induction false} CountOfAbsent(rs: seq<TicketTypeRequest>, t: Type)
    requires !HasType(rs, t)
    ensures CountOf(rs, t) == 0
    decreases |rs|
  {
    if rs != [] {
      var p := rs[..|rs| - 1];
      assert forall i :: 0 <= i < |p| ==> p[i] == rs[i];
      CountOfAbsent(p, t);
    }
  }

  lemma HasTypeAppend(p: seq<TicketTypeRequest>, r: TicketTypeRequest, t: Type)
    ensures HasType(p + [r], t) <==> HasType(p, t) || r.ticketType == t
  {
    var q := p + [r];
    if HasType(q, t) && r.ticketType != t {
      var i :| 0 <= i < |q| && q[i].ticketType == t;
      assert i < |p| && p[i] == q[i];
    }
    if HasType(p, t) {
      var i :| 0 <= i < |p| && p[i].ticketType == t;
      assert q[i] == p[i];
    }
    if r.ticketType == t {
      assert q[|p|] == r;
    }
  }

  /** One aggregation step keeps the map equal to the per-type map of the
      requests seen so far. */
  lemma PerTypeStep(p: seq<TicketTypeRequest>, r: TicketTypeRequest)
    ensures PerType(p + [r]) == Compute(PerType(p), r)
  {
    var q := p + [r];
    assert q[..|q| - 1] == p;
    var lhs, rhs := PerType(q), Compute(PerType(p), r);
    forall t | t in AllTypes
      ensures t in lhs <==> t in rhs
      ensures t in lhs ==> lhs[t] == rhs[t]
    {
      HasTypeAppend(p, r, t);
      if !HasType(p, t) {
        CountOfAbsent(p, t);
      }
    }
    forall t ensures t in AllTypes {
      AllTypesComplete(t);
    }
    assert lhs.Keys == rhs.Keys;
  }

  // ---------------------------------------------------------------------------
  // Aggregation (the forEach loop of purchaseTickets)

  /** Walks the requests, updating a running ticket total, the per-type map
      and a running price. */
  method Aggregate(rs: seq<TicketTypeRequest>) returns (total: int, perType: map<Type, int>, price: int)
    ensures total == TotalTickets(rs)
    ensures price == TotalPrice(rs)
    ensures forall t :: t in perType <==> HasType(rs, t)
    ensures forall t :: t in perType ==> perType[t] == CountOf(rs, t)
  {
    total, perType, price := 0, map[], 0;
    var i := 0;
    while i < |rs|
      invariant 0 <= i <= |rs|
      invariant total == TotalTickets(rs[..i])
      invariant price == TotalPrice(rs[..i])
      invariant perType == PerType(rs[..i])
    {
      var r := rs[i];
      assert rs[..i + 1] == rs[..i] + [r];
      PerTypeStep(rs[..i], r);
      total := total + r.noOfTickets;
      perType := Compute(perType, r);
      price := price + PricePerRequest(r);
      i := i + 1;
    }
    assert rs[..i] == rs;
    forall t ensures t in AllTypes {
      AllTypesComplete(t);
    }
  }

  // ---------------------------------------------------------------------------
  // Validation (validateBeforePurchasing)

  /** The three rules, fail-fast in their fixed order. The third rule asks
      whether a type is a KEY of the map, not whether its count is positive. */
  function Validate(total: int, perType: map<Type, int>): (r: Outcome)
    ensures total > MaxTicketsPerPurchase ==> r == Fail(MaximumLimitExceeded)
    ensures total <= MaxTicketsPerPurchase && GetOrDefault(perType, INFANT, 0) > GetOrDefault(perType, ADULT, 0)
      ==> r == Fail(InfantsExceedAdults)
    ensures r.Pass? <==>
      total <= MaxTicketsPerPurchase
      && GetOrDefault(perType, INFANT, 0) <= GetOrDefault(perType, ADULT, 0)
      && (ADULT in perType || (CHILD !in perType && INFANT !in perType))
  {
    if total > MaxTicketsPerPurchase then Fail(MaximumLimitExceeded)
    else
      var infants := GetOrDefault(perType, INFANT, 0);
      var adults := GetOrDefault(perType, ADULT, 0);
      if infants > adults then Fail(InfantsExceedAdults)
      else if (CHILD in perType || INFANT in perType) && ADULT !in perType then Fail(ChildOrInfantWithoutAdult)
      else Pass
  }

  /** The rules stated directly over the requests, in the order they are
      checked, with "some request of that type" for key presence. */
  function Rules(rs: seq<TicketTypeRequest>): Outcome
  {
    if TotalTickets(rs) > MaxTicketsPerPurchase then Fail(MaximumLimitExceeded)
    else if CountOf(rs, INFANT) > CountOf(rs, ADULT) then Fail(InfantsExceedAdults)
    else if (HasType(rs, CHILD) || HasType(rs, INFANT)) && !HasType(rs, ADULT) then Fail(ChildOrInfantWithoutAdult)
    else Pass
  }

  /** Validating the aggregates decides exactly as the request-level rules:
      an absent key reads as zero and is the same as no request of that type. */
  lemma ValidateAggregates(rs: seq<TicketTypeRequest>)
    ensures Validate(TotalTickets(rs), PerType(rs)) == Rules(rs)
  {
    var m := PerType(rs);
    forall t | t in AllTypes ensures GetOrDefault(m, t, 0) == CountOf(rs, t) {
      if !HasType(rs, t) {
        CountOfAbsent(rs, t);
      }
    }
  }

  // ---------------------------------------------------------------------------
  // Seats (the stream sum over the map's entries)

  /** Sum of the map's values over its keys (the keys lie among the three types). */
  function SumValues(m: map<Type, int>): int
  {
    GetOrDefault(m, ADULT, 0) + GetOrDefault(m, CHILD, 0) + GetOrDefault(m, INFANT, 0)
  }

  /** Seats to reserve: the sum over every entry whose key is not INFANT. */
  function SeatsToReserve(perType: map<Type, int>): (seats: int)
    ensures seats == SumValues(perType) - GetOrDefault(perType, INFANT, 0)
  {
    SumValues(perType - {INFANT})
  }

  // ---------------------------------------------------------------------------
  // The purchase

  /** Aggregates, validates, and on success pays the total price and then
      reserves the non-infant seats. `calls` records the calls made to the
      payment and seat-reservation services, in order. */
  method PurchaseTickets(accountId: int, rs: seq<TicketTypeRequest>) returns (outcome: Outcome, calls: seq<Call>)
    ensures outcome == Rules(rs)
    ensures outcome.Fail? ==> calls == []
    ensures outcome.Pass? ==>
      calls == [MakePayment(accountId, TotalPrice(rs)), ReserveSeat(accountId, TotalTickets(rs) - CountOf(rs, INFANT))]
  {
    calls := [];
    var total, perType, price := Aggregate(rs);
    assert perType == PerType(rs);
    ValidateAggregates(rs);
    outcome := Validate(total, perType);
    if outcome.Fail? {
      return;
    }
    calls := calls + [MakePayment(accountId, price)];
    var seats := SeatsToReserve(perType);
    SeatsExcludeInfants(rs);
    calls := calls + [ReserveSeat(accountId, seats)];
  }

  // ---------------------------------------------------------------------------
  // Properties

  /** The total price is the sum of count times fare, and only adults and
      children contribute to it. */
  lemma {:induction false} TotalPriceByType(rs: seq<TicketTypeRequest>)
    ensures TotalPrice(rs) == Sum(rs, ListedPrice)
    ensures TotalPrice(rs) == 20 * CountOf(rs, ADULT) + 10 * CountOf(rs, CHILD)
    decreases |rs|
  {
    SumPointwise(rs, PricePerRequest, ListedPrice);
    if rs != [] {
      TotalPriceByType(rs[..|rs| - 1]);
    }
  }

  /** The running total equals the sum of the per-type counts. */
  lemma {:induction false} TotalIsSumOfCounts(rs: seq<TicketTypeRequest>)
    ensures TotalTickets(rs) == CountOf(rs, ADULT) + CountOf(rs, CHILD) + CountOf(rs, INFANT)
    ensures TotalTickets(rs) == SumValues(PerType(rs))
    decreases |rs|
  {
    if rs != [] {
      TotalIsSumOfCounts(rs[..|rs| - 1]);
    }
    forall t | t in AllTypes ensures GetOrDefault(PerType(rs), t, 0) == CountOf(rs, t) {
      if !HasType(rs, t) {
        CountOfAbsent(rs, t);
      }
    }
  }

  /** The seats reserved are the total tickets minus the infants. */
  lemma SeatsExcludeInfants(rs: seq<TicketTypeRequest>)
    ensures SeatsToReserve(PerType(rs)) == TotalTickets(rs) - CountOf(rs, INFANT)
    ensures SeatsToReserve(PerType(rs)) == CountOf(rs, ADULT) + CountOf(rs, CHILD)
  {
    TotalIsSumOfCounts(rs);
    if !HasType(rs, INFANT) {
      CountOfAbsent(rs, INFANT);
    }
  }

  /** With no negative count, nothing reserved or paid is negative. */
  lemma {:induction false} NonNegativeCounts(rs: seq<TicketTypeRequest>)
    requires forall i :: 0 <= i < |rs| ==> rs[i].noOfTickets >= 0
    ensures TotalTickets(rs) >= 0 && TotalPrice(rs) >= 0
    ensures TotalTickets(rs) - CountOf(rs, INFANT) >= 0
    decreases |rs|
  {
    if rs != [] {
      NonNegativeCounts(rs[..|rs| - 1]);
    }
  }

  lemma HasTypePermutation(a: seq<TicketTypeRequest>, b: seq<TicketTypeRequest>, t: Type)
    requires multiset(a) == multiset(b)
    ensures HasType(a, t) <==> HasType(b, t)
  {
    if HasType(a, t) {
      var i :| 0 <= i < |a| && a[i].ticketType == t;
      assert a[i] in multiset(b);
      var j :| 0 <= j < |b| && b[j] == a[i];
    }
    if HasType(b, t) {
      var j :| 0 <= j < |b| && b[j].ticketType == t;
      assert b[j] in multiset(a);
      var i :| 0 <= i < |a| && a[i] == b[j];
    }
  }

  /** Reordering the requests changes neither the aggregates nor the decision. */
  lemma OrderIndependence(a: seq<TicketTypeRequest>, b: seq<TicketTypeRequest>)
    requires multiset(a) == multiset(b)
    ensures TotalTickets(a) == TotalTickets(b)
    ensures TotalPrice(a) == TotalPrice(b)
    ensures forall t :: CountOf(a, t) == CountOf(b, t)
    ensures PerType(a) == PerType(b)
    ensures Rules(a) == Rules(b)
  {
    SumPermutation(a, b, Tickets);
    SumPermutation(a, b, PricePerRequest);
    forall t
      ensures CountOf(a, t) == CountOf(b, t)
      ensures HasType(a, t) <==> HasType(b, t)
    {
      SumPermutation(a, b, TicketsOfType(t));
      HasTypePermutation(a, b, t);
    }
  }

  /** With positive counts, a type some request has has a positive count. */
  lemma {:induction false} CountOfPresent(rs: seq<TicketTypeRequest>, t: Type)
    requires forall i :: 0 <= i < |rs| ==> rs[i].noOfTickets > 0
    requires HasType(rs, t)
    ensures CountOf(rs, t) > 0
    decreases |rs|
  {
    var p := rs[..|rs| - 1];
    assert forall i :: 0 <= i < |p| ==> p[i] == rs[i];
    if rs[|rs| - 1].ticketType != t {
      assert HasType(p, t);
      CountOfPresent(p, t);
    } else if HasType(p, t) {
      CountOfPresent(p, t);
    } else {
      CountOfAbsent(p, t);
    }
  }

  /** The accompaniment error is reported exactly when the first two rules
      pass, no request is for an adult, some is for a child or an infant, and
      the infant count is not positive. So with positive counts, an infant
      without an adult is always reported by the ratio rule, and the
      accompaniment error means children alone. */
  lemma AccompanimentFailure(rs: seq<TicketTypeRequest>)
    ensures Rules(rs) == Fail(ChildOrInfantWithoutAdult) <==>
      TotalTickets(rs) <= MaxTicketsPerPurchase && !HasType(rs, ADULT)
      && (HasType(rs, CHILD) || HasType(rs, INFANT)) && CountOf(rs, INFANT) <= 0
    ensures (forall i :: 0 <= i < |rs| ==> rs[i].noOfTickets > 0) ==>
      (Rules(rs) == Fail(ChildOrInfantWithoutAdult) <==>
        TotalTickets(rs) <= MaxTicketsPerPurchase && !HasType(rs, ADULT) && HasType(rs, CHILD) && !HasType(rs, INFANT))
  {
    if !HasType(rs, ADULT) {
      CountOfAbsent(rs, ADULT);
    }
    if (forall i :: 0 <= i < |rs| ==> rs[i].noOfTickets > 0) {
      if HasType(rs, INFANT) {
        CountOfPresent(rs, INFANT);
      } else {
        CountOfAbsent(rs, INFANT);
      }
    }
  }
}
