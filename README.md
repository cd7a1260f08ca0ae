# Cinema tickets: the purchase operation, modelled in Dafny

The model covers the ticket service of the cinema-tickets booking system. A
purchase is an account identifier plus a sequence of ticket type requests.
Each request is a count of tickets of one category: ADULT, CHILD or INFANT.
`purchaseTickets` does three things in order:

1. **Aggregation.** It walks the requests once. On the way it keeps a running
   ticket total, a map from type to summed count, and a running price. The
   price uses the fare table ADULT 20, CHILD 10, INFANT 0.
2. **Validation.** Three business rules are checked in a fixed order, and the
   first one that fails raises its error:
   - at most 20 tickets;
   - no more infants than adults, where an absent key counts as 0;
   - a CHILD or INFANT key needs an ADULT key.
3. **Outbound calls.** One payment call for the total price, then one
   seat-reservation call. The seat count leaves out infants.

Files:

- `domain.dfy` (module `Domain`) holds the category type and the request record.
  It also holds `Sum`, a sum over a request sequence, with lemmas that a sum
  can be split at any point (`SumConcat`) and does not depend on order
  (`SumPermutation`).
- `ticket_service.dfy` (module `TicketService`) holds the fare table, the three
  rule errors and their messages, and the aggregation loop (method `Aggregate`).
  It also holds `Validate`, the seat sum and the purchase itself
  (`PurchaseTickets`). The aggregates are specified over the whole request
  sequence by `TotalTickets`, `CountOf`, `TotalPrice`, `HasType` and `PerType`.
  `Rules` states the three rules directly over the requests. The lemmas tie
  all of these together.
- `scenarios.dfy` (module `Scenarios`) holds the scenarios of the service's
  test suite as client methods of `PurchaseTickets`. It also holds the edge
  cases the code lets through.

The two external services are modelled only as the call log that
`PurchaseTickets` returns: `MakePayment(account, amount)` and
`ReserveSeat(account, seats)`. An `InvalidPurchaseException` is the
`Fail(error)` outcome, with one error variant per message. Together these
let the model state the call order, and that a failed purchase makes no
call at all.

Behaviour of the code worth knowing (the model follows the code):

- The accompaniment rule tests whether a type is a **key** of the per-type
  map. It does not test whether the count is positive. A request for zero
  adults together with one child therefore passes
  (`Scenarios.PurchaseChildWithZeroAdults`).
- Counts are never checked for being positive. A negative count lowers the
  payment and the seat count, and both can go below zero
  (`Scenarios.PurchaseNegativeCount`).
- An empty request list is accepted. It pays 0 and reserves 0 seats
  (`Scenarios.PurchaseNothing`).
- One child plus two infants with no adult is rejected by the infant/adult
  ratio rule, because that rule is checked before the accompaniment rule
  (`Scenarios.PurchaseChildAndInfantsAlone`). The test for this case in
  src/test/java/uk/gov/dwp/uc/pairtest/TicketServiceImplTest.java:101-116 is
  named `...WithoutAnAdultTicket`, but it expects only some
  `InvalidPurchaseException`, so it passes with the ratio error.
  `AccompanimentFailure` shows the general picture: when all counts are
  positive, the accompaniment error arises only for children without adults.
- The tests at TicketServiceImplTest.java:43-68 expect an
  `IllegalArgumentException` for a null account or a null request. The code
  has no such check and never raises that exception. In the model both
  inputs are non-null by their types.

## Model

| member | source | states |
|---|---|---|
| TicketService.FareTableComplete | src/main/java/uk/gov/dwp/uc/pairtest/TicketServiceImpl.java:24-28 | every model type is in the fare table, so the zero default of the lookup is never used for one, and the table gives ADULT 20, CHILD 10, INFANT 0 |
| TicketService.PricePerRequest | src/main/java/uk/gov/dwp/uc/pairtest/TicketServiceImpl.java:115-118 | the price of a request line is its count times the published fare of its type; an infant line costs 0 |
| TicketService.Aggregate | src/main/java/uk/gov/dwp/uc/pairtest/TicketServiceImpl.java:44-57 | after the loop: the total is the sum of all counts, and the price is the sum of the line prices. A type is a key of the map iff some request has that type, and its value is the summed count of those requests |
| TicketService.PerTypeStep | src/main/java/uk/gov/dwp/uc/pairtest/TicketServiceImpl.java:54-55 | one `compute` step (add to the entry or create it) turns the per-type map of a prefix into the per-type map of the prefix extended by one request |
| TicketService.CountOfAbsent | src/main/java/uk/gov/dwp/uc/pairtest/TicketServiceImpl.java:95-96 | a type with no request has summed count 0, which is the `getOrDefault` default |
| TicketService.Validate | src/main/java/uk/gov/dwp/uc/pairtest/TicketServiceImpl.java:87-107 | a total over 20 always gives the maximum-limit error, whatever the map holds; within the limit, more infants than adults (absent keys read as 0) gives the ratio error, whatever the keys are. Validation passes iff the total is at most 20, infants (default 0) do not exceed adults (default 0), and ADULT is a key or neither CHILD nor INFANT is |
| TicketService.MessagesDistinct | src/main/java/uk/gov/dwp/uc/pairtest/TicketServiceImpl.java:91-106 | each of the three rule violations carries its own exception text (the texts of lines 92, 100 and 106), and two violations have the same text only if they are the same violation |
| TicketService.ValidateAggregates | src/main/java/uk/gov/dwp/uc/pairtest/TicketServiceImpl.java:91-106 | validating the aggregated total and map gives the same outcome as the three rules stated over the requests, in the order max, ratio, accompaniment, with key presence read as "some request has this type" |
| TicketService.AccompanimentFailure | src/main/java/uk/gov/dwp/uc/pairtest/TicketServiceImpl.java:95-106 | the accompaniment error is raised iff the total is at most 20, no request is ADULT, some is CHILD or INFANT, and the infant count is not positive. With positive counts it is raised iff there are children, no infants and no adults |
| TicketService.CountOfPresent | src/main/java/uk/gov/dwp/uc/pairtest/TicketServiceImpl.java:53-55 | when every count is positive, a type that some request has has a positive summed count |
| TicketService.SeatsToReserve | src/main/java/uk/gov/dwp/uc/pairtest/TicketServiceImpl.java:69-72 | the seats are the sum of all map values minus the INFANT value (0 when INFANT is absent) |
| TicketService.SeatsExcludeInfants | src/main/java/uk/gov/dwp/uc/pairtest/TicketServiceImpl.java:69-72 | on the aggregated map, the seats reserved are the total tickets minus the infant count, which is the adult count plus the child count |
| TicketService.PurchaseTickets | src/main/java/uk/gov/dwp/uc/pairtest/TicketServiceImpl.java:42-78 | the outcome is the first failing rule, or Pass. On failure no call is made. On success the calls are exactly one payment of the total price and then one reservation of total minus infants, both for the given account |
| TicketService.TotalPriceByType | src/main/java/uk/gov/dwp/uc/pairtest/TicketServiceImpl.java:52-57 | the total price is the sum over requests of count times fare, which equals 20 times the adult count plus 10 times the child count |
| TicketService.TotalIsSumOfCounts | src/main/java/uk/gov/dwp/uc/pairtest/TicketServiceImpl.java:47-55 | the running ticket total equals the sum of the three per-type counts, and so the sum of all values in the per-type map |
| TicketService.NonNegativeCounts | src/main/java/uk/gov/dwp/uc/pairtest/TicketServiceImpl.java:53-56 | if no count is negative, then the total, the price and the seat count are not negative either (the code does not enforce this premise) |
| TicketService.HasTypePermutation | src/main/java/uk/gov/dwp/uc/pairtest/TicketServiceImpl.java:54-55 | whether a type becomes a key does not depend on the order of the requests |
| TicketService.OrderIndependence | src/main/java/uk/gov/dwp/uc/pairtest/TicketServiceImpl.java:52-57 | reordering the requests changes neither the total, the price, any per-type count, the per-type map nor the validation outcome |
| Domain.SumPermutation | src/main/java/uk/gov/dwp/uc/pairtest/TicketServiceImpl.java:52-57 | an accumulated sum over the requests is the same for every permutation of them |
| Scenarios.PurchaseAdultsAndChild | src/test/java/uk/gov/dwp/uc/pairtest/TicketServiceImplTest.java:26-41 | 2 ADULT + 1 CHILD passes; the calls are a payment of 50 then a reservation of 3 seats, once each |
| Scenarios.PurchaseOverLimit | src/test/java/uk/gov/dwp/uc/pairtest/TicketServiceImplTest.java:70-83 | 21 ADULT fails with the maximum-limit error and makes no call |
| Scenarios.PurchaseTooManyInfants | src/test/java/uk/gov/dwp/uc/pairtest/TicketServiceImplTest.java:85-99 | 1 ADULT + 2 INFANT fails with the infants-exceed-adults error and makes no call |
| Scenarios.PurchaseChildAndInfantsAlone | src/test/java/uk/gov/dwp/uc/pairtest/TicketServiceImplTest.java:101-116 | 1 CHILD + 2 INFANT fails and makes no call; the error is the ratio error, because that rule is checked first |
| Scenarios.PurchaseChildAlone | src/main/java/uk/gov/dwp/uc/pairtest/TicketServiceImpl.java:102-106 | a single CHILD request fails with the accompaniment error and makes no call |
| Scenarios.PurchaseChildWithZeroAdults | src/main/java/uk/gov/dwp/uc/pairtest/TicketServiceImpl.java:103-105 | ADULT x 0 + CHILD x 1 passes (ADULT is a key), pays 10 and reserves 1 seat |
| Scenarios.PurchaseNegativeCount | src/main/java/uk/gov/dwp/uc/pairtest/domain/TicketTypeRequest.java:6 | ADULT x 1 + CHILD x -3 passes, pays -10 and reserves -2 seats: counts are not checked for sign |
| Scenarios.PurchaseNothing | src/main/java/uk/gov/dwp/uc/pairtest/TicketServiceImpl.java:42-57 | an empty request list passes, pays 0 and reserves 0 seats |

## Left out

- Logging through `java.util.logging.Logger`: it has no effect on any result.
- The behaviour of the payment and seat-reservation services: they are third-party code that is not part of this model. They appear only as entries in the returned call log. A failure inside either service, which would propagate to the caller after payment may already have happened, is not modelled.
- Null inputs: a null account identifier would fail with a `NullPointerException` when it is unboxed for the payment call, and a null request with one at the first access to it. The model's types exclude null. The illegal-argument error the test suite expects for these inputs is raised nowhere in the code, so the model does not raise it either.
- A request whose `type` is null: the code accepts it without any exception, and the model's `Type` cannot express it. Its count is added to the running total (TicketServiceImpl.java:53), so it counts toward the 20-ticket limit. It becomes a null key of the per-type map (lines 54-55). It is priced by the zero default of the fare lookup (line 116), the default that `FareTableComplete` shows unused for every model type. It adds no seats, because the seat sum (`SeatsToReserve`) drops a null key through `Optional.ofNullable` (lines 70-72). It does not count as an adult, child or infant for the two other rules.
- Java's 32-bit `int` overflow in the running total, the per-type counts and the price, and the `BigDecimal.intValue()` conversion of the fares. The model uses unbounded integers. The fares are small constants, so the conversion is exact.
- `AtomicInteger` and `HashMap` as machinery: they are local accumulators here, modelled as plain variables and a Dafny `map`. Nothing runs concurrently.
- The bootstrap application (`TicketPaymentApplication.java`) and the `TicketService` interface: not part of this model. The first is demo wiring; the second only declares the signature that `PurchaseTickets` implements.
