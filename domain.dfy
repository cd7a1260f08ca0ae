/** Ticket type requests: the immutable value a purchase is made of,
    a count of tickets of one passenger category. */
module Domain {

  /** The closed set of passenger categories. */
  datatype Type = ADULT | CHILD | INFANT

  /** Every category, once each. */
  const AllTypes: set<Type> := {ADULT, CHILD, INFANT}

  /** One request line. The count is a plain (possibly zero or negative)
      integer: the record does not restrict it. */
  datatype TicketTypeRequest = TicketTypeRequest(noOfTickets: int, ticketType: Type)

  lemma AllTypesComplete(t: Type)
    ensures t in AllTypes
  {
  }

  /** Sum of `f` over a sequence of requests, accumulated from the left
      (the last request is added last), as a running total is. */
  function Sum(rs: seq<TicketTypeRequest>, f: TicketTypeRequest -> int): int
    decreases |rs|
  {
    if rs == [] then 0 else Sum(rs[..|rs| - 1], f) + f(rs[|rs| - 1])
  }

  lemma {:induction false} SumConcat(a: seq<TicketTypeRequest>, b: seq<TicketTypeRequest>, f: TicketTypeRequest -> int)
    ensures Sum(a + b, f) == Sum(a, f) + Sum(b, f)
    decreases |b|
  {
    if b == [] {
      assert a + b == a;
    } else {
      var b' := b[..|b| - 1];
      assert (a + b)[..|a + b| - 1] == a + b';
      SumConcat(a, b', f);
    }
  }

  /** Removing one element at position j of b removes one occurrence from its multiset. */
  lemma MultisetRemoveAt(b: seq<TicketTypeRequest>, j: nat)
    requires j < |b|
    ensures multiset(b[..j] + b[j + 1..]) == multiset(b) - multiset{b[j]}
  {
    assert b == b[..j] + [b[j]] + b[j + 1..];
    assert multiset(b) == multiset(b[..j]) + multiset{b[j]} + multiset(b[j + 1..]);
  }

  /** A sum over the requests does not depend on their order. */
  lemma {:induction false} SumPermutation(a: seq<TicketTypeRequest>, b: seq<TicketTypeRequest>, f: TicketTypeRequest -> int)
    requires multiset(a) == multiset(b)
    ensures Sum(a, f) == Sum(b, f)
    decreases |a|
  {
    if a == [] {
      assert |b| == |multiset(b)| == 0;
    } else {
      var x := a[|a| - 1];
      var a' := a[..|a| - 1];
      assert x in multiset(b);
      var j :| 0 <= j < |b| && b[j] == x;
      var left, right := b[..j], b[j + 1..];
      MultisetRemoveAt(a, |a| - 1);
      assert a[..|a| - 1] + a[|a|..] == a';
      MultisetRemoveAt(b, j);
      SumPermutation(a', left + right, f);
      assert b == left + [x] + right;
      SumConcat(left + [x], right, f);
      SumConcat(left, [x], f);
      SumConcat(left, right, f);
      assert Sum([x], f) == f(x) by {
        assert [x][..0] == [];
      }
    }
  }

  /** Two functions that agree on every request have equal sums. */
  lemma {:induction false} SumPointwise(rs: seq<TicketTypeRequest>, f: TicketTypeRequest -> int, g: TicketTypeRequest -> int)
    requires forall r :: f(r) == g(r)
    ensures Sum(rs, f) == Sum(rs, g)
    decreases |rs|
  {
    if rs != [] {
      SumPointwise(rs[..|rs| - 1], f, g);
    }
  }
}
