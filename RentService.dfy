/** The rent ledger: a table of rent records keyed by id, the operations that
    create, read, update, delete and record payments against them, and the
    per-property rent statistics. */
module RentService {
  import opened Entities

  datatype Error = NotFound(id: Id) | DuplicateKey(id: Id)

  datatype Result<T> = Success(value: T) | Failure(error: Error)

  /** The fields a caller supplies when creating a rent. */
  datatype CreateRentDto = CreateRentDto(
    tenantId: Id,
    roomId: Id,
    propertyId: Id,
    amount: Money,
    dueDate: Timestamp,
    paidDate: Option<Timestamp>,
    status: Option<RentStatus>,
    amountPaid: Option<Money>,
    paymentMethod: Option<string>,
    transactionId: Option<string>,
    notes: Option<string>
  )

  /** A partial update: every field of the create request, each optional;
      a present field overwrites the stored one. */
  datatype RentPatch = RentPatch(
    tenantId: Option<Id>,
    roomId: Option<Id>,
    propertyId: Option<Id>,
    amount: Option<Money>,
    dueDate: Option<Timestamp>,
    paidDate: Option<Timestamp>,
    status: Option<RentStatus>,
    amountPaid: Option<Money>,
    paymentMethod: Option<string>,
    transactionId: Option<string>,
    notes: Option<string>
  )

  /** The record stored for a create request: the request's fields,
      `amountPaid` defaulting to 0, and always status pending, whatever
      status the request carried. `schemaDefault` is the schema's default
      for both timestamps, `new Date()` evaluated once when the schema class
      is loaded; the store keeps a creation time that is already set and
      gives a new record the same `updatedAt`. */
  function NewRent(dto: CreateRentDto, schemaDefault: Timestamp): (r: Rent)
    ensures r.status == Pending
    ensures dto.amountPaid.Some? ==> r.amountPaid == dto.amountPaid.value
    ensures dto.amountPaid.None? ==> r.amountPaid == 0
    ensures r.amount == dto.amount && r.dueDate == dto.dueDate && r.paidDate == dto.paidDate
    ensures r.tenantId == dto.tenantId && r.roomId == dto.roomId && r.propertyId == dto.propertyId
    ensures r.paymentMethod == dto.paymentMethod && r.transactionId == dto.transactionId
    ensures r.notes == dto.notes
    ensures r.createdAt == schemaDefault && r.updatedAt == schemaDefault
  {
    Rent(dto.tenantId, dto.roomId, dto.propertyId, dto.amount, dto.dueDate, dto.paidDate,
         Pending, dto.amountPaid.GetOr(0), dto.paymentMethod, dto.transactionId, dto.notes,
         schemaDefault, schemaDefault)
  }

  /** The status requested on creation has no effect on the stored record. */
  lemma NewRentIgnoresStatus(dto: CreateRentDto, s: Option<RentStatus>, schemaDefault: Timestamp)
    ensures NewRent(dto.(status := s), schemaDefault) == NewRent(dto, schemaDefault)
  {
  }

  /** The stored record after a partial update at time `now`. */
  function ApplyPatch(r: Rent, p: RentPatch, now: Timestamp): (u: Rent)
    ensures p.tenantId.Some? ==> u.tenantId == p.tenantId.value
    ensures p.tenantId.None? ==> u.tenantId == r.tenantId
    ensures p.roomId.Some? ==> u.roomId == p.roomId.value
    ensures p.roomId.None? ==> u.roomId == r.roomId
    ensures p.propertyId.Some? ==> u.propertyId == p.propertyId.value
    ensures p.propertyId.None? ==> u.propertyId == r.propertyId
    ensures p.amount.Some? ==> u.amount == p.amount.value
    ensures p.amount.None? ==> u.amount == r.amount
    ensures p.dueDate.Some? ==> u.dueDate == p.dueDate.value
    ensures p.dueDate.None? ==> u.dueDate == r.dueDate
    ensures p.paidDate.Some? ==> u.paidDate == p.paidDate
    ensures p.paidDate.None? ==> u.paidDate == r.paidDate
    ensures p.status.Some? ==> u.status == p.status.value
    ensures p.status.None? ==> u.status == r.status
    ensures p.amountPaid.Some? ==> u.amountPaid == p.amountPaid.value
    ensures p.amountPaid.None? ==> u.amountPaid == r.amountPaid
    ensures p.paymentMethod.Some? ==> u.paymentMethod == p.paymentMethod
    ensures p.paymentMethod.None? ==> u.paymentMethod == r.paymentMethod
    ensures p.transactionId.Some? ==> u.transactionId == p.transactionId
    ensures p.transactionId.None? ==> u.transactionId == r.transactionId
    ensures p.notes.Some? ==> u.notes == p.notes
    ensures p.notes.None? ==> u.notes == r.notes
    ensures u.createdAt == r.createdAt && u.updatedAt == now
  {
    Rent(
      p.tenantId.GetOr(r.tenantId),
      p.roomId.GetOr(r.roomId),
      p.propertyId.GetOr(r.propertyId),
      p.amount.GetOr(r.amount),
      p.dueDate.GetOr(r.dueDate),
      p.paidDate.OrElse(r.paidDate),
      p.status.GetOr(r.status),
      p.amountPaid.GetOr(r.amountPaid),
      p.paymentMethod.OrElse(r.paymentMethod),
      p.transactionId.OrElse(r.transactionId),
      p.notes.OrElse(r.notes),
      r.createdAt,
      now)
  }

  /** An update may leave a record whose status contradicts its amounts, so
      the payment status rule is not an invariant of the table. */
  lemma PatchMayBreakStatusRule(r: Rent, now: Timestamp)
    requires r.amount > 0
    ensures var u := ApplyPatch(r, RentPatch(None, None, None, None, None, None, Some(Pending),
                                             Some(r.amount), None, None, None), now);
            u.amountPaid >= u.amount && u.status == Pending
  {
  }

  /** The status a payment leaves, given the amount due and the new
      cumulative amount paid. */
  function StatusAfterPayment(amount: Money, total: Money): (s: RentStatus)
    ensures s == Paid <==> total >= amount
    ensures s == Partial <==> 0 < total < amount
    ensures s == Pending <==> total <= 0 && total < amount
    ensures s != Overdue
  {
    if total >= amount then Paid else if total > 0 then Partial else Pending
  }

  /** A transaction id replaces the stored one only when it is present and
      non-empty (JavaScript's `||` treats "" as absent). */
  predicate Supplied(txn: Option<string>) {
    txn.Some? && txn.value != ""
  }

  /** The fields a payment never touches. */
  predicate SameIdentity(a: Rent, b: Rent) {
    && a.tenantId == b.tenantId && a.roomId == b.roomId && a.propertyId == b.propertyId
    && a.amount == b.amount && a.dueDate == b.dueDate && a.notes == b.notes
    && a.createdAt == b.createdAt
  }

  /** The record after a payment of `paid` at time `now`. */
  function ApplyPayment(r: Rent, paid: Money, paymentMethod: string, txn: Option<string>, now: Timestamp): (u: Rent)
    ensures u.amountPaid == r.amountPaid + paid
    ensures u.status == Paid <==> u.amountPaid >= r.amount
    ensures u.status == Partial <==> 0 < u.amountPaid < r.amount
    ensures u.status == Pending <==> u.amountPaid <= 0 && u.amountPaid < r.amount
    ensures u.paidDate == if u.status == Paid then Some(now) else r.paidDate
    ensures u.paymentMethod == Some(paymentMethod)
    ensures u.transactionId == if Supplied(txn) then txn else r.transactionId
    ensures u.updatedAt == now
    ensures SameIdentity(u, r)
  {
    var total := r.amountPaid + paid;
    var status := StatusAfterPayment(r.amount, total);
    r.(amountPaid := total,
       status := status,
       paymentMethod := Some(paymentMethod),
       transactionId := if Supplied(txn) then txn else r.transactionId,
       paidDate := if status == Paid then Some(now) else r.paidDate,
       updatedAt := now)
  }

  /** Payments accumulate: two payments leave the same amount paid, status and
      payment method as one payment of their sum made with the second's method. */
  lemma TwoPaymentsAsOne(r: Rent, a1: Money, a2: Money, m1: string, m2: string,
                         t1: Option<string>, t2: Option<string>, n1: Timestamp, n2: Timestamp)
    ensures var twice := ApplyPayment(ApplyPayment(r, a1, m1, t1, n1), a2, m2, t2, n2);
            var once := ApplyPayment(r, a1 + a2, m2, t2, n2);
            && twice.amountPaid == once.amountPaid
            && twice.status == once.status
            && twice.paymentMethod == once.paymentMethod
            && SameIdentity(twice, once)
  {
  }

  /** A record that is already fully paid stays paid under a further
      non-negative payment, and its payment date is stamped again. */
  lemma PaidStaysPaid(r: Rent, paid: Money, m: string, txn: Option<string>, now: Timestamp)
    requires paid >= 0
    requires r.amountPaid >= r.amount
    ensures ApplyPayment(r, paid, m, txn, now).status == Paid
    ensures ApplyPayment(r, paid, m, txn, now).paidDate == Some(now)
  {
  }

  /** The keyed table of rent records. */
  class RentTable {
    var rents: map<Id, Rent>

    constructor()
      ensures rents == map[]
    {
      rents := map[];
    }

    /** Stores a new record under `id` (the identifier the store generates);
        `schemaDefault` is the schema's default timestamp. */
    method Create(id: Id, dto: CreateRentDto, schemaDefault: Timestamp) returns (r: Result<Rent>)
      modifies this
      ensures id in old(rents) ==> r == Failure(DuplicateKey(id)) && rents == old(rents)
      ensures id !in old(rents) ==> r == Success(NewRent(dto, schemaDefault)) && rents == old(rents)[id := r.value]
      ensures r.Success? ==> r.value.status == Pending
    {
      if id in rents {
        return Failure(DuplicateKey(id));
      }
      var rent := NewRent(dto, schemaDefault);
      rents := rents[id := rent];
      r := Success(rent);
    }

    method FindOne(id: Id) returns (r: Result<Rent>)
      ensures r.Success? <==> id in rents
      ensures r.Success? ==> r.value == rents[id]
      ensures r.Failure? ==> r.error == NotFound(id)
    {
      if id !in rents {
        return Failure(NotFound(id));
      }
      r := Success(rents[id]);
    }

    method Update(id: Id, patch: RentPatch, now: Timestamp) returns (r: Result<Rent>)
      modifies this
      ensures id !in old(rents) ==> r == Failure(NotFound(id)) && rents == old(rents)
      ensures id in old(rents) ==>
                r == Success(ApplyPatch(old(rents)[id], patch, now)) && rents == old(rents)[id := r.value]
    {
      if id !in rents {
        return Failure(NotFound(id));
      }
      var updated := ApplyPatch(rents[id], patch, now);
      rents := rents[id := updated];
      r := Success(updated);
    }

    method Remove(id: Id) returns (err: Option<Error>)
      modifies this
      ensures id !in old(rents) ==> err == Some(NotFound(id)) && rents == old(rents)
      ensures id in old(rents) ==> err == None && rents == old(rents) - {id}
    {
      if id !in rents {
        return Some(NotFound(id));
      }
      rents := rents - {id};
      err := None;
    }

    /** Adds a payment to the record `id`: the amount paid accumulates, the
        status follows the new total, the payment date is stamped when the
        record ends up paid, and no other record changes. */
    method RecordPayment(id: Id, amountPaid: Money, paymentMethod: string, transactionId: Option<string>,
                         now: Timestamp) returns (r: Result<Rent>)
      modifies this
      ensures id !in old(rents) ==> r == Failure(NotFound(id)) && rents == old(rents)
      ensures id in old(rents) ==>
                && r == Success(ApplyPayment(old(rents)[id], amountPaid, paymentMethod, transactionId, now))
                && rents == old(rents)[id := r.value]
      ensures rents.Keys == old(rents).Keys
      ensures forall k :: k in old(rents) && k != id ==> rents[k] == old(rents)[k]
    {
      if id !in rents {
        return Failure(NotFound(id));
      }
      var updated := ApplyPayment(rents[id], amountPaid, paymentMethod, transactionId, now);
      rents := rents[id := updated];
      r := Success(updated);
    }
  }

  // ---------------------------------------------------------------------
  // Aggregates over a property's rents

  /** Sum of `amount` over the rents. */
  function TotalAmount(rents: seq<Rent>): Money {
    if rents == [] then 0 else TotalAmount(rents[..|rents| - 1]) + rents[|rents| - 1].amount
  }

  /** Sum of `amountPaid` over the rents. */
  function TotalAmountPaid(rents: seq<Rent>): Money {
    if rents == [] then 0 else TotalAmountPaid(rents[..|rents| - 1]) + rents[|rents| - 1].amountPaid
  }

  /** Number of rents with the given status. */
  function CountStatus(rents: seq<Rent>, s: RentStatus): (n: nat)
    ensures n <= |rents|
  {
    if rents == [] then 0
    else CountStatus(rents[..|rents| - 1], s) + (if rents[|rents| - 1].status == s then 1 else 0)
  }

  lemma {:induction false} TotalsAppend(a: seq<Rent>, b: seq<Rent>)
    ensures TotalAmount(a + b) == TotalAmount(a) + TotalAmount(b)
    ensures TotalAmountPaid(a + b) == TotalAmountPaid(a) + TotalAmountPaid(b)
  {
    if b != [] {
      assert (a + b)[..|a + b| - 1] == a + b[..|b| - 1];
      TotalsAppend(a, b[..|b| - 1]);
    } else {
      assert a + b == a;
    }
  }

  /** Every rent has exactly one of the four statuses. */
  lemma {:induction false} StatusCountsPartition(rents: seq<Rent>)
    ensures CountStatus(rents, Pending) + CountStatus(rents, Partial)
          + CountStatus(rents, Paid) + CountStatus(rents, Overdue) == |rents|
  {
    if rents != [] {
      StatusCountsPartition(rents[..|rents| - 1]);
    }
  }

  datatype RentStats = RentStats(
    totalRent: Money,
    totalPaid: Money,
    totalPending: Money,
    pending: nat,
    overdue: nat,
    paid: nat,
    collectionRate: real
  )

  /** Statistics over all rents of one property. Partially paid rents are
      counted in none of `pending`, `overdue` and `paid`. */
  function GetRentStats(rents: seq<Rent>): (st: RentStats)
    ensures st.totalRent == TotalAmount(rents) && st.totalPaid == TotalAmountPaid(rents)
    ensures st.totalPending == st.totalRent - st.totalPaid
    ensures st.pending == CountStatus(rents, Pending) && st.overdue == CountStatus(rents, Overdue)
    ensures st.paid == CountStatus(rents, Paid)
    ensures st.pending + st.overdue + st.paid + CountStatus(rents, Partial) == |rents|
    ensures st.totalRent <= 0 ==> st.collectionRate == 0.0
    ensures st.totalRent > 0 ==> st.collectionRate * (st.totalRent as real) == (st.totalPaid as real) * 100.0
  {
    StatusCountsPartition(rents);
    var totalRent := TotalAmount(rents);
    var totalPaid := TotalAmountPaid(rents);
    RentStats(
      totalRent,
      totalPaid,
      totalRent - totalPaid,
      CountStatus(rents, Pending),
      CountStatus(rents, Overdue),
      CountStatus(rents, Paid),
      Percentage(totalPaid, totalRent))
  }
}
