/**
 * The establishment/transaction ledger: the local repositories of
 * establishments and transactions (with the cascade that removes an
 * establishment's transactions), the per-establishment balances and the
 * dashboard totals.
 */
module Ledger {
  import opened Wrappers
  import opened Collections

  /** A customer location. Instants are integers: the source only ever compares their times. */
  datatype Establishment = Establishment(
    id: string,
    name: string,
    address: string,
    contactName: string,
    contactPhone: string,
    contactEmail: string,
    notes: Option<string>,
    createdAt: int,
    updatedAt: int)

  datatype TransactionType = Delivery | Payment

  datatype PaymentStatus = Paid | Credit

  /** A delivery to or a payment by an establishment; amounts are in cents. */
  datatype Transaction = Transaction(
    id: string,
    establishmentId: string,
    employeeId: string,
    productId: Option<string>,
    quantity: Option<int>,
    kind: TransactionType,
    amount: int,
    date: string,
    paymentStatus: PaymentStatus,
    notes: Option<string>,
    createdAt: int)

  /**
   * The fields handed to addEstablishment. An `id` may come along (the
   * establishment form passes the id the remote store assigned); it is spread
   * after the generated one, so it wins. Timestamps that come along are
   * overwritten, so they are not part of the input.
   */
  datatype EstablishmentInput = EstablishmentInput(
    id: Option<string>,
    name: string,
    address: string,
    contactName: string,
    contactPhone: string,
    contactEmail: string,
    notes: Option<string>)

  /**
   * A partial establishment for updateEstablishment: `None` is a property the
   * patch does not carry. For the optional `notes`, `Some(None)` is a property
   * present with value undefined, which the spread copies.
   */
  datatype EstablishmentPatch = EstablishmentPatch(
    id: string,
    name: Option<string>,
    address: Option<string>,
    contactName: Option<string>,
    contactPhone: Option<string>,
    contactEmail: Option<string>,
    notes: Option<Option<string>>,
    createdAt: Option<int>)

  /** The fields handed to addTransaction; a carried `id` wins over the generated one. */
  datatype TransactionInput = TransactionInput(
    id: Option<string>,
    establishmentId: string,
    employeeId: string,
    productId: Option<string>,
    quantity: Option<int>,
    kind: TransactionType,
    amount: int,
    date: string,
    paymentStatus: PaymentStatus,
    notes: Option<string>)

  /** An establishment together with its transactions and its balance. */
  datatype EstablishmentWithTransactions = EstablishmentWithTransactions(
    establishment: Establishment,
    transactions: seq<Transaction>,
    balance: int)

  datatype DashboardStats = DashboardStats(
    totalEstablishments: nat,
    totalDeliveries: int,
    totalPayments: int,
    totalOutstanding: int,
    recentTransactions: seq<Transaction>)

  // ---------------------------------------------------------------------
  // Predicates used as filter and find callbacks

  function EstablishmentIdIs(id: string): Establishment -> bool {
    (e: Establishment) => e.id == id
  }

  function EstablishmentIdIsNot(id: string): Establishment -> bool {
    (e: Establishment) => e.id != id
  }

  function TransactionIdIsNot(id: string): Transaction -> bool {
    (t: Transaction) => t.id != id
  }

  function BelongsTo(establishmentId: string): Transaction -> bool {
    (t: Transaction) => t.establishmentId == establishmentId
  }

  function NotBelongingTo(establishmentId: string): Transaction -> bool {
    (t: Transaction) => t.establishmentId != establishmentId
  }

  function CreatedAtIs(instant: int): Transaction -> bool {
    (t: Transaction) => t.createdAt == instant
  }

  predicate IsDelivery(t: Transaction) {
    t.kind == Delivery
  }

  predicate IsPayment(t: Transaction) {
    t.kind == Payment
  }

  predicate HasEstablishment(es: seq<Establishment>, id: string) {
    exists i :: 0 <= i < |es| && es[i].id == id
  }

  predicate HasTransaction(ts: seq<Transaction>, id: string) {
    exists i :: 0 <= i < |ts| && ts[i].id == id
  }

  /** No two establishments share an id. */
  predicate UniqueIds(es: seq<Establishment>) {
    forall i, j :: 0 <= i < j < |es| ==> es[i].id != es[j].id
  }

  // ---------------------------------------------------------------------
  // Reads

  /** getEstablishment: the first establishment with the id, if any. */
  function GetEstablishment(es: seq<Establishment>, id: string): (r: Option<Establishment>)
    ensures r.None? <==> !HasEstablishment(es, id)
    ensures r.Some? ==> exists i :: 0 <= i < |es| && es[i] == r.value && r.value.id == id &&
                                    forall j :: 0 <= j < i ==> es[j].id != id
  {
    Find(es, EstablishmentIdIs(id))
  }

  /** getTransactionsByEstablishment: that establishment's transactions, in stored order. */
  function TransactionsOf(ts: seq<Transaction>, establishmentId: string): (r: seq<Transaction>)
    ensures forall i :: 0 <= i < |r| ==> r[i].establishmentId == establishmentId && r[i] in ts
    ensures forall i :: 0 <= i < |ts| && ts[i].establishmentId == establishmentId ==> ts[i] in r
  {
    FilterMembers(ts, BelongsTo(establishmentId));
    Filter(ts, BelongsTo(establishmentId))
  }

  /** The updated record of updateEstablishment: the patch spread over the old record. */
  function MergeEstablishment(e: Establishment, patch: EstablishmentPatch, now: int): (r: Establishment)
    ensures r.id == patch.id && r.updatedAt == now
    ensures patch.name.Some? ==> r.name == patch.name.value
    ensures patch.name.None? ==> r.name == e.name
    ensures patch.address.Some? ==> r.address == patch.address.value
    ensures patch.address.None? ==> r.address == e.address
    ensures patch.contactName.Some? ==> r.contactName == patch.contactName.value
    ensures patch.contactName.None? ==> r.contactName == e.contactName
    ensures patch.contactPhone.Some? ==> r.contactPhone == patch.contactPhone.value
    ensures patch.contactPhone.None? ==> r.contactPhone == e.contactPhone
    ensures patch.contactEmail.Some? ==> r.contactEmail == patch.contactEmail.value
    ensures patch.contactEmail.None? ==> r.contactEmail == e.contactEmail
    ensures patch.notes.Some? ==> r.notes == patch.notes.value
    ensures patch.notes.None? ==> r.notes == e.notes
    ensures patch.createdAt.Some? ==> r.createdAt == patch.createdAt.value
    ensures patch.createdAt.None? ==> r.createdAt == e.createdAt
  {
    Establishment(
      patch.id,
      patch.name.GetOr(e.name),
      patch.address.GetOr(e.address),
      patch.contactName.GetOr(e.contactName),
      patch.contactPhone.GetOr(e.contactPhone),
      patch.contactEmail.GetOr(e.contactEmail),
      patch.notes.GetOr(e.notes),
      patch.createdAt.GetOr(e.createdAt),
      now)
  }

  /** A patch that carries only the record's own id refreshes updatedAt and nothing else. */
  lemma IdOnlyPatchRefreshes(e: Establishment, now: int)
    ensures MergeEstablishment(e, EstablishmentPatch(e.id, None, None, None, None, None, None, None), now) ==
            e.(updatedAt := now)
  {
  }

  /** Applying the same patch again at the same instant changes nothing more. */
  lemma MergeEstablishmentIsIdempotent(e: Establishment, patch: EstablishmentPatch, now: int)
    ensures MergeEstablishment(MergeEstablishment(e, patch, now), patch, now) == MergeEstablishment(e, patch, now)
  {
  }

  // ---------------------------------------------------------------------
  // The local repositories

  /**
   * The two collections of the local store. Every operation replaces a
   * whole collection, as the source rewrites the stored array.
   */
  class LedgerStore {
    var establishments: seq<Establishment>
    var transactions: seq<Transaction>

    /** An empty store: a missing stored array reads as []. */
    constructor ()
      ensures establishments == [] && transactions == []
    {
      establishments := [];
      transactions := [];
    }

    /** addEstablishment: appends the new record and returns it. */
    method AddEstablishment(input: EstablishmentInput, freshId: string, now: int) returns (e: Establishment)
      modifies this
      ensures establishments == old(establishments) + [e]
      ensures transactions == old(transactions)
      ensures e.id == input.id.GetOr(freshId)
      ensures e.name == input.name && e.address == input.address && e.notes == input.notes
      ensures e.contactName == input.contactName && e.contactPhone == input.contactPhone
      ensures e.contactEmail == input.contactEmail
      ensures e.createdAt == now && e.updatedAt == now
      ensures UniqueIds(old(establishments)) && !HasEstablishment(old(establishments), e.id) ==>
                UniqueIds(establishments)
    {
      e := Establishment(input.id.GetOr(freshId), input.name, input.address, input.contactName,
                         input.contactPhone, input.contactEmail, input.notes, now, now);
      establishments := establishments + [e];
    }

    /**
     * updateEstablishment: merges the patch into the first record with the
     * patch's id; an unknown id changes nothing.
     */
    method UpdateEstablishment(patch: EstablishmentPatch, now: int) returns (r: Option<Establishment>)
      modifies this
      ensures transactions == old(transactions)
      ensures !HasEstablishment(old(establishments), patch.id) ==>
                r.None? && establishments == old(establishments)
      ensures HasEstablishment(old(establishments), patch.id) ==>
                var i := FirstIndex(old(establishments), EstablishmentIdIs(patch.id)).value;
                r == Some(MergeEstablishment(old(establishments)[i], patch, now)) &&
                establishments == old(establishments)[i := r.value]
      ensures r.Some? ==> r.value.id == patch.id && r.value.updatedAt == now
      ensures forall i :: 0 <= i < |establishments| ==> establishments[i].id == old(establishments)[i].id
    {
      var index := FirstIndex(establishments, EstablishmentIdIs(patch.id));
      if index.None? {
        return None;
      }
      var updated := MergeEstablishment(establishments[index.value], patch, now);
      establishments := establishments[index.value := updated];
      r := Some(updated);
    }

    /**
     * deleteEstablishment: removes every record with the id and, when one was
     * removed, every transaction of that establishment.
     */
    method DeleteEstablishment(id: string) returns (removed: bool)
      modifies this
      ensures removed <==> HasEstablishment(old(establishments), id)
      ensures !removed ==> establishments == old(establishments) && transactions == old(transactions)
      ensures removed ==> establishments == Filter(old(establishments), EstablishmentIdIsNot(id))
      ensures removed ==> transactions == Filter(old(transactions), NotBelongingTo(id))
    {
      var remaining := Filter(establishments, EstablishmentIdIsNot(id));
      FilterKeepsLength(establishments, EstablishmentIdIsNot(id));
      if |establishments| == |remaining| {
        return false;
      }
      establishments := remaining;
      transactions := Filter(transactions, NotBelongingTo(id));
      removed := true;
    }

    /** addTransaction: appends the new record and returns it. */
    method AddTransaction(input: TransactionInput, freshId: string, now: int) returns (t: Transaction)
      modifies this
      ensures transactions == old(transactions) + [t]
      ensures establishments == old(establishments)
      ensures t.id == input.id.GetOr(freshId)
      ensures t.establishmentId == input.establishmentId && t.employeeId == input.employeeId
      ensures t.productId == input.productId && t.quantity == input.quantity
      ensures t.kind == input.kind && t.amount == input.amount && t.date == input.date
      ensures t.paymentStatus == input.paymentStatus && t.notes == input.notes
      ensures t.createdAt == now
    {
      t := Transaction(input.id.GetOr(freshId), input.establishmentId, input.employeeId,
                       input.productId, input.quantity, input.kind, input.amount, input.date,
                       input.paymentStatus, input.notes, now);
      transactions := transactions + [t];
    }

    /** deleteTransaction: removes every transaction with the id. */
    method DeleteTransaction(id: string) returns (removed: bool)
      modifies this
      ensures removed <==> HasTransaction(old(transactions), id)
      ensures !removed ==> transactions == old(transactions)
      ensures removed ==> transactions == Filter(old(transactions), TransactionIdIsNot(id))
      ensures establishments == old(establishments)
    {
      var remaining := Filter(transactions, TransactionIdIsNot(id));
      FilterKeepsLength(transactions, TransactionIdIsNot(id));
      if |transactions| == |remaining| {
        return false;
      }
      transactions := remaining;
      removed := true;
    }
  }

  // ---------------------------------------------------------------------
  // Balances

  /** What a transaction does to its establishment's balance: deliveries add, payments subtract. */
  function Signed(t: Transaction): (r: int)
    ensures IsDelivery(t) ==> r == t.amount
    ensures IsPayment(t) ==> r == -t.amount
  {
    if t.kind == Delivery then t.amount else -t.amount
  }

  /** The balance reduce of getEstablishmentsWithTransactions, a left fold starting at 0. */
  function Balance(ts: seq<Transaction>): (r: int)
    ensures (forall i :: 0 <= i < |ts| ==> IsDelivery(ts[i])) ==> r == SumAmounts(ts)
    ensures (forall i :: 0 <= i < |ts| ==> IsPayment(ts[i])) ==> r == -SumAmounts(ts)
  {
    if ts == [] then 0 else Balance(ts[..|ts| - 1]) + Signed(ts[|ts| - 1])
  }

  /** The `reduce((sum, t) => sum + t.amount, 0)` of the dashboard totals. */
  function SumAmounts(ts: seq<Transaction>): (r: int)
    ensures (forall i :: 0 <= i < |ts| ==> ts[i].amount >= 0) ==> r >= 0
  {
    if ts == [] then 0 else SumAmounts(ts[..|ts| - 1]) + ts[|ts| - 1].amount
  }

  lemma {:induction false} BalanceAppend(a: seq<Transaction>, b: seq<Transaction>)
    ensures Balance(a + b) == Balance(a) + Balance(b)
  {
    if b != [] {
      assert (a + b)[..|a + b| - 1] == a + b[..|b| - 1];
      assert (a + b)[|a + b| - 1] == b[|b| - 1];
      BalanceAppend(a, b[..|b| - 1]);
    } else {
      assert a + b == a;
    }
  }

  lemma {:induction false} SumAmountsAppend(a: seq<Transaction>, b: seq<Transaction>)
    ensures SumAmounts(a + b) == SumAmounts(a) + SumAmounts(b)
  {
    if b != [] {
      assert (a + b)[..|a + b| - 1] == a + b[..|b| - 1];
      assert (a + b)[|a + b| - 1] == b[|b| - 1];
      SumAmountsAppend(a, b[..|b| - 1]);
    } else {
      assert a + b == a;
    }
  }

  /** A balance does not depend on the order of the transactions. */
  lemma {:induction false} BalanceIsOrderIndependent(a: seq<Transaction>, b: seq<Transaction>)
    requires multiset(a) == multiset(b)
    ensures Balance(a) == Balance(b)
  {
    if a != [] {
      var init, last := a[..|a| - 1], a[|a| - 1];
      assert a == init + [last];
      assert last in multiset(b);
      var j :| 0 <= j < |b| && b[j] == last;
      assert b == b[..j] + [last] + b[j + 1..];
      var rest := b[..j] + b[j + 1..];
      assert multiset(b) == multiset(b[..j]) + multiset{last} + multiset(b[j + 1..]);
      assert multiset(a) == multiset(init) + multiset{last};
      assert multiset(rest) == multiset(b[..j]) + multiset(b[j + 1..]);
      assert multiset(init) == multiset(a) - multiset{last};
      assert multiset(rest) == multiset(b) - multiset{last};
      BalanceIsOrderIndependent(init, rest);
      BalanceAppend(b[..j], b[j + 1..]);
      BalanceAppend(b[..j] + [last], b[j + 1..]);
      BalanceAppend(b[..j], [last]);
    }
  }

  /** A balance is the delivered total less the paid total. */
  lemma {:induction false} BalanceIsDeliveriesLessPayments(ts: seq<Transaction>)
    ensures Balance(ts) == SumAmounts(Filter(ts, IsDelivery)) - SumAmounts(Filter(ts, IsPayment))
  {
    if ts != [] {
      var init, last := ts[..|ts| - 1], ts[|ts| - 1];
      assert ts == init + [last];
      BalanceIsDeliveriesLessPayments(init);
      FilterConcat(init, [last], IsDelivery);
      FilterConcat(init, [last], IsPayment);
      SumAmountsAppend(Filter(init, IsDelivery), Filter([last], IsDelivery));
      SumAmountsAppend(Filter(init, IsPayment), Filter([last], IsPayment));
      SignedSplits(last);
    }
  }

  /** A single transaction's signed amount is its delivered part less its paid part. */
  lemma SignedSplits(t: Transaction)
    ensures Signed(t) == SumAmounts(Filter([t], IsDelivery)) - SumAmounts(Filter([t], IsPayment))
  {
    assert [t][1..] == [];
    if t.kind == Delivery {
      assert Filter([t], IsDelivery) == [t] && Filter([t], IsPayment) == [];
    } else {
      assert Filter([t], IsDelivery) == [] && Filter([t], IsPayment) == [t];
    }
  }

  /** The worked example: deliveries of 500 and 100 and a payment of 200 leave 400 owing. */
  lemma BalanceExample(e: string, d1: Transaction, p: Transaction, d2: Transaction)
    requires d1.kind == Delivery && d1.amount == 500 && d1.establishmentId == e
    requires p.kind == Payment && p.amount == 200 && p.establishmentId == e
    requires d2.kind == Delivery && d2.amount == 100 && d2.establishmentId == e
    ensures Balance(TransactionsOf([d1, p, d2], e)) == 400
  {
    var ts := [d1, p, d2];
    FilterKeepsLength(ts, BelongsTo(e));
    assert TransactionsOf(ts, e) == ts;
    assert ts[..2] == [d1, p] && [d1, p][..1] == [d1] && [d1][..0] == [];
    assert Balance([d1]) == 500;
    assert Balance([d1, p]) == 300;
  }

  /** One row of getEstablishmentsWithTransactions. */
  function WithTransactions(e: Establishment, ts: seq<Transaction>): (row: EstablishmentWithTransactions)
    ensures row.establishment == e
    ensures row.transactions == TransactionsOf(ts, e.id)
    ensures row.balance == SumAmounts(Filter(row.transactions, IsDelivery)) -
                           SumAmounts(Filter(row.transactions, IsPayment))
  {
    var mine := TransactionsOf(ts, e.id);
    BalanceIsDeliveriesLessPayments(mine);
    EstablishmentWithTransactions(e, mine, Balance(mine))
  }

  /** getEstablishmentsWithTransactions: one row per establishment, in stored order. */
  function EstablishmentsWithTransactions(es: seq<Establishment>, ts: seq<Transaction>)
    : (rows: seq<EstablishmentWithTransactions>)
    ensures |rows| == |es|
    ensures forall i :: 0 <= i < |es| ==> rows[i] == WithTransactions(es[i], ts)
  {
    Map(es, RowOf(ts))
  }

  /** The map callback of getEstablishmentsWithTransactions. */
  function RowOf(ts: seq<Transaction>): Establishment -> EstablishmentWithTransactions {
    (e: Establishment) => WithTransactions(e, ts)
  }

  /** An establishment without transactions has balance 0. */
  lemma NoTransactionsNoBalance(e: Establishment, ts: seq<Transaction>)
    requires forall i :: 0 <= i < |ts| ==> ts[i].establishmentId != e.id
    ensures WithTransactions(e, ts).transactions == []
    ensures WithTransactions(e, ts).balance == 0
  {
    FilterNone(ts, BelongsTo(e.id));
  }

  // ---------------------------------------------------------------------
  // Dashboard

  /** Newest first: createdAt never increases along the sequence. */
  predicate NewestFirst(ts: seq<Transaction>) {
    forall i, j :: 0 <= i < j < |ts| ==> ts[i].createdAt >= ts[j].createdAt
  }

  /**
   * Inserts `t` into a newest-first sequence of transactions that came before
   * it in the input, after every one at least as recent: ties keep input order.
   */
  function InsertByRecency(sorted: seq<Transaction>, t: Transaction): (r: seq<Transaction>)
    ensures |r| == |sorted| + 1
  {
    if sorted == [] then [t]
    else if sorted[0].createdAt >= t.createdAt then [sorted[0]] + InsertByRecency(sorted[1..], t)
    else [t] + sorted
  }

  /** Inserting adds exactly the one transaction. */
  lemma {:induction false} InsertByRecencyAddsOne(sorted: seq<Transaction>, t: Transaction)
    ensures multiset(InsertByRecency(sorted, t)) == multiset(sorted) + multiset{t}
  {
    if sorted != [] && sorted[0].createdAt >= t.createdAt {
      assert sorted == [sorted[0]] + sorted[1..];
      InsertByRecencyAddsOne(sorted[1..], t);
    }
  }

  /** Every element of `ts` is no newer than `instant`. */
  predicate NoNewerThan(ts: seq<Transaction>, instant: int) {
    forall i :: 0 <= i < |ts| ==> ts[i].createdAt <= instant
  }

  lemma {:induction false} InsertByRecencyKeepsOrder(sorted: seq<Transaction>, t: Transaction)
    requires NewestFirst(sorted)
    ensures NewestFirst(InsertByRecency(sorted, t))
    ensures forall instant :: NoNewerThan(sorted, instant) && t.createdAt <= instant ==>
              NoNewerThan(InsertByRecency(sorted, t), instant)
  {
    if sorted != [] && sorted[0].createdAt >= t.createdAt {
      var head, tail := sorted[0], sorted[1..];
      InsertByRecencyKeepsOrder(tail, t);
      var rest := InsertByRecency(tail, t);
      assert NoNewerThan(tail, head.createdAt);
      assert NoNewerThan(rest, head.createdAt);
      forall instant | NoNewerThan(sorted, instant) && t.createdAt <= instant
        ensures NoNewerThan([head] + rest, instant)
      {
        assert NoNewerThan(tail, instant);
      }
    }
  }

  /**
   * `[...ts].sort((a, b) => b.createdAt - a.createdAt)`: a stable sort
   * (Array.prototype.sort is stable), newest first.
   */
  function SortByRecency(ts: seq<Transaction>): (r: seq<Transaction>)
    ensures |r| == |ts|
    ensures multiset(r) == multiset(ts)
    ensures NewestFirst(r)
  {
    if ts == [] then []
    else
      assert ts == ts[..|ts| - 1] + [ts[|ts| - 1]];
      var sorted := SortByRecency(ts[..|ts| - 1]);
      InsertByRecencyKeepsOrder(sorted, ts[|ts| - 1]);
      InsertByRecencyAddsOne(sorted, ts[|ts| - 1]);
      InsertByRecency(sorted, ts[|ts| - 1])
  }

  lemma {:induction false} InsertByRecencyIsStable(sorted: seq<Transaction>, t: Transaction, instant: int)
    requires NewestFirst(sorted)
    ensures Filter(InsertByRecency(sorted, t), CreatedAtIs(instant)) ==
            Filter(sorted, CreatedAtIs(instant)) + Filter([t], CreatedAtIs(instant))
  {
    var p := CreatedAtIs(instant);
    if sorted == [] {
      assert InsertByRecency(sorted, t) == [t];
    } else if sorted[0].createdAt >= t.createdAt {
      var rest := InsertByRecency(sorted[1..], t);
      InsertByRecencyIsStable(sorted[1..], t, instant);
      assert InsertByRecency(sorted, t) == [sorted[0]] + rest;
      assert sorted == [sorted[0]] + sorted[1..];
      PrependKeepsSplit(sorted[0], sorted[1..], rest, [t], p);
    } else {
      assert InsertByRecency(sorted, t) == [t] + sorted;
      NewestInFrontIsStable(sorted, t, instant);
    }
  }

  /** Putting a strictly newer transaction in front keeps each instant's order. */
  lemma NewestInFrontIsStable(sorted: seq<Transaction>, t: Transaction, instant: int)
    requires NewestFirst(sorted) && sorted != [] && sorted[0].createdAt < t.createdAt
    ensures Filter([t] + sorted, CreatedAtIs(instant)) ==
            Filter(sorted, CreatedAtIs(instant)) + Filter([t], CreatedAtIs(instant))
  {
    var p := CreatedAtIs(instant);
    FilterConcat([t], sorted, p);
    if t.createdAt == instant {
      assert forall i :: 0 <= i < |sorted| ==> !p(sorted[i]);
      FilterNone(sorted, p);
    } else {
      assert Filter([t], p) == [];
    }
  }

  /**
   * The sort is stable: for every instant, the transactions created at that
   * instant appear in the result in the same order as in the input.
   */
  lemma {:induction false} SortByRecencyIsStable(ts: seq<Transaction>, instant: int)
    ensures Filter(SortByRecency(ts), CreatedAtIs(instant)) == Filter(ts, CreatedAtIs(instant))
  {
    if ts != [] {
      var init, last := ts[..|ts| - 1], ts[|ts| - 1];
      assert ts == init + [last];
      SortByRecencyIsStable(init, instant);
      InsertByRecencyIsStable(SortByRecency(init), last, instant);
      FilterConcat(init, [last], CreatedAtIs(instant));
    }
  }

  function Min(a: int, b: int): int {
    if a <= b then a else b
  }

  /** The five most recently created transactions, newest first (`.slice(0, 5)`). */
  function RecentTransactions(ts: seq<Transaction>): (r: seq<Transaction>)
    ensures |r| == Min(5, |ts|)
    ensures multiset(r) <= multiset(ts)
    ensures NewestFirst(r)
  {
    var sorted := SortByRecency(ts);
    assert sorted == sorted[..Min(5, |ts|)] + sorted[Min(5, |ts|)..];
    sorted[..Min(5, |ts|)]
  }

  /** Every transaction left out of the recent list is no newer than all of those listed. */
  lemma RecentAreNewest(ts: seq<Transaction>, t: Transaction)
    requires multiset(ts)[t] > multiset(RecentTransactions(ts))[t]
    ensures forall i :: 0 <= i < |RecentTransactions(ts)| ==>
              RecentTransactions(ts)[i].createdAt >= t.createdAt
  {
    var sorted := SortByRecency(ts);
    var k := Min(5, |ts|);
    var recent, older := sorted[..k], sorted[k..];
    assert RecentTransactions(ts) == recent;
    assert sorted == recent + older;
    assert multiset(ts) == multiset(recent) + multiset(older);
    assert t in multiset(older);
    var j :| 0 <= j < |older| && older[j] == t;
    assert sorted[k + j] == t;
    forall i | 0 <= i < k ensures recent[i].createdAt >= t.createdAt {
      assert recent[i] == sorted[i];
    }
  }

  /** Transactions created at the same instant are listed in input order. */
  lemma RecentIsStable(ts: seq<Transaction>, instant: int)
    ensures Filter(RecentTransactions(ts), CreatedAtIs(instant)) <= Filter(ts, CreatedAtIs(instant))
  {
    var sorted := SortByRecency(ts);
    var k := Min(5, |ts|);
    assert sorted == sorted[..k] + sorted[k..];
    FilterConcat(sorted[..k], sorted[k..], CreatedAtIs(instant));
    SortByRecencyIsStable(ts, instant);
  }

  /** getDashboardStats over a snapshot of the two collections. */
  function GetDashboardStats(es: seq<Establishment>, ts: seq<Transaction>): (r: DashboardStats)
    ensures r.totalEstablishments == |es|
    ensures r.totalDeliveries == SumAmounts(Filter(ts, IsDelivery))
    ensures r.totalPayments == SumAmounts(Filter(ts, IsPayment))
    ensures r.totalOutstanding == r.totalDeliveries - r.totalPayments == Balance(ts)
    ensures r.recentTransactions == RecentTransactions(ts)
    ensures ts == [] ==> r == DashboardStats(|es|, 0, 0, 0, [])
  {
    var deliveries := SumAmounts(Filter(ts, IsDelivery));
    var payments := SumAmounts(Filter(ts, IsPayment));
    BalanceIsDeliveriesLessPayments(ts);
    DashboardStats(|es|, deliveries, payments, deliveries - payments, RecentTransactions(ts))
  }

  // ---------------------------------------------------------------------
  // The two views agree

  /** Sum of the balances of the rows. */
  function TotalBalance(rows: seq<EstablishmentWithTransactions>): int {
    if rows == [] then 0 else TotalBalance(rows[..|rows| - 1]) + rows[|rows| - 1].balance
  }

  /** Every transaction names an establishment of the collection. */
  predicate ReferencesResolve(es: seq<Establishment>, ts: seq<Transaction>) {
    forall i :: 0 <= i < |ts| ==> HasEstablishment(es, ts[i].establishmentId)
  }

  /**
   * With unique establishment ids and no dangling establishmentId, the
   * balances of the establishments list add up to the dashboard's outstanding total.
   */
  lemma {:induction false} BalancesAddUpToOutstanding(es: seq<Establishment>, ts: seq<Transaction>)
    requires UniqueIds(es)
    requires ReferencesResolve(es, ts)
    ensures TotalBalance(EstablishmentsWithTransactions(es, ts)) == GetDashboardStats(es, ts).totalOutstanding
  {
    if ts == [] {
      TotalBalanceWithoutTransactions(es);
    } else {
      var init, last := ts[..|ts| - 1], ts[|ts| - 1];
      assert ts == init + [last];
      BalancesAddUpToOutstanding(es, init);
      TotalBalanceAppend(es, init, last);
    }
  }

  lemma {:induction false} TotalBalanceWithoutTransactions(es: seq<Establishment>)
    ensures TotalBalance(EstablishmentsWithTransactions(es, [])) == 0
  {
    if es != [] {
      TotalBalanceSnoc(es, []);
      NoTransactionsNoBalance(es[|es| - 1], []);
      TotalBalanceWithoutTransactions(es[..|es| - 1]);
    }
  }

  /** The rows of a sequence of establishments are the rows of its prefix plus one. */
  lemma RowsSnoc(es: seq<Establishment>, ts: seq<Transaction>)
    requires es != []
    ensures EstablishmentsWithTransactions(es, ts) ==
            EstablishmentsWithTransactions(es[..|es| - 1], ts) + [WithTransactions(es[|es| - 1], ts)]
  {
    MapSnoc(es, RowOf(ts));
  }

  /** The balance total of the rows is the prefix's total plus the last establishment's balance. */
  lemma TotalBalanceSnoc(es: seq<Establishment>, ts: seq<Transaction>)
    requires es != []
    ensures TotalBalance(EstablishmentsWithTransactions(es, ts)) ==
            TotalBalance(EstablishmentsWithTransactions(es[..|es| - 1], ts)) +
            WithTransactions(es[|es| - 1], ts).balance
  {
    RowsSnoc(es, ts);
    var init := EstablishmentsWithTransactions(es[..|es| - 1], ts);
    var last := WithTransactions(es[|es| - 1], ts);
    assert (init + [last])[..|init|] == init;
  }

  /** Appending a transaction changes one row's balance, by its signed amount, if it is that row's. */
  lemma RowBalanceAppend(e: Establishment, ts: seq<Transaction>, t: Transaction)
    ensures WithTransactions(e, ts + [t]).balance ==
            WithTransactions(e, ts).balance + (if t.establishmentId == e.id then Signed(t) else 0)
  {
    FilterConcat(ts, [t], BelongsTo(e.id));
    BalanceAppend(TransactionsOf(ts, e.id), Filter([t], BelongsTo(e.id)));
    assert [t][1..] == [];
  }

  lemma HasEstablishmentSnoc(es: seq<Establishment>, id: string)
    requires es != []
    ensures HasEstablishment(es, id) <==> HasEstablishment(es[..|es| - 1], id) || es[|es| - 1].id == id
  {
    if HasEstablishment(es, id) {
      var i :| 0 <= i < |es| && es[i].id == id;
      if i < |es| - 1 { assert es[..|es| - 1][i] == es[i]; }
    }
  }

  /** Appending a transaction adds its signed amount once, to its establishment's row. */
  lemma {:induction false} TotalBalanceAppend(es: seq<Establishment>, ts: seq<Transaction>, t: Transaction)
    requires UniqueIds(es)
    ensures TotalBalance(EstablishmentsWithTransactions(es, ts + [t])) ==
            TotalBalance(EstablishmentsWithTransactions(es, ts)) +
            (if HasEstablishment(es, t.establishmentId) then Signed(t) else 0)
  {
    if es != [] {
      var init, e, id := es[..|es| - 1], es[|es| - 1], t.establishmentId;
      HasEstablishmentSnoc(es, id);
      LastIdIsNew(es);
      var inInit := if HasEstablishment(init, id) then Signed(t) else 0;
      var inLast := if e.id == id then Signed(t) else 0;
      assert (if HasEstablishment(es, id) then Signed(t) else 0) == inInit + inLast;
      TotalBalanceSnoc(es, ts + [t]);
      TotalBalanceSnoc(es, ts);
      TotalBalanceAppend(init, ts, t);
      RowBalanceAppend(e, ts, t);
    }
  }

  /** In a collection with unique ids, the prefix keeps them unique and the last id is not in it. */
  lemma LastIdIsNew(es: seq<Establishment>)
    requires es != [] && UniqueIds(es)
    ensures UniqueIds(es[..|es| - 1])
    ensures !HasEstablishment(es[..|es| - 1], es[|es| - 1].id)
  {
    var init := es[..|es| - 1];
    assert forall i :: 0 <= i < |init| ==> init[i] == es[i];
  }
}
