/** The durable queue of cart mutations made while offline: the `cartQueue`
    object store that the cart context appends to and that the service
    worker's `cart-sync` background sync is meant to drain. */
module OfflineQueue {
  import opened Common

  datatype HttpMethod = Get | Post | Put | Delete

  /** One stored record: the request to replay and its auto-increment key. */
  datatype QueuedOp = QueuedOp(
    id: nat,
    verb: HttpMethod,
    url: string,
    contentType: string,
    authorization: string,
    body: Option<string>)

  /** The object store: its records in key order (the order `getAll`
      returns) and the next auto-increment key. */
  datatype Queue = Queue(ops: seq<QueuedOp>, nextKey: nat)

  /** A fresh store; auto-increment keys start at 1. */
  const EmptyQueue: Queue := Queue([], 1)

  function KeyAt(ops: seq<QueuedOp>, i: nat): nat
    requires i < |ops|
  {
    ops[i].id
  }

  /** Keys strictly increase along the records. */
  ghost predicate KeysAscending(ops: seq<QueuedOp>)
  {
    forall i, j {:trigger KeyAt(ops, i), KeyAt(ops, j)} :: 0 <= i < j < |ops| ==> KeyAt(ops, i) < KeyAt(ops, j)
  }

  /** Keys strictly increase along the records and stay below the next key. */
  ghost predicate KeysIncreasing(q: Queue)
  {
    && KeysAscending(q.ops)
    && (forall i {:trigger KeyAt(q.ops, i)} :: 0 <= i < |q.ops| ==> KeyAt(q.ops, i) < q.nextKey)
  }

  /** `store.add(operation)`: the record gets the next key and goes last. */
  function Enqueue(q: Queue, verb: HttpMethod, url: string, contentType: string, authorization: string, body: Option<string>): (r: Queue)
    ensures |r.ops| == |q.ops| + 1 && r.ops[..|q.ops|] == q.ops
    ensures r.ops[|q.ops|] == QueuedOp(q.nextKey, verb, url, contentType, authorization, body)
    ensures r.nextKey > q.nextKey
  {
    Queue(q.ops + [QueuedOp(q.nextKey, verb, url, contentType, authorization, body)], q.nextKey + 1)
  }

  /** Appending keeps the keys increasing, so key order is enqueue order. */
  lemma EnqueueKeepsKeyOrder(q: Queue, verb: HttpMethod, url: string, contentType: string, authorization: string, body: Option<string>)
    requires KeysIncreasing(q)
    ensures KeysIncreasing(Enqueue(q, verb, url, contentType, authorization, body))
  {
    var r := Enqueue(q, verb, url, contentType, authorization, body);
    forall i, j | 0 <= i < j < |r.ops|
      ensures KeyAt(r.ops, i) < KeyAt(r.ops, j)
    {
      if j < |q.ops| {
        assert KeyAt(r.ops, i) == KeyAt(q.ops, i) && KeyAt(r.ops, j) == KeyAt(q.ops, j);
      } else {
        assert KeyAt(r.ops, i) == KeyAt(q.ops, i);
      }
    }
    forall i | 0 <= i < |r.ops|
      ensures KeyAt(r.ops, i) < r.nextKey
    {
      if i < |q.ops| {
        assert KeyAt(r.ops, i) == KeyAt(q.ops, i);
      }
    }
  }

  // ---------------------------------------------------------------------------
  // The drain

  /** What replaying one record came to: a response with an ok status, a
      response with another status, or a `fetch` that threw. */
  datatype Delivery = Delivered | Refused | Thrown

  /** A record stays queued unless its replay was delivered. */
  function Undelivered(send: QueuedOp -> Delivery): QueuedOp -> bool
  {
    (op: QueuedOp) => send(op) != Delivered
  }

  function KeyIsNot(key: nat): QueuedOp -> bool
  {
    (op: QueuedOp) => op.id != key
  }

  /** `deleteStore.delete(key)`. */
  function DeleteKey(ops: seq<QueuedOp>, key: nat): (r: seq<QueuedOp>)
    ensures forall i :: 0 <= i < |r| ==> r[i].id != key
  {
    Filter(ops, KeyIsNot(key))
  }

  /** The records kept from before position `i` all have smaller keys
      than the record at `i`. */
  lemma KeptBefore(ops: seq<QueuedOp>, i: nat, p: QueuedOp -> bool)
    requires i < |ops|
    requires KeysAscending(ops)
    ensures forall k :: 0 <= k < |Filter(ops[..i], p)| ==> Filter(ops[..i], p)[k].id < ops[i].id
  {
    var done := Filter(ops[..i], p);
    forall k | 0 <= k < |done|
      ensures done[k].id < ops[i].id
    {
      var j :| 0 <= j < i && ops[..i][j] == done[k];
      assert ops[j] == done[k];
      assert KeyAt(ops, j) < KeyAt(ops, i);
    }
  }

  /** The records after position `i` have larger keys than the one at `i`. */
  lemma LaterKeysDiffer(ops: seq<QueuedOp>, i: nat, later: seq<QueuedOp>)
    requires i < |ops| && later == ops[i + 1..]
    requires KeysAscending(ops)
    ensures forall k :: 0 <= k < |later| ==> later[k].id != ops[i].id
  {
    forall k | 0 <= k < |later|
      ensures later[k].id != ops[i].id
    {
      assert later[k] == ops[i + 1 + k];
      assert KeyAt(ops, i) < KeyAt(ops, i + 1 + k);
    }
  }

  lemma DropOne<T>(s: seq<T>, i: nat)
    requires i < |s|
    ensures s[i..] == [s[i]] + s[i + 1..]
  {
  }

  /** Deleting the key of a record from a store in which no other record
      carries that key removes exactly that record. */
  lemma DeleteCurrent(done: seq<QueuedOp>, x: QueuedOp, later: seq<QueuedOp>)
    requires forall k :: 0 <= k < |done| ==> done[k].id < x.id
    requires forall k :: 0 <= k < |later| ==> later[k].id != x.id
    ensures DeleteKey(done + [x] + later, x.id) == done + later
  {
    FilterDropsOne(done, x, later, KeyIsNot(x.id));
  }

  lemma TakeOneMore<T>(s: seq<T>, i: nat)
    requires i < |s|
    ensures s[..i + 1] == s[..i] + [s[i]]
  {
  }

  /** One turn of the drain loop, on the store's contents: before the
      turn the store holds the undelivered records before `i` and every
      record from `i` on; after it, the same with `i + 1`. */
  lemma DrainStep(ops: seq<QueuedOp>, i: nat, send: QueuedOp -> Delivery)
    requires i < |ops|
    requires KeysAscending(ops)
    ensures var before := Filter(ops[..i], Undelivered(send)) + ops[i..];
      (if send(ops[i]) == Delivered then DeleteKey(before, ops[i].id) else before)
        == Filter(ops[..i + 1], Undelivered(send)) + ops[i + 1..]
  {
    var op := ops[i];
    var done := Filter(ops[..i], Undelivered(send));
    TakeOneMore(ops, i);
    FilterConcat(ops[..i], [op], Undelivered(send));
    DropOne(ops, i);
    assert done + ops[i..] == done + [op] + ops[i + 1..];
    if send(op) == Delivered {
      KeptBefore(ops, i, Undelivered(send));
      LaterKeysDiffer(ops, i, ops[i + 1..]);
      DeleteCurrent(done, op, ops[i + 1..]);
      assert Filter([op], Undelivered(send)) == [];
    } else {
      assert Filter([op], Undelivered(send)) == [op];
    }
  }

  /** `syncCartOperations`' loop as it is meant to run over the stored
      records: every record is replayed once, in key order, whatever happens to the others; a delivered record is deleted
      by its key, a refused or throwing one stays. The store ends up holding
      exactly the undelivered records, still in their original order. */
  method Drain(q: Queue, send: QueuedOp -> Delivery) returns (rest: Queue, sent: seq<QueuedOp>)
    requires KeysIncreasing(q)
    ensures sent == q.ops
    ensures rest.ops == Filter(q.ops, Undelivered(send))
    ensures rest.nextKey == q.nextKey
  {
    var store := q.ops;
    sent := [];
    var i := 0;
    while i < |q.ops|
      invariant 0 <= i <= |q.ops|
      invariant sent == q.ops[..i]
      invariant store == Filter(q.ops[..i], Undelivered(send)) + q.ops[i..]
    {
      var op := q.ops[i];
      DrainStep(q.ops, i, send);
      if send(op) == Delivered {
        store := DeleteKey(store, op.id);
      }
      sent := sent + [op];
      TakeOneMore(q.ops, i);
      i := i + 1;
    }
    assert q.ops[..i] == q.ops;
    rest := Queue(store, q.nextKey);
  }

  function KeyBefore(a: QueuedOp, b: QueuedOp): bool
  {
    a.id < b.id
  }

  /** What a drain leaves behind is again a well-keyed queue, so the next
      drain replays the survivors in their original order. */
  lemma DrainKeepsKeyOrder(q: Queue, send: QueuedOp -> Delivery)
    requires KeysIncreasing(q)
    ensures KeysIncreasing(Queue(Filter(q.ops, Undelivered(send)), q.nextKey))
  {
    forall i, j | 0 <= i < j < |q.ops|
      ensures KeyBefore(q.ops[i], q.ops[j])
    {
      assert KeyAt(q.ops, i) < KeyAt(q.ops, j);
    }
    FilterPairwise(q.ops, Undelivered(send), KeyBefore);
    var r := Filter(q.ops, Undelivered(send));
    forall i, j | 0 <= i < j < |r|
      ensures KeyAt(r, i) < KeyAt(r, j)
    {
      assert KeyBefore(r[i], r[j]);
    }
    forall i | 0 <= i < |r|
      ensures KeyAt(r, i) < q.nextKey
    {
      var k :| 0 <= k < |q.ops| && q.ops[k] == r[i];
      assert KeyAt(q.ops, k) < q.nextKey;
    }
  }

  /** The background-sync tag both sides agree on. */
  const SyncTag: string := "cart-sync"

  /** What `await store.getAll()` hands the sync handler: the records, or
      the request object itself. */
  datatype Awaited = Records(ops: seq<QueuedOp>) | RequestObject

  /** The store comes from the file's own raw IndexedDB helper, whose
      `getAll()` returns an `IDBRequest` rather than a promise; awaiting
      it yields that request, and the records only arrive later through
      its success event. */
  function AwaitGetAll(q: Queue): Awaited
  {
    RequestObject
  }

  /** `syncCartOperations` as written. The `for…of` over the awaited value
      throws a TypeError on a request object before the first replay, and
      the outer `catch` only logs it; the loop body is reached only if the
      records themselves had been awaited. */
  function SyncAsWritten(tag: string, dbOpens: bool, q: Queue, send: QueuedOp -> Delivery): (r: (Queue, seq<QueuedOp>))
    ensures r == (q, [])
  {
    if tag != SyncTag || !dbOpens then (q, [])
    else match AwaitGetAll(q)
      case RequestObject => (q, [])
      case Records(ops) => (Queue(Filter(ops, Undelivered(send)), q.nextKey), ops)
  }

  /** As written, a queued record that the server would accept is never
      replayed and stays queued through every sync, while the intended
      drain (`OnSync`) removes it on the first one. */
  lemma SyncAsWrittenKeepsDeliverable(q: Queue, send: QueuedOp -> Delivery, k: nat)
    requires k < |q.ops| && send(q.ops[k]) == Delivered
    ensures SyncAsWritten(SyncTag, true, q, send).1 == []
    ensures q.ops[k] in SyncAsWritten(SyncTag, true, q, send).0.ops
    ensures q.ops[k] !in Filter(q.ops, Undelivered(send))
  {
    var r := Filter(q.ops, Undelivered(send));
    forall j | 0 <= j < |r|
      ensures r[j] != q.ops[k]
    {
      assert Undelivered(send)(r[j]);
    }
  }

  /** The `sync` event as the handler means it, with the stored records
      actually read: only the cart tag drains, and only when the database
      opens (a failure there is logged and nothing happens). */
  method OnSync(tag: string, dbOpens: bool, q: Queue, send: QueuedOp -> Delivery) returns (rest: Queue, sent: seq<QueuedOp>)
    requires KeysIncreasing(q)
    ensures tag != SyncTag || !dbOpens ==> rest == q && sent == []
    ensures tag == SyncTag && dbOpens ==> sent == q.ops && rest == Queue(Filter(q.ops, Undelivered(send)), q.nextKey)
    ensures q.ops == [] ==> sent == [] && rest == q
  {
    if tag == SyncTag && dbOpens {
      rest, sent := Drain(q, send);
    } else {
      rest, sent := q, [];
    }
  }
}
