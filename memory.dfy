/**
 * The keyed append-log memory of swarm/memory/memory.py: records are kept per
 * id, in insertion order, and the ids themselves are kept in the order the
 * dictionary first saw them.
 */
module Memories {
  import opened Digraph
  import opened Nodes

  /** A stored record: a Python dictionary from field names to values. */
  datatype Record = Record(fields: map<string, Value>)

  /** The records stored for id, or none. */
  function Lookup(items: map<string, seq<Record>>, id: string): seq<Record> {
    if id in items then items[id] else []
  }

  /** item.get('operation') == operation. */
  predicate OfOperation(item: Record, operation: string) {
    "operation" in item.fields && item.fields["operation"] == Str(operation)
  }

  /** The dictionary's keys are exactly the listed ids. */
  ghost predicate Keyed(ids: seq<string>, items: map<string, seq<Record>>) {
    NoDup(ids) && forall id :: id in items <==> id in ids
  }

  /** The records of one list that belong to the operation, in order. */
  function OfOperationIn(records: seq<Record>, operation: string): seq<Record> {
    if records == [] then []
    else
      var rest := OfOperationIn(records[..|records| - 1], operation);
      var last := records[|records| - 1];
      if OfOperation(last, operation) then rest + [last] else rest
  }

  /** The comprehension of query_by_operations: id by id, record by record. */
  function ByOperation(ids: seq<string>, items: map<string, seq<Record>>, operation: string): seq<Record> {
    if ids == [] then []
    else ByOperation(ids[..|ids| - 1], items, operation) + OfOperationIn(Lookup(items, ids[|ids| - 1]), operation)
  }

  /** A record of the operation is kept exactly when it is in the list. */
  lemma {:induction false} OfOperationInMembers(records: seq<Record>, operation: string, x: Record)
    ensures x in OfOperationIn(records, operation) <==> x in records && OfOperation(x, operation)
  {
    if records != [] {
      OfOperationInMembers(records[..|records| - 1], operation, x);
      assert records == records[..|records| - 1] + [records[|records| - 1]];
    }
  }

  /** query_by_operations returns exactly the stored records whose operation field matches. */
  lemma {:induction false} ByOperationMembers(ids: seq<string>, items: map<string, seq<Record>>, operation: string, x: Record)
    ensures x in ByOperation(ids, items, operation) <==>
              OfOperation(x, operation) && exists id :: id in ids && x in Lookup(items, id)
  {
    if ids != [] {
      var init, last := ids[..|ids| - 1], ids[|ids| - 1];
      ByOperationMembers(init, items, operation, x);
      OfOperationInMembers(Lookup(items, last), operation, x);
      assert ids == init + [last];
      if OfOperation(x, operation) && x in Lookup(items, last) {
        assert last in ids;
      }
      if id :| id in ids && x in Lookup(items, id) {
        if id != last {
          assert id in init;
        }
      }
    }
  }

  /** ByOperationMembers for every record at once. */
  lemma ByOperationAll(ids: seq<string>, items: map<string, seq<Record>>, operation: string)
    ensures forall x :: x in ByOperation(ids, items, operation) <==>
              OfOperation(x, operation) && exists id :: id in ids && x in Lookup(items, id)
  {
    forall x {
      ByOperationMembers(ids, items, operation, x);
    }
  }

  /** The records of a list with one more record appended. */
  lemma OfOperationInSnoc(records: seq<Record>, item: Record, operation: string)
    ensures OfOperationIn(records + [item], operation)
         == OfOperationIn(records, operation) + (if OfOperation(item, operation) then [item] else [])
  {
    assert (records + [item])[..|records|] == records;
  }

  /** Ids whose lists agree contribute the same records. */
  lemma {:induction false} ByOperationSame(ids: seq<string>, items: map<string, seq<Record>>, items': map<string, seq<Record>>,
                                           operation: string)
    requires forall k :: k in ids ==> Lookup(items', k) == Lookup(items, k)
    ensures ByOperation(ids, items', operation) == ByOperation(ids, items, operation)
  {
    if ids != [] {
      ByOperationSame(ids[..|ids| - 1], items, items', operation);
    }
  }

  /** Without its last id, a list of distinct ids is still distinct and lacks that id. */
  lemma DropLast(ids: seq<string>)
    requires NoDup(ids) && ids != []
    ensures NoDup(ids[..|ids| - 1]) && ids[|ids| - 1] !in ids[..|ids| - 1]
  {
  }

  /** The matches a single record adds. */
  function Extra(item: Record, operation: string): seq<Record> {
    if OfOperation(item, operation) then [item] else []
  }

  lemma RegroupLast<T>(a: seq<T>, b: seq<T>, e: seq<T>)
    ensures multiset(a + (b + e)) == multiset(a + b) + multiset(e)
  {
    assert a + (b + e) == (a + b) + e;
  }

  lemma RegroupInit<T>(a: seq<T>, a': seq<T>, b: seq<T>, e: seq<T>)
    requires multiset(a') == multiset(a) + multiset(e)
    ensures multiset(a' + b) == multiset(a + b) + multiset(e)
  {
  }

  /** One more record on id's list adds that record to the matches, if it matches. */
  lemma {:induction false} ByOperationAppend(ids: seq<string>, items: map<string, seq<Record>>, items': map<string, seq<Record>>,
                                             id: string, item: Record, operation: string)
    requires NoDup(ids) && id in ids
    requires forall k :: k != id ==> Lookup(items', k) == Lookup(items, k)
    requires Lookup(items', id) == Lookup(items, id) + [item]
    ensures multiset(ByOperation(ids, items', operation)) == multiset(ByOperation(ids, items, operation)) + multiset(Extra(item, operation))
  {
    DropLast(ids);
    var init, last := ids[..|ids| - 1], ids[|ids| - 1];
    var before, after := ByOperation(init, items, operation), ByOperation(init, items', operation);
    var tail, tail' := OfOperationIn(Lookup(items, last), operation), OfOperationIn(Lookup(items', last), operation);
    if last == id {
      ByOperationSame(init, items, items', operation);
      OfOperationInSnoc(Lookup(items, id), item, operation);
      RegroupLast(before, tail, Extra(item, operation));
    } else {
      assert id in init;
      ByOperationAppend(init, items, items', id, item, operation);
      RegroupInit(before, after, tail, Extra(item, operation));
    }
  }

  /** A new id's list holds just the record, added at the end of the id order. */
  lemma ByOperationFresh(ids: seq<string>, items: map<string, seq<Record>>, items': map<string, seq<Record>>,
                          id: string, item: Record, operation: string)
    requires id !in ids
    requires forall k :: k != id ==> Lookup(items', k) == Lookup(items, k)
    requires Lookup(items', id) == [item]
    ensures ByOperation(ids + [id], items', operation) == ByOperation(ids, items, operation) + Extra(item, operation)
  {
    assert (ids + [id])[..|ids|] == ids;
    ByOperationSame(ids, items, items', operation);
    OfOperationInSnoc([], item, operation);
  }

  /** What add does to the matches of every operation, on the dictionary's values. */
  lemma AddedMatches(ids: seq<string>, items: map<string, seq<Record>>, ids': seq<string>, items': map<string, seq<Record>>,
                     id: string, item: Record, operation: string)
    requires Keyed(ids, items)
    requires ids' == if id in items then ids else ids + [id]
    requires forall k :: k != id ==> Lookup(items', k) == Lookup(items, k)
    requires Lookup(items', id) == Lookup(items, id) + [item]
    ensures multiset(ByOperation(ids', items', operation)) == multiset(ByOperation(ids, items, operation)) + multiset(Extra(item, operation))
  {
    if id in items {
      ByOperationAppend(ids, items, items', id, item, operation);
    } else {
      ByOperationFresh(ids, items, items', id, item, operation);
    }
  }

  class Memory {
    /** The keys of the dictionary, in insertion order. */
    var ids: seq<string>
    var items: map<string, seq<Record>>

    ghost predicate Valid()
      reads this
    {
      Keyed(ids, items)
    }

    /** Memory(use_rag=False): nothing stored. */
    constructor ()
      ensures Valid() && ids == [] && items == map[]
    {
      ids, items := [], map[];
    }

    /** query_by_id: the records for id in insertion order, [] for an unknown id. */
    function QueryById(id: string): seq<Record>
      reads this
    {
      Lookup(items, id)
    }

    /** query_by_operations: every stored record whose 'operation' field is the operation. */
    function QueryByOperations(operation: string): (r: seq<Record>)
      reads this
      ensures forall x :: x in r <==> OfOperation(x, operation) && exists id :: id in ids && x in QueryById(id)
    {
      ByOperationAll(ids, items, operation);
      ByOperation(ids, items, operation)
    }

    /** add: append the record to id's list, creating the list first for a new id. */
    method Add(id: string, item: Record)
      requires Valid()
      modifies this
      ensures Valid()
      ensures QueryById(id) == old(QueryById(id)) + [item]
      ensures forall other :: other != id ==> QueryById(other) == old(QueryById(other))
      ensures ids == if id in old(items) then old(ids) else old(ids) + [id]
      ensures forall operation :: multiset(QueryByOperations(operation))
                == multiset(old(QueryByOperations(operation))) + multiset(Extra(item, operation))
    {
      ghost var ids0, items0 := ids, items;
      if id !in items {
        items := items[id := []];
        ids := ids + [id];
      }
      items := items[id := items[id] + [item]];
      forall operation
        ensures multiset(ByOperation(ids, items, operation))
             == multiset(ByOperation(ids0, items0, operation)) + multiset(Extra(item, operation))
      {
        AddedMatches(ids0, items0, ids, items, id, item, operation);
      }
    }

    /** clear: forget every id and record. */
    method Clear()
      modifies this
      ensures Valid() && ids == [] && items == map[]
      ensures forall id :: QueryById(id) == []
    {
      ids, items := [], map[];
    }
  }
}
