/**
 The record repository as an object.  Its tables are fields; saving writes them row by row, and a batch that
 fails midway puts back the tables it found.
 */
module RecordStore {
  import opened Common
  import opened Json
  import opened StringOrder
  import opened RecordModel
  import opened RecordLog

  class Store {
    var datasets: map<int, Dataset>
    var records: map<RecordId, Record>
    var observations: map<ObservationId, Observation>
    var revisions: seq<Revision>
    var nextRecord: RecordId
    var nextObservation: ObservationId

    function View(): Shelf
      reads this
    {
      Shelf(datasets, records, observations, revisions, nextRecord, nextObservation)
    }

    constructor ()
      ensures View() == EMPTY_SHELF
    {
      datasets, records, observations, revisions := map[], map[], map[], [];
      nextRecord, nextObservation := 1, 1;
    }

    method EditDataset(id: int, edited: Dataset)
      modifies this`datasets
      ensures View() == old(View()).(datasets := old(datasets)[id := edited])
    {
      datasets := datasets[id := edited];
    }

    method LookUpObservation(dataset: int, idem: string) returns (found: Option<ObservationId>)
      ensures found == FindObservation(View(), dataset, idem, 0)
    {
      var o := 0;
      while o < nextObservation
        invariant 0 <= o
        invariant FindObservation(View(), dataset, idem, 0) == FindObservation(View(), dataset, idem, o)
        decreases nextObservation - o
      {
        if o in observations && observations[o].dataset == dataset && observations[o].idem == Some(idem)
            && observations[o].record in records {
          return Some(o);
        }
        o := o + 1;
      }
      found := None;
    }

    method LookUpRecord(dataset: int, key: string) returns (found: Option<RecordId>)
      ensures found == FindRecord(View(), dataset, key, 0)
    {
      var r := 0;
      while r < nextRecord
        invariant 0 <= r
        invariant FindRecord(View(), dataset, key, 0) == FindRecord(View(), dataset, key, r)
        decreases nextRecord - r
      {
        if r in records && records[r].dataset == dataset && records[r].key == key {
          return Some(r);
        }
        r := r + 1;
      }
      found := None;
    }

    /** The body of one save, inside a transaction. */
    method SaveRow(fmt: Formats, item: Item) returns (reply: Reply)
      modifies this
      ensures (View(), reply) == SaveOne(fmt, old(View()), item)
    {
      if item.dataset <= 0 || item.dataset !in datasets || !datasets[item.dataset].active {
        return Rejected;
      }
      var dataset := datasets[item.dataset];
      if item.expectedVersion > 0 && dataset.schema.version != item.expectedVersion {
        return Rejected;
      }
      var values := item.values;
      if dataset.magnet {
        values := Canonical(dataset, values);
      }
      var prepared, _ := PrepareCandidate(fmt, dataset.schema, values);
      if prepared.None? {
        return Invalid;
      }
      if |item.idem| > LONGEST_IDEM {
        return Rejected;
      }
      if item.idem != "" {
        var earlier := LookUpObservation(item.dataset, item.idem);
        if earlier.Some? {
          var o := observations[earlier.value];
          if records[o.record].key != prepared.value.key || o.values != prepared.value.values {
            return Conflict;
          }
          return Saved(Result(o.record, earlier.value, o.decision, prepared.value.key, []));
        }
      }
      var result := WriteRows(item, prepared.value);
      reply := Saved(result);
    }

    method WriteRows(item: Item, c: Candidate) returns (result: Result)
      requires Addressed(View(), item)
      modifies this
      ensures (View(), result) == Write(old(View()), item, c)
    {
      var found := LookUpRecord(item.dataset, c.key);
      var decision, merged, changed, before := Created, c.values, [], map[];
      var id := nextRecord;
      if found.Some? {
        id := found.value;
        before := records[id].values;
        merged, changed := Merge(before, c.values, datasets[item.dataset].schema.preserve);
        NothingListedIffNothing(ChangedKeys(before, c.values, datasets[item.dataset].schema.preserve));
        decision := if |changed| == 0 then Unchanged else Updated;
      }
      if found.None? {
        records := records[id := Record(item.dataset, c.key, merged)];
        nextRecord := nextRecord + 1;
        changed := SortKeys(merged.Keys);
      } else if decision == Updated {
        records := records[id := Record(item.dataset, c.key, merged)];
      }
      var idem := if Trim(item.idem) != "" then Some(item.idem) else None;
      var o := nextObservation;
      observations := observations[o := Observation(id, item.dataset, c.values, decision, idem)];
      nextObservation := o + 1;
      if decision == Created || decision == Updated {
        revisions := revisions + [Revision(id, o, before, merged, changed)];
      }
      result := Result(id, o, decision, c.key, changed);
    }

    /** One candidate in a transaction of its own. */
    method Save(fmt: Formats, item: Item) returns (reply: Reply)
      modifies this
      ensures (View(), reply) == SaveOne(fmt, old(View()), item)
      ensures !reply.Saved? ==> View() == old(View())
    {
      reply := SaveRow(fmt, item);
    }

    /** The candidates of a batch in order, as long as they are saved and name one dataset. */
    method SaveInOrder(fmt: Formats, items: seq<Item>) returns (results: Option<seq<Result>>)
      requires |items| > 0
      modifies this
      ensures results.Some? ==> OneDataset(items) && (View(), results) == SaveEach(fmt, old(View()), items)
      ensures results.None? ==> !OneDataset(items) || SaveEach(fmt, old(View()), items).1.None?
    {
      hide SaveOne, SaveEach;
      ghost var begun := View();
      var out: seq<Result> := [];
      SaveEachStarts(fmt, begun, items);
      for i := 0 to |items|
        invariant (View(), Some(out)) == SaveEach(fmt, begun, items[..i])
        invariant forall j :: 0 <= j < i ==> items[j].dataset == items[0].dataset
      {
        if items[i].dataset != items[0].dataset {
          return None;
        }
        SaveEachStep(fmt, begun, items, i);
        var reply := SaveRow(fmt, items[i]);
        if !reply.Saved? {
          FailureIsFinal(fmt, begun, items, i);
          return None;
        }
        out := out + [reply.result];
      }
      results := Some(out);
    }

    /** All candidates in one transaction; the first that is not saved rolls the others back. */
    method SaveBatch(fmt: Formats, items: seq<Item>) returns (results: Option<seq<Result>>)
      modifies this
      ensures (View(), results) == RecordLog.SaveBatch(fmt, old(View()), items)
      ensures results.None? ==> View() == old(View())
    {
      hide SaveEach;
      if |items| == 0 || |items| > LARGEST_BATCH {
        return None;
      }
      var begun := View();
      results := SaveInOrder(fmt, items);
      if results.None? {
        Rollback(begun);
      }
    }

    method Rollback(begun: Shelf)
      modifies this
      ensures View() == begun
    {
      datasets, records, observations, revisions := begun.datasets, begun.records, begun.observations, begun.revisions;
      nextRecord, nextObservation := begun.nextRecord, begun.nextObservation;
    }
  }

  lemma NothingListedIffNothing(keys: set<string>)
    ensures Sorted(keys) == [] <==> keys == {}
  {
    var xs := Sorted(keys);
    assert |xs| > 0 ==> xs[0] in keys;
  }

  lemma SaveEachStarts(fmt: Formats, s: Shelf, items: seq<Item>)
    ensures SaveEach(fmt, s, items[..0]) == (s, Some([])) && items[..|items|] == items
  {
  }

  lemma SaveEachStep(fmt: Formats, s: Shelf, items: seq<Item>, i: nat)
    requires i < |items| && SaveEach(fmt, s, items[..i]).1.Some?
    ensures var before, n := SaveEach(fmt, s, items[..i]), SaveEach(fmt, s, items[..i + 1]);
            var last := SaveOne(fmt, before.0, items[i]);
            if last.1.Saved? then n == (last.0, Some(before.1.value + [last.1.result])) else n.1.None?
  {
    hide SaveOne;
    assert items[..i + 1][..i] == items[..i];
  }

  /** A candidate that is not saved ends its batch. */
  lemma {:induction false} FailureIsFinal(fmt: Formats, s: Shelf, items: seq<Item>, i: nat)
    requires i < |items| && SaveEach(fmt, s, items[..i + 1]).1.None?
    ensures SaveEach(fmt, s, items).1.None?
  {
    if i + 1 == |items| {
      assert items[..i + 1] == items;
    } else {
      var front := items[..|items| - 1];
      assert front[..i + 1] == items[..i + 1];
      FailureIsFinal(fmt, s, front, i);
    }
  }
}
